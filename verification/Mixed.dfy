/** src/vemsa/pipeline/diarize.py, assign_speakers_to_segments: which segments are split. */
module Mixed {
  import opened Base
  import opened Models
  import opened Tallies
  import opened Text
  import opened Spans
  import opened SegmentSplit
  import opened SegmentLabels

  // ---- plain sums over the turns

  /** How long the turn runs inside the segment. */
  function Inside(segment: Segment, turn: Turn): real {
    var from, to := if turn.start < segment.start then segment.start else turn.start, if turn.end < segment.end then turn.end else segment.end;
    if from < to then to - from else 0.0
  }

  function OneSpeakers(segment: Segment, name: string): Turn -> real {
    (turn: Turn) => if turn.speaker == name then Inside(segment, turn) else 0.0
  }

  function Everyones(segment: Segment): Turn -> real {
    (turn: Turn) => Inside(segment, turn)
  }

  /** How long the turns of one speaker run inside the segment, all added up. */
  function TimeOf(segment: Segment, turns: seq<Turn>, name: string): real {
    Sum(OneSpeakers(segment, name), turns)
  }

  /** How long all turns do. */
  function TimeOfAll(segment: Segment, turns: seq<Turn>): real {
    Sum(Everyones(segment), turns)
  }

  ghost predicate HoldsMost(segment: Segment, turns: seq<Turn>, best: string) {
    forall name :: TimeOf(segment, turns, name) <= TimeOf(segment, turns, best)
  }

  lemma InsideIsCommonTime(segment: Segment, turn: Turn)
    ensures CommonTime(segment.start, segment.end, turn.start, turn.end, Inside(segment, turn))
    ensures SegmentOverlap(segment, turn) == Inside(segment, turn)
  {
    CommonTimeIs(segment.start, segment.end, turn.start, turn.end, Inside(segment, turn));
  }

  /** The shares of the code are those sums. */
  lemma {:induction false} TotalsAreTimes(segment: Segment, turns: seq<Turn>, name: string)
    ensures TotalOf(Overlaps(segment, turns), name) == TimeOf(segment, turns, name)
    ensures Sum(AmountOf(), Overlaps(segment, turns)) == TimeOfAll(segment, turns)
  {
    if turns != [] {
      var n := |turns| - 1;
      var before, overlap := Overlaps(segment, turns[..n]), SegmentOverlap(segment, turns[n]);
      TotalsAreTimes(segment, turns[..n], name);
      InsideIsCommonTime(segment, turns[n]);
      OverlapsNext(segment, turns, n);
      assert turns[..n + 1] == turns;
      SumSnoc(Under(name), before, Entry(turns[n].speaker, overlap));
      SumSnoc(AmountOf(), before, Entry(turns[n].speaker, overlap));
    }
  }

  // ---- when a segment is worth splitting

  /** The speakers besides the one heard longest hold more than the threshold of the time the turns cover, and
      the segment is long enough in seconds and in words. */
  ghost predicate WorthSplitting(u: CharTable, splitting: Splitting, segment: Segment, turns: seq<Turn>) {
    && (exists best :: HoldsMost(segment, turns, best)
         && TimeOfAll(segment, turns) - TimeOf(segment, turns, best) > splitting.threshold * TimeOfAll(segment, turns))
    && segment.end - segment.start >= splitting.minDuration
    && |Split(u, segment.text)| >= splitting.minWords
  }

  lemma MajorityHoldsMost(segment: Segment, turns: seq<Turn>)
    requires SharesOf(segment, turns).keys != []
    ensures var shares := SharesOf(segment, turns);
      && HoldsMost(segment, turns, Majority(shares)) && Get(shares)(Majority(shares)) == TimeOf(segment, turns, Majority(shares))
      && SumOfKeys(shares) == TimeOfAll(segment, turns)
  {
    hide TotalOf, Overlaps, TimeOf, TimeOfAll, Sum, TallyOf;
    var shares, entries := SharesOf(segment, turns), Overlaps(segment, turns);
    SharesAreOverlaps(segment, turns);
    SumsAddUp(entries);
    var best := Majority(shares);
    TotalsAreTimes(segment, turns, best);
    forall name ensures TimeOf(segment, turns, name) <= TimeOf(segment, turns, best) {
      TotalsAreTimes(segment, turns, name);
      if name in shares.keys {
        assert Get(shares)(name) <= Get(shares)(best);
      } else {
        NoTime(segment, turns, name);
      }
    }
  }

  lemma NoTime(segment: Segment, turns: seq<Turn>, name: string)
    requires SharesOf(segment, turns).keys != [] && name !in SharesOf(segment, turns).keys
    ensures TimeOf(segment, turns, name) == 0.0 && forall other :: TimeOf(segment, turns, other) >= 0.0
  {
    forall other ensures TimeOf(segment, turns, other) >= 0.0 {
      SumNotNegative(OneSpeakers(segment, other), turns);
    }
    hide Overlaps, TallyOf;
    SharesAreOverlaps(segment, turns);
    TotalsAreTimes(segment, turns, name);
    NotEntered(Overlaps(segment, turns), name);
  }

  /** The code's test is this one. */
  lemma SplittableIff(u: CharTable, splitting: Splitting, segment: Segment, turns: seq<Turn>)
    requires SharesOf(segment, turns).keys != []
    ensures Splittable(u, splitting, segment, SharesOf(segment, turns)) <==> WorthSplitting(u, splitting, segment, turns)
  {
    hide SharesOf, TimeOf, TimeOfAll, Split, SumOfKeys, Majority;
    MajorityHoldsMost(segment, turns);
    var best := Majority(SharesOf(segment, turns));
    if other :| HoldsMost(segment, turns, other) {
      assert TimeOf(segment, turns, other) == TimeOf(segment, turns, best);
    }
  }

  // ---- and whether the cuts separate anything

  /** Between cuts k and k + 1 there is more than whitespace. */
  ghost predicate Says(u: CharTable, text: string, cuts: seq<Cut>, k: int) {
    && 0 <= k < |cuts| - 1
    && exists i :: 0 <= i < |text| && cuts[k].offset <= i < cuts[k + 1].offset && !u.space(text[i])
  }

  function VoiceOf(spans: seq<Span>, cuts: seq<Cut>, k: int): Option<string> {
    if spans != [] && 0 <= k < |cuts| - 1 then Dominant(spans, cuts[k].time, cuts[k + 1].time) else None
  }

  /** Text of two different voices. */
  ghost predicate Contrast(u: CharTable, text: string, spans: seq<Span>, cuts: seq<Cut>, i: int, j: int) {
    i < j && Says(u, text, cuts, i) && Says(u, text, cuts, j) && VoiceOf(spans, cuts, i) != VoiceOf(spans, cuts, j)
  }

  ghost predicate CutsRun(text: string, cuts: seq<Cut>) {
    forall i, j :: 0 <= i < j < |cuts| ==> 0 <= cuts[i].offset <= cuts[j].offset <= |text|
  }

  lemma SaysIff(u: CharTable, text: string, cuts: seq<Cut>, k: int)
    requires 0 <= k < |cuts| - 1 && CutsRun(text, cuts)
    ensures Says(u, text, cuts, k) <==> Strip(u, Slice(text, cuts[k].offset, cuts[k + 1].offset)) != ""
  {
    hide Strip;
    var lo, hi := cuts[k].offset, cuts[k + 1].offset;
    var slice := text[lo..hi];
    StripTakesTheEnds(u, slice);
    var a, b :| 0 <= a <= b <= |slice| && Core(u, slice, a, b) && Strip(u, slice) == slice[a..b];
    if a < b {
      assert !u.space(text[lo + a]);
    } else {
      forall i | lo <= i < hi ensures u.space(text[i]) {
        assert slice[i - lo] == text[i];
      }
    }
  }

  /** What the pieces of the first k stretches are: none exactly without text; else the last has the voice of
      the last text; two or more exactly with text of two voices. */
  ghost predicate Counted(u: CharTable, text: string, spans: seq<Span>, cuts: seq<Cut>, k: int, pieces: seq<Segment>) {
    && (pieces == [] <==> forall i :: 0 <= i < k ==> !Says(u, text, cuts, i))
    && (pieces != [] ==> exists i :: 0 <= i < k && Says(u, text, cuts, i) && VoiceOf(spans, cuts, i) == pieces[|pieces| - 1].speaker)
    && (|pieces| == 1 ==> forall i :: 0 <= i < k && Says(u, text, cuts, i) ==> VoiceOf(spans, cuts, i) == pieces[0].speaker)
    && (|pieces| >= 2 ==> exists i, j :: j < k && Contrast(u, text, spans, cuts, i, j))
  }

  lemma NothingCounted(u: CharTable, text: string, spans: seq<Span>, cuts: seq<Cut>)
    ensures Counted(u, text, spans, cuts, 0, [])
  {
  }

  lemma {:induction false} PiecesCounted(u: CharTable, text: string, spans: seq<Span>, cuts: seq<Cut>, k: int)
    requires spans != [] && 0 <= k < |cuts| && CutsRun(text, cuts)
    ensures Counted(u, text, spans, cuts, k, SegmentSplit.Pieces(u, text, spans, cuts, k))
  {
    hide AddPiece, Counted, CutsRun;
    NothingCounted(u, text, spans, cuts);
    if k > 0 {
      PiecesCounted(u, text, spans, cuts, k - 1);
      CountOneMore(u, text, spans, cuts, k, SegmentSplit.Pieces(u, text, spans, cuts, k - 1));
    }
  }

  lemma CountOneMore(u: CharTable, text: string, spans: seq<Span>, cuts: seq<Cut>, k: int, before: seq<Segment>)
    requires spans != [] && 0 < k < |cuts| && CutsRun(text, cuts)
    requires Counted(u, text, spans, cuts, k - 1, before)
    ensures Counted(u, text, spans, cuts, k,
      AddPiece(u, spans, before, cuts[k - 1].time, cuts[k].time, Slice(text, cuts[k - 1].offset, cuts[k].offset)))
  {
    hide Strip, Slice, Says, Dominant;
    SaysIff(u, text, cuts, k - 1);
    if Says(u, text, cuts, k - 1) && before != [] {
      var i :| 0 <= i < k - 1 && Says(u, text, cuts, i) && VoiceOf(spans, cuts, i) == before[|before| - 1].speaker;
      assert VoiceOf(spans, cuts, k - 1) != before[|before| - 1].speaker ==> Contrast(u, text, spans, cuts, i, k - 1);
    }
  }

  lemma TwoPiecesIff(u: CharTable, text: string, spans: seq<Span>, cuts: seq<Cut>)
    requires spans != [] && cuts != [] && CutsRun(text, cuts)
    ensures |SegmentSplit.Pieces(u, text, spans, cuts, |cuts| - 1)| >= 2 <==> exists i, j :: Contrast(u, text, spans, cuts, i, j)
  {
    hide Says, VoiceOf;
    PiecesCounted(u, text, spans, cuts, |cuts| - 1);
    if i, j :| Contrast(u, text, spans, cuts, i, j) {
      InRange(u, text, cuts, i);
      InRange(u, text, cuts, j);
    }
  }

  lemma InRange(u: CharTable, text: string, cuts: seq<Cut>, k: int)
    requires Says(u, text, cuts, k)
    ensures 0 <= k < |cuts| - 1
  {
  }

  // ---- the promise

  /** A segment some turn touches becomes two or more pieces exactly when it is worth splitting and the cuts at
      its speaker changes leave text of two different voices. */
  lemma SplitExactlyWhen(u: CharTable, splitting: Splitting, segment: Segment, turns: seq<Turn>, previous: Option<string>)
    requires u.space(' ') && turns != [] && segment.start <= segment.end
    ensures var spans := SpansOf(segment, turns, SharesOf(segment, turns));
      |Labelled(u, splitting, segment, turns, previous)| >= 2 <==>
        && segment.start < segment.end && TimeOfAll(segment, turns) > 0.0
        && WorthSplitting(u, splitting, segment, turns)
        && spans != [] && exists i, j :: Contrast(u, segment.text, spans, Cuts(u, segment, spans, splitting.window), i, j)
  {
    hide SharesOf, TimeOf, TimeOfAll, WorthSplitting, Splittable, SpansOf, Majority, Contrast, Cuts, SegmentSplit.Pieces;
    SharesMeanTime(segment, turns);
    if SharesOf(segment, turns).keys != [] {
      SomeShareMeansLength(segment, turns);
      SplittableIff(u, splitting, segment, turns);
      SpansTile(segment, turns, SharesOf(segment, turns));
      SplitPiecesIff(u, segment, turns, SharesOf(segment, turns), splitting.window);
    }
  }

  /** Somebody has a share exactly when some turn covers part of the segment. */
  lemma SharesMeanTime(segment: Segment, turns: seq<Turn>)
    ensures SharesOf(segment, turns).keys != [] <==> TimeOfAll(segment, turns) > 0.0
  {
    hide Overlaps, TallyOf;
    SharesAreOverlaps(segment, turns);
    if SharesOf(segment, turns).keys != [] {
      var name := SharesOf(segment, turns).keys[0];
      assert name in SharesOf(segment, turns).keys;
      var i :| Speaks(segment, turns, name, i);
      InsideIsCommonTime(segment, turns[i]);
      SumAtLeast(Everyones(segment), turns, i);
    } else {
      forall i | 0 <= i < |turns| ensures Everyones(segment)(turns[i]) == 0.0 {
        InsideIsCommonTime(segment, turns[i]);
        assert turns[i].speaker !in SharesOf(segment, turns).keys;
        assert !Speaks(segment, turns, turns[i].speaker, i);
      }
      NothingAddsUp(Everyones(segment), turns);
    }
  }

  lemma {:induction false} NothingAddsUp<T>(f: T -> real, xs: seq<T>)
    requires forall i :: 0 <= i < |xs| ==> f(xs[i]) == 0.0
    ensures Sum(f, xs) == 0.0
  {
    if xs != [] {
      NothingAddsUp(f, xs[..|xs| - 1]);
    }
  }

  lemma SplitPiecesIff(u: CharTable, segment: Segment, turns: seq<Turn>, shares: Tally<string>, window: int)
    requires segment.start < segment.end && SpansOf(segment, turns, shares) != []
    requires Tiles(segment.start, segment.end, SpansOf(segment, turns, shares))
    ensures var spans := SpansOf(segment, turns, shares);
      |SplitPieces(u, segment, turns, shares, window)| >= 2
      <==> exists i, j :: Contrast(u, segment.text, spans, Cuts(u, segment, spans, window), i, j)
  {
    hide SpansOf, SegmentSplit.Pieces, Tiles, Cuts, Contrast, CutsThrough, TimesGrow;
    var spans := SpansOf(segment, turns, shares);
    var cuts := Cuts(u, segment, spans, window);
    CutsRunThrough(u, segment, spans, window);
    ThroughMeansRun(u, segment.text, cuts);
    TwoPiecesIff(u, segment.text, spans, cuts);
    if |spans| == 1 {
      OneSpanHasNoContrast(u, segment, spans, window);
    }
  }

  lemma ThroughMeansRun(u: CharTable, text: string, cuts: seq<Cut>)
    requires CutsThrough(u, text, cuts)
    ensures cuts != [] && CutsRun(text, cuts)
  {
  }

  lemma OneSpanHasNoContrast(u: CharTable, segment: Segment, spans: seq<Span>, window: int)
    requires segment.start < segment.end && |spans| == 1
    ensures forall i, j :: !Contrast(u, segment.text, spans, Cuts(u, segment, spans, window), i, j)
  {
    hide VoiceOf;
    assert |Cuts(u, segment, spans, window)| == 2;
  }

  // ---- every group of the result

  function FromMiddle(segment: Segment, turn: Turn): real {
    Abs((turn.start + turn.end) - (segment.start + segment.end))
  }

  /** Who gets a whole segment: somebody nobody is heard longer than; where no turn runs, whoever spoke last, and
      at the beginning the first turn nearest by its middle. */
  ghost predicate WholeSpeaker(segment: Segment, turns: seq<Turn>, previous: Option<string>, speaker: Option<string>) {
    && speaker.Some?
    && if TimeOfAll(segment, turns) > 0.0 then HoldsMost(segment, turns, speaker.value)
       else if previous.Some? then speaker == previous
       else exists i :: NearestIs(segment, turns, i) && turns[i].speaker == speaker.value
  }

  ghost predicate NearestIs(segment: Segment, turns: seq<Turn>, i: int) {
    && 0 <= i < |turns|
    && (forall j :: 0 <= j < |turns| ==> FromMiddle(segment, turns[i]) <= FromMiddle(segment, turns[j]))
    && (forall j :: 0 <= j < i ==> FromMiddle(segment, turns[i]) < FromMiddle(segment, turns[j]))
  }

  lemma TwiceApart(segment: Segment, turn: Turn)
    ensures FromMiddle(segment, turn) == 2.0 * Apart(segment)(turn)
  {
  }

  lemma NearestTurnIs(segment: Segment, turns: seq<Turn>)
    requires turns != []
    ensures exists i :: NearestIs(segment, turns, i) && turns[i].speaker == NearestTurn(segment, turns).speaker
  {
    hide Apart, FromMiddle, FirstMin;
    var i := FirstMinIsFirst(turns, Apart(segment));
    forall j | 0 <= j < |turns| ensures FromMiddle(segment, turns[j]) == 2.0 * Apart(segment)(turns[j]) {
      TwiceApart(segment, turns[j]);
    }
    assert NearestIs(segment, turns, i);
  }

  lemma WholeSpeakerIs(u: CharTable, splitting: Splitting, segment: Segment, turns: seq<Turn>, previous: Option<string>)
    requires turns != [] && |Labelled(u, splitting, segment, turns, previous)| == 1
    ensures var out := Labelled(u, splitting, segment, turns, previous);
      out[0] == segment.(speaker := out[0].speaker) && WholeSpeaker(segment, turns, previous, out[0].speaker)
  {
    hide SharesOf, Splittable, Majority, SplitPieces, NearestTurn, TimeOfAll, HoldsMost, NearestIs;
    SharesMeanTime(segment, turns);
    if SharesOf(segment, turns).keys != [] {
      MajorityHoldsMost(segment, turns);
    } else {
      NearestTurnIs(segment, turns);
    }
  }

  /** What a segment's group is, given who spoke last. */
  ghost predicate RightlyLabelled(u: CharTable, splitting: Splitting, segment: Segment, turns: seq<Turn>, previous: Option<string>,
                                  group: seq<Segment>)
  {
    var spans := SpansOf(segment, turns, SharesOf(segment, turns));
    && group != []
    && (|group| >= 2 <==>
         && segment.start < segment.end && TimeOfAll(segment, turns) > 0.0
         && WorthSplitting(u, splitting, segment, turns)
         && spans != [] && exists i, j :: Contrast(u, segment.text, spans, Cuts(u, segment, spans, splitting.window), i, j))
    && (|group| == 1 ==> group[0] == segment.(speaker := group[0].speaker) && WholeSpeaker(segment, turns, previous, group[0].speaker))
  }

  ghost function LastOf(group: seq<Segment>): Option<string> {
    if group == [] then None else group[|group| - 1].speaker
  }

  lemma {:induction false} GroupsBefore(u: CharTable, splitting: Splitting, segments: seq<Segment>, turns: seq<Turn>, k: int, g: int)
    requires turns != [] && 0 <= g < k <= |segments|
    ensures var groups := LabelledGroups(u, splitting, segments, turns, k);
      && groups[..g] == LabelledGroups(u, splitting, segments, turns, g)
      && groups[g] == Labelled(u, splitting, segments[g], turns, if g == 0 then None else LastOf(groups[g - 1]))
  {
    hide Labelled;
    var groups, before := LabelledGroups(u, splitting, segments, turns, k), LabelledGroups(u, splitting, segments, turns, k - 1);
    assert groups[..k - 1] == before;
    if g < k - 1 {
      GroupsBefore(u, splitting, segments, turns, k - 1, g);
      assert groups[..g] == before[..g] && groups[g] == before[g];
      assert g > 0 ==> groups[g - 1] == before[g - 1];
    }
  }

  /** Every segment of the transcript is labelled, or split, as it should be. */
  lemma GroupsAreRight(u: CharTable, splitting: Splitting, segments: seq<Segment>, turns: seq<Turn>, g: int)
    requires u.space(' ') && turns != [] && 0 <= g < |segments| && segments[g].start <= segments[g].end
    ensures var groups := LabelledGroups(u, splitting, segments, turns, |segments|);
      RightlyLabelled(u, splitting, segments[g], turns, if g == 0 then None else LastOf(groups[g - 1]), groups[g])
  {
    hide Labelled, LabelledGroups, SpansOf, SharesOf, TimeOfAll, WorthSplitting, Contrast, WholeSpeaker, Cuts;
    var groups := LabelledGroups(u, splitting, segments, turns, |segments|);
    var previous := if g == 0 then None else LastOf(groups[g - 1]);
    GroupsBefore(u, splitting, segments, turns, |segments|, g);
    SplitExactlyWhen(u, splitting, segments[g], turns, previous);
    if |groups[g]| == 1 {
      WholeSpeakerIs(u, splitting, segments[g], turns, previous);
    }
  }
}
