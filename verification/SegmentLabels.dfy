/** src/vemsa/pipeline/diarize.py, assign_speakers_to_segments: who speaks in segments that carry
    no words. */
module SegmentLabels {
  import opened Base
  import opened Models
  import opened Tallies
  import opened Text
  import opened Spans
  import opened SegmentSplit

  datatype Splitting = Splitting(threshold: real, minDuration: real, minWords: int, window: int)

  function Majority(shares: Tally<string>): string
    requires shares.keys != []
  {
    FirstMax(shares.keys, Get(shares))
  }

  /** Minority speakers hold more than the threshold of the overlapped time, and the segment is
      long enough, in seconds and in words, to be worth splitting. */
  predicate Splittable(u: CharTable, splitting: Splitting, segment: Segment, shares: Tally<string>)
    requires shares.keys != []
  {
    && Get(shares)(Majority(shares)) < (1.0 - splitting.threshold) * SumOfKeys(shares)
    && segment.end - segment.start >= splitting.minDuration
    && |Split(u, segment.text)| >= splitting.minWords
  }

  /** How far apart the midpoints are. */
  function Apart(segment: Segment): Turn -> real {
    (turn: Turn) => Abs((turn.start + turn.end) / 2.0 - (segment.start + segment.end) / 2.0)
  }

  function NearestTurn(segment: Segment, turns: seq<Turn>): Turn
    requires turns != []
  {
    FirstMin(turns, Apart(segment))
  }

  function Pieces(u: CharTable, splitting: Splitting, segment: Segment, turns: seq<Turn>): seq<Segment>
    requires SharesOf(segment, turns).keys != []
  {
    var shares := SharesOf(segment, turns);
    if Splittable(u, splitting, segment, shares) then SplitPieces(u, segment, turns, shares, splitting.window) else []
  }

  /** What one segment becomes, given the speaker the previous one ended with. */
  function Labelled(u: CharTable, splitting: Splitting, segment: Segment, turns: seq<Turn>, previous: Option<string>): (out: seq<Segment>)
    requires turns != []
    ensures out != []
  {
    var shares := SharesOf(segment, turns);
    if shares.keys == [] then
      [segment.(speaker := if previous.Some? then previous else Some(NearestTurn(segment, turns).speaker))]
    else if |Pieces(u, splitting, segment, turns)| > 1 then Pieces(u, splitting, segment, turns)
    else [segment.(speaker := Some(Majority(shares)))]
  }

  function LastSpeaker(groups: seq<seq<Segment>>): Option<string>
    requires forall g :: 0 <= g < |groups| ==> groups[g] != []
  {
    if groups == [] then None
    else var group := groups[|groups| - 1]; group[|group| - 1].speaker
  }

  /** One group of output segments for each of the first `k` input segments. */
  function LabelledGroups(u: CharTable, splitting: Splitting, segments: seq<Segment>, turns: seq<Turn>, k: int): (groups: seq<seq<Segment>>)
    requires turns != [] && 0 <= k <= |segments|
    ensures |groups| == k && forall g :: 0 <= g < k ==> groups[g] != []
  {
    if k == 0 then []
    else
      var groups := LabelledGroups(u, splitting, segments, turns, k - 1);
      groups + [Labelled(u, splitting, segments[k - 1], turns, LastSpeaker(groups))]
  }

  method AssignSpeakersToSegments(u: CharTable, splitting: Splitting, segments: seq<Segment>, turns: seq<Turn>)
    returns (labelled: seq<Segment>)
    requires forall i :: 0 <= i < |segments| ==> ValidSpan(segments[i].start, segments[i].end)
    ensures segments == [] || turns == [] ==> labelled == segments
    ensures segments != [] && turns != [] ==>
      |StableSort(TurnStart, turns)| == |turns|
      && labelled == Flatten(LabelledGroups(u, splitting, segments, StableSort(TurnStart, turns), |segments|))
  {
    hide SharesOf, SplitPieces, Splittable, FirstMax, SumOfKeys, Split, NearestTurn, Labelled;
    if segments == [] || turns == [] {
      return segments;
    }
    StableSortSorts(TurnStart, turns);
    var ordered := StableSort(TurnStart, turns);
    labelled := [];
    var previous: Option<string> := None;
    for i := 0 to |segments|
      invariant labelled == Flatten(LabelledGroups(u, splitting, segments, ordered, i))
      invariant previous == LastSpeaker(LabelledGroups(u, splitting, segments, ordered, i))
    {
      var group := LabelSegment(u, splitting, segments[i], ordered, previous);
      FlattenSnoc(LabelledGroups(u, splitting, segments, ordered, i), group);
      labelled := labelled + group;
      previous := group[|group| - 1].speaker;
    }
  }

  method LabelSegment(u: CharTable, splitting: Splitting, segment: Segment, turns: seq<Turn>, previous: Option<string>)
    returns (out: seq<Segment>)
    requires turns != [] && ValidSpan(segment.start, segment.end)
    ensures out == Labelled(u, splitting, segment, turns, previous)
  {
    hide SplitPieces, Splittable, FirstMax, SumOfKeys, Split, NearestTurn;
    var shares := SpeakerShares(segment, turns);
    if shares.keys == [] {
      out := [segment.(speaker := if previous.Some? then previous else Some(NearestTurn(segment, turns).speaker))];
      return;
    }
    SomeShareMeansLength(segment, turns);
    var pieces := [];
    if Splittable(u, splitting, segment, shares) {
      pieces := SplitSegment(u, segment, turns, shares, splitting.window);
    }
    out := if |pieces| > 1 then pieces else [segment.(speaker := Some(Majority(shares)))];
  }

  lemma SomeShareMeansLength(segment: Segment, turns: seq<Turn>)
    requires SharesOf(segment, turns).keys != []
    ensures segment.start < segment.end
  {
    hide SharesOf;
    SharesAreOverlaps(segment, turns);
    var name := SharesOf(segment, turns).keys[0];
    assert name in SharesOf(segment, turns).keys;
    var i :| Speaks(segment, turns, name, i);
  }

  // ---- what the labelling keeps

  /** A segment's group says what the segment said, inside its time, in order, by the turns' speakers;
      it is the segment itself under one speaker, or two and more pieces that alternate. */
  ghost predicate Faithful(u: CharTable, turns: seq<Turn>, segment: Segment, group: seq<Segment>) {
    && group != []
    && TokensOf(u, group) == Split(u, segment.text)
    && (|group| == 1 ==> group[0] == segment.(speaker := group[0].speaker))
    && (forall i :: 0 <= i < |group| ==> segment.start <= group[i].start <= group[i].end <= segment.end)
    && (forall i :: 0 < i < |group| ==> group[i - 1].end <= group[i].start && group[i - 1].speaker != group[i].speaker)
    && (forall i :: 0 <= i < |group| ==> TurnSpeaker(turns, group[i].speaker))
  }

  ghost predicate TurnSpeaker(turns: seq<Turn>, speaker: Option<string>) {
    speaker.Some? && exists t :: 0 <= t < |turns| && turns[t].speaker == speaker.value
  }

  lemma WholeIsFaithful(u: CharTable, turns: seq<Turn>, segment: Segment, speaker: Option<string>)
    requires segment.start <= segment.end && TurnSpeaker(turns, speaker)
    ensures Faithful(u, turns, segment, [segment.(speaker := speaker)])
  {
    TokensSingle(u, segment.(speaker := speaker));
  }

  lemma SplitIsFaithful(u: CharTable, turns: seq<Turn>, segment: Segment, window: int)
    requires u.space(' ') && segment.start < segment.end && SharesOf(segment, turns).keys != []
    requires |SplitPieces(u, segment, turns, SharesOf(segment, turns), window)| > 1
    ensures Faithful(u, turns, segment, SplitPieces(u, segment, turns, SharesOf(segment, turns), window))
  {
    hide SharesOf, SplitPieces, TokensOf, Split, SpansOf, Tiles;
    var shares := SharesOf(segment, turns);
    var pieces, spans := SplitPieces(u, segment, turns, shares, window), SpansOf(segment, turns, shares);
    SplitKeepsTokens(u, segment, turns, shares, window);
    SpansTile(segment, turns, shares);
    assert InOrder(spans, segment.start, segment.end, pieces);
    forall i | 0 <= i < |pieces| ensures TurnSpeaker(turns, pieces[i].speaker) {
      assert SpanSpeaker(spans, pieces[i].speaker);
      var s :| 0 <= s < |spans| && spans[s].speaker == pieces[i].speaker;
    }
  }

  /** The majority speaker has a turn in the segment, and nobody's turns cover more of it. */
  lemma MajorityCoversMost(segment: Segment, turns: seq<Turn>)
    requires SharesOf(segment, turns).keys != []
    ensures TurnSpeaker(turns, Some(Majority(SharesOf(segment, turns))))
    ensures forall name :: name in SharesOf(segment, turns).keys ==>
      TotalOf(Overlaps(segment, turns), name) <= TotalOf(Overlaps(segment, turns), Majority(SharesOf(segment, turns)))
  {
    hide SharesOf, TotalOf, Overlaps;
    SharesAreOverlaps(segment, turns);
    var shares := SharesOf(segment, turns);
    var best := Majority(shares);
    var i :| Speaks(segment, turns, best, i);
    forall name | name in shares.keys
      ensures TotalOf(Overlaps(segment, turns), name) <= TotalOf(Overlaps(segment, turns), best)
    {
      assert Get(shares)(name) <= Get(shares)(best);
    }
  }

  lemma LabelledIsFaithful(u: CharTable, splitting: Splitting, segment: Segment, turns: seq<Turn>, previous: Option<string>)
    requires u.space(' ') && turns != [] && segment.start <= segment.end
    requires previous.Some? ==> TurnSpeaker(turns, previous)
    ensures Faithful(u, turns, segment, Labelled(u, splitting, segment, turns, previous))
  {
    hide SharesOf, SplitPieces, Splittable, FirstMax, Faithful, Majority;
    var shares := SharesOf(segment, turns);
    if shares.keys == [] {
      assert NearestTurn(segment, turns) in turns;
      WholeIsFaithful(u, turns, segment,
        if previous.Some? then previous else Some(NearestTurn(segment, turns).speaker));
    } else if |Pieces(u, splitting, segment, turns)| > 1 {
      SomeShareMeansLength(segment, turns);
      SplitIsFaithful(u, turns, segment, splitting.window);
    } else {
      MajorityCoversMost(segment, turns);
      WholeIsFaithful(u, turns, segment, Some(Majority(shares)));
    }
  }

  /** Every input segment's group is faithful to it, whatever was labelled before. */
  lemma {:induction false} GroupsAreFaithful(u: CharTable, splitting: Splitting, segments: seq<Segment>, turns: seq<Turn>, k: int)
    requires u.space(' ') && turns != [] && 0 <= k <= |segments|
    requires forall i :: 0 <= i < |segments| ==> segments[i].start <= segments[i].end
    ensures forall g :: 0 <= g < k ==>
      Faithful(u, turns, segments[g], LabelledGroups(u, splitting, segments, turns, k)[g])
  {
    hide Labelled, Faithful;
    if k > 0 {
      GroupsAreFaithful(u, splitting, segments, turns, k - 1);
      var groups := LabelledGroups(u, splitting, segments, turns, k - 1);
      EndsOnATurnSpeaker(u, turns, segments, groups);
      LabelledIsFaithful(u, splitting, segments[k - 1], turns, LastSpeaker(groups));
    }
  }

  lemma EndsOnATurnSpeaker(u: CharTable, turns: seq<Turn>, segments: seq<Segment>, groups: seq<seq<Segment>>)
    requires |groups| <= |segments|
    requires forall g :: 0 <= g < |groups| ==> groups[g] != []
    requires forall g :: 0 <= g < |groups| ==> Faithful(u, turns, segments[g], groups[g])
    ensures LastSpeaker(groups).Some? ==> TurnSpeaker(turns, LastSpeaker(groups))
  {
    if groups != [] {
      assert Faithful(u, turns, segments[|groups| - 1], groups[|groups| - 1]);
    }
  }

  /** Over the whole transcript no token is lost, broken, added or moved. */
  lemma {:induction false} LabellingKeepsTokens(u: CharTable, splitting: Splitting, segments: seq<Segment>, turns: seq<Turn>, k: int)
    requires u.space(' ') && turns != [] && 0 <= k <= |segments|
    requires forall i :: 0 <= i < |segments| ==> segments[i].start <= segments[i].end
    ensures TokensOf(u, Flatten(LabelledGroups(u, splitting, segments, turns, k))) == TokensOf(u, segments[..k])
  {
    hide TokensOf, Flatten, Labelled, Split;
    if k == 0 {
      NoTokensInNothing(u);
      assert segments[..0] == [];
    } else {
      LabellingKeepsTokens(u, splitting, segments, turns, k - 1);
      GroupsAreFaithful(u, splitting, segments, turns, k);
      var before := LabelledGroups(u, splitting, segments, turns, k - 1);
      var groups := LabelledGroups(u, splitting, segments, turns, k);
      var group := groups[k - 1];
      assert groups == before + [group];
      FlattenSnoc(before, group);
      TokensAppend(u, Flatten(before), group);
      assert Faithful(u, turns, segments[k - 1], group);
      assert segments[..k] == segments[..k - 1] + [segments[k - 1]];
      TokensAppend(u, segments[..k - 1], [segments[k - 1]]);
      TokensSingle(u, segments[k - 1]);
    }
  }

  lemma NoTokensInNothing(u: CharTable)
    ensures TokensOf(u, Flatten([])) == TokensOf(u, [])
  {
  }
}
