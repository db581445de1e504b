/** src/vemsa/pipeline/diarize.py: a segment without words is split at its turns. */
module SegmentSplit {
  import opened Base
  import opened Models
  import opened Tallies
  import opened Text
  import opened Spans

  // ---- _snap_offset

  /** A cut just after sentence punctuation and just before whitespace. */
  predicate SentenceCut(u: CharTable, text: string, p: int) {
    0 < p < |text| && text[p - 1] in ".?!" && u.space(text[p])
  }

  predicate BlankAt(u: CharTable, text: string, p: int) {
    0 <= p < |text| && u.space(text[p])
  }

  function SentenceCuts(u: CharTable, text: string): int -> bool {
    (p: int) => SentenceCut(u, text, p)
  }

  function Blanks(u: CharTable, text: string): int -> bool {
    (p: int) => BlankAt(u, text, p)
  }

  function Indices(n: nat): (indices: seq<int>)
    ensures |indices| == n && forall i :: 0 <= i < n ==> indices[i] == i
  {
    seq(n, i => i)
  }

  function Away(offset: int): int -> real {
    (p: int) => Abs((p - offset) as real)
  }

  function SnapOffset(u: CharTable, text: string, offset: int, window: int): Option<int> {
    var punctuation := Filter(SentenceCuts(u, text), Indices(|text|));
    if punctuation != [] && Away(offset)(FirstMin(punctuation, Away(offset))) <= window as real then
      Some(FirstMin(punctuation, Away(offset)))
    else
      var spaces := Filter(Blanks(u, text), Indices(|text|));
      if spaces == [] then None else Some(FirstMin(spaces, Away(offset)))
  }

  ghost predicate NearestOf(good: int -> bool, offset: int, p: int) {
    good(p) && forall q :: good(q) ==> Away(offset)(p) <= Away(offset)(q)
  }

  lemma IndexFilter(good: int -> bool, n: nat)
    requires forall p :: good(p) ==> 0 <= p < n
    ensures forall p :: p in Filter(good, Indices(n)) <==> good(p)
  {
    FilterMembers(good, Indices(n));
    forall p | good(p) ensures p in Indices(n) {
      assert Indices(n)[p] == p;
    }
  }

  /** The cut is the nearest sentence end when one is within the window, else the nearest blank;
      there is none exactly when the text has no blank at all. */
  lemma SnapIsNearest(u: CharTable, text: string, offset: int, window: int)
    ensures var snapped := SnapOffset(u, text, offset, window);
      && (snapped.None? <==> forall p :: !BlankAt(u, text, p))
      && (snapped.Some? ==>
        if exists q :: SentenceCut(u, text, q) && Away(offset)(q) <= window as real
        then NearestOf(SentenceCuts(u, text), offset, snapped.value)
        else NearestOf(Blanks(u, text), offset, snapped.value))
  {
    var cut, blank := SentenceCuts(u, text), Blanks(u, text);
    IndexFilter(cut, |text|);
    IndexFilter(blank, |text|);
    var punctuation := Filter(cut, Indices(|text|));
    var spaces := Filter(blank, Indices(|text|));
    assert forall q :: SentenceCut(u, text, q) <==> q in punctuation;
    assert forall q :: BlankAt(u, text, q) <==> q in spaces;
    assert forall q :: SentenceCut(u, text, q) ==> BlankAt(u, text, q);
    if punctuation != [] {
      assert FirstMin(punctuation, Away(offset)) in spaces;
    }
    if spaces != [] {
      assert BlankAt(u, text, spaces[0]);
    }
  }

  // ---- _dominant_speaker

  function SpanOverlaps(spans: seq<Span>, start: real, end: real): seq<Entry<Option<string>>> {
    Map((span: Span) => Entry(span.speaker, Max(0.0, Min(end, span.end) - Max(start, span.start))), spans)
  }

  function Dominant(spans: seq<Span>, start: real, end: real): Option<string>
    requires spans != []
  {
    var totals := TallyOf(SpanOverlaps(spans, start, end));
    TallyHasKey(SpanOverlaps(spans, start, end));
    FirstMax(totals.keys, Get(totals))
  }

  lemma TallyHasKey<K>(entries: seq<Entry<K>>)
    requires entries != []
    ensures TallyOf(entries).keys != []
  {
    var n := |entries| - 1;
    if n > 0 {
      TallyHasKey(entries[..n]);
    } else {
      assert entries[..n] == [];
    }
  }

  method DominantSpeaker(spans: seq<Span>, start: real, end: real) returns (speaker: Option<string>)
    requires spans != []
    ensures speaker == Dominant(spans, start, end)
  {
    var entries := SpanOverlaps(spans, start, end);
    var totals := Tally([], map[]);
    for i := 0 to |spans|
      invariant totals == TallyOf(entries[..i])
    {
      var overlap := Max(0.0, Min(end, spans[i].end) - Max(start, spans[i].start));
      TallySnoc(entries[..i], entries[i]);
      assert entries[..i + 1] == entries[..i] + [entries[i]];
      totals := Add(totals, spans[i].speaker, overlap);
    }
    assert entries[..|spans|] == entries;
    TallyHasKey(entries);
    speaker := FirstMax(totals.keys, Get(totals));
  }

  /** The dominant speaker is one of the spans', and nobody covers more of [start, end). */
  lemma DominantCoversMost(spans: seq<Span>, start: real, end: real)
    requires spans != []
    ensures SpanSpeaker(spans, Dominant(spans, start, end))
    ensures forall i :: 0 <= i < |spans| ==>
      TotalOf(SpanOverlaps(spans, start, end), spans[i].speaker)
        <= TotalOf(SpanOverlaps(spans, start, end), Dominant(spans, start, end))
  {
    hide TotalOf, TallyOf;
    var entries := SpanOverlaps(spans, start, end);
    TallyIsTotals(entries);
    TallyHasKey(entries);
    var totals := TallyOf(entries);
    var best := FirstMax(totals.keys, Get(totals));
    assert best in totals.sums;
    var k :| 0 <= k < |entries| && entries[k].key == best;
    assert spans[k].speaker == best;
    forall i | 0 <= i < |spans| ensures TotalOf(entries, spans[i].speaker) <= TotalOf(entries, best) {
      assert entries[i].key == spans[i].speaker && Entered(entries, spans[i].speaker);
      assert Get(totals)(spans[i].speaker) <= Get(totals)(best);
    }
  }

  // ---- _split_segment: where the text is cut

  /** Python's round(): ties go to the even neighbour. */
  function Round(x: real): int {
    var below := x.Floor;
    var rest := x - below as real;
    if rest < 0.5 || (rest == 0.5 && below % 2 == 0) then below else below + 1
  }

  datatype Cut = Cut(time: real, offset: int)

  function Share(segment: Segment, time: real): real
    requires segment.start < segment.end
  {
    |segment.text| as real * (time - segment.start) / (segment.end - segment.start)
  }

  /** The place in the text at the same proportion as `time` in the segment. */
  function Proportional(segment: Segment, time: real): int
    requires segment.start < segment.end
  {
    Round(Share(segment, time))
  }

  function CutFor(u: CharTable, segment: Segment, time: real, window: int): Option<int>
    requires segment.start < segment.end
  {
    SnapOffset(u, segment.text, Proportional(segment, time), window)
  }

  function AddCut(segment: Segment, cuts: seq<Cut>, time: real, at: Option<int>): seq<Cut>
    requires cuts != []
  {
    if at.Some? && cuts[|cuts| - 1].offset < at.value < |segment.text| then cuts + [Cut(time, at.value)] else cuts
  }

  /** The cuts at the starts of the first `k` spans. */
  function InnerCuts(u: CharTable, segment: Segment, spans: seq<Span>, window: int, k: int): (cuts: seq<Cut>)
    requires segment.start < segment.end && 1 <= k <= |spans|
    ensures cuts != []
  {
    if k == 1 then [Cut(segment.start, 0)]
    else
      AddCut(segment, InnerCuts(u, segment, spans, window, k - 1), spans[k - 1].start,
        CutFor(u, segment, spans[k - 1].start, window))
  }

  function Cuts(u: CharTable, segment: Segment, spans: seq<Span>, window: int): seq<Cut>
    requires segment.start < segment.end && spans != []
  {
    InnerCuts(u, segment, spans, window, |spans|) + [Cut(segment.end, |segment.text|)]
  }

  method CutText(u: CharTable, segment: Segment, spans: seq<Span>, window: int) returns (cuts: seq<Cut>)
    requires segment.start < segment.end && spans != []
    ensures cuts == Cuts(u, segment, spans, window)
  {
    hide CutFor;
    cuts := [Cut(segment.start, 0)];
    for k := 1 to |spans|
      invariant cuts == InnerCuts(u, segment, spans, window, k)
    {
      var snapped := CutFor(u, segment, spans[k].start, window);
      if snapped.Some? && cuts[|cuts| - 1].offset < snapped.value < |segment.text| {
        cuts := cuts + [Cut(spans[k].start, snapped.value)];
      }
    }
    cuts := cuts + [Cut(segment.end, |segment.text|)];
  }

  lemma SnapFallsOnBlank(u: CharTable, text: string, offset: int, window: int)
    ensures var at := SnapOffset(u, text, offset, window); at.Some? ==> BlankAt(u, text, at.value)
  {
    hide SnapOffset;
    SnapIsNearest(u, text, offset, window);
    assert forall p :: SentenceCuts(u, text)(p) ==> BlankAt(u, text, p);
    assert forall p :: Blanks(u, text)(p) ==> BlankAt(u, text, p);
  }

  lemma CutFallsOnBlank(u: CharTable, segment: Segment, time: real, window: int)
    requires segment.start < segment.end
    ensures var at := CutFor(u, segment, time, window); at.Some? ==> BlankAt(u, segment.text, at.value)
  {
    hide SnapOffset, Proportional;
    SnapFallsOnBlank(u, segment.text, Proportional(segment, time), window);
  }

  /** Cuts move forward in time and text, stay before `time`, and each falls on a blank. */
  ghost predicate CutsOnBlanks(u: CharTable, segment: Segment, cuts: seq<Cut>, time: real) {
    && cuts != [] && cuts[0] == Cut(segment.start, 0)
    && (forall i, j :: 0 <= i < j < |cuts| ==> cuts[i].time < cuts[j].time && cuts[i].offset < cuts[j].offset)
    && (forall i :: 0 <= i < |cuts| ==> cuts[i].time <= time)
    && (forall i :: 0 < i < |cuts| ==> BlankAt(u, segment.text, cuts[i].offset))
  }

  lemma AddCutOnBlanks(u: CharTable, segment: Segment, cuts: seq<Cut>, before: real, time: real, at: Option<int>)
    requires CutsOnBlanks(u, segment, cuts, before) && before < time
    requires at.Some? ==> BlankAt(u, segment.text, at.value)
    ensures CutsOnBlanks(u, segment, AddCut(segment, cuts, time, at), time)
  {
    hide BlankAt;
  }

  lemma {:induction false} InnerCutsOnBlanks(u: CharTable, segment: Segment, spans: seq<Span>, window: int, k: int)
    requires segment.start < segment.end && 1 <= k <= |spans| && Tiles(segment.start, segment.end, spans)
    ensures CutsOnBlanks(u, segment, InnerCuts(u, segment, spans, window, k), spans[k - 1].start)
  {
    hide CutFor, AddCut, BlankAt;
    if k > 1 {
      hide CutsOnBlanks;
      InnerCutsOnBlanks(u, segment, spans, window, k - 1);
      assert spans[k - 2].start < spans[k - 2].end == spans[k - 1].start;
      var time := spans[k - 1].start;
      CutFallsOnBlank(u, segment, time, window);
      AddCutOnBlanks(u, segment, InnerCuts(u, segment, spans, window, k - 1), spans[k - 2].start, time, CutFor(u, segment, time, window));
    }
  }

  // ---- _split_segment: the pieces

  function Slice(text: string, lo: int, hi: int): string {
    if 0 <= lo <= hi <= |text| then text[lo..hi] else ""
  }

  /** A piece carried on to `end` with more text. */
  function Extended(piece: Segment, end: real, text: string): (longer: Segment)
    ensures longer.start == piece.start && longer.end == end && longer.speaker == piece.speaker
    ensures |longer.text| > |piece.text|
  {
    piece.(end := end, text := piece.text + " " + text)
  }

  function AddPiece(u: CharTable, spans: seq<Span>, pieces: seq<Segment>, start: real, end: real, slice: string): seq<Segment>
    requires spans != []
  {
    var text := Strip(u, slice);
    var speaker := Dominant(spans, start, end);
    var last := |pieces| - 1;
    if text == "" then pieces
    else if pieces != [] && pieces[last].speaker == speaker then
      pieces[last := Extended(pieces[last], end, text)]
    else pieces + [PlainSegment(start, end, speaker, text, [])]
  }

  /** The pieces of the first `k` stretches between cuts. */
  function Pieces(u: CharTable, text: string, spans: seq<Span>, cuts: seq<Cut>, k: int): seq<Segment>
    requires spans != [] && 0 <= k < |cuts|
  {
    if k == 0 then []
    else
      AddPiece(u, spans, Pieces(u, text, spans, cuts, k - 1), cuts[k - 1].time, cuts[k].time,
        Slice(text, cuts[k - 1].offset, cuts[k].offset))
  }

  function SplitPieces(u: CharTable, segment: Segment, turns: seq<Turn>, shares: Tally<string>, window: int): seq<Segment> {
    var spans := SpansOf(segment, turns, shares);
    if |spans| < 2 || segment.start >= segment.end then []
    else
      var cuts := Cuts(u, segment, spans, window);
      var pieces := Pieces(u, segment.text, spans, cuts, |cuts| - 1);
      if |pieces| > 1 then pieces else []
  }

  method SplitSegment(u: CharTable, segment: Segment, turns: seq<Turn>, shares: Tally<string>, window: int)
    returns (result: seq<Segment>)
    requires segment.start < segment.end
    ensures result == SplitPieces(u, segment, turns, shares, window)
  {
    hide SpansOf, Dominant, InnerCuts, Strip;
    var spans := SpeakerSpans(segment, turns, shares);
    if |spans| < 2 {
      return [];
    }
    var text := segment.text;
    var cuts := CutText(u, segment, spans, window);
    var pieces := SlicePieces(u, text, spans, cuts);
    result := if |pieces| > 1 then pieces else [];
  }

  method SlicePieces(u: CharTable, text: string, spans: seq<Span>, cuts: seq<Cut>) returns (pieces: seq<Segment>)
    requires spans != [] && cuts != []
    ensures pieces == Pieces(u, text, spans, cuts, |cuts| - 1)
  {
    hide Dominant, Strip, Extended, Slice;
    pieces := [];
    for k := 1 to |cuts|
      invariant pieces == Pieces(u, text, spans, cuts, k - 1)
    {
      var start, end := cuts[k - 1].time, cuts[k].time;
      var pieceText := Strip(u, Slice(text, cuts[k - 1].offset, cuts[k].offset));
      if pieceText != "" {
        var speaker := DominantSpeaker(spans, start, end);
        var last := |pieces| - 1;
        if pieces != [] && pieces[last].speaker == speaker {
          pieces := pieces[last := Extended(pieces[last], end, pieceText)];
        } else {
          pieces := pieces + [PlainSegment(start, end, speaker, pieceText, [])];
        }
      }
    }
  }

  // ---- splitting loses no token

  /** The whitespace tokens of the segments, in order. */
  function TokensOf(u: CharTable, segments: seq<Segment>): seq<string> {
    Flatten(Map((s: Segment) => Split(u, s.text), segments))
  }

  lemma TokensAppend(u: CharTable, a: seq<Segment>, b: seq<Segment>)
    ensures TokensOf(u, a + b) == TokensOf(u, a) + TokensOf(u, b)
  {
    hide Flatten, Map, Split;
    var f := (s: Segment) => Split(u, s.text);
    MapAppend(f, a, b);
    FlattenAppend(Map(f, a), Map(f, b));
  }

  lemma TokensSingle(u: CharTable, s: Segment)
    ensures TokensOf(u, [s]) == Split(u, s.text)
  {
    hide Split;
    var f := (s: Segment) => Split(u, s.text);
    assert Map(f, [s]) == [Split(u, s.text)];
    FlattenSingle(Split(u, s.text));
  }

  lemma AddPieceTokens(u: CharTable, spans: seq<Span>, pieces: seq<Segment>, start: real, end: real, slice: string)
    requires u.space(' ') && spans != []
    ensures TokensOf(u, AddPiece(u, spans, pieces, start, end, slice)) == TokensOf(u, pieces) + Split(u, slice)
  {
    hide TokensOf, Split, Strip, Dominant;
    var text, last, speaker := Strip(u, slice), |pieces| - 1, Dominant(spans, start, end);
    StripTokens(u, slice);
    if text == "" {
      NoTokens(u);
      assert TokensOf(u, pieces) + [] == TokensOf(u, pieces);
    } else if pieces != [] && pieces[last].speaker == speaker {
      var before, longer := pieces[..last], Extended(pieces[last], end, text);
      SplitJoined(u, pieces[last].text, text);
      assert pieces == before + [pieces[last]];
      assert pieces[last := longer] == before + [longer];
      TokensAppend(u, before, [pieces[last]]);
      TokensAppend(u, before, [longer]);
      TokensSingle(u, pieces[last]);
      TokensSingle(u, longer);
      Associative(TokensOf(u, before), Split(u, pieces[last].text), Split(u, text));
    } else {
      TokensAppend(u, pieces, [PlainSegment(start, end, speaker, text, [])]);
      TokensSingle(u, PlainSegment(start, end, speaker, text, []));
    }
  }

  lemma NoTokens(u: CharTable)
    ensures Split(u, "") == []
  {
  }

  /** The cuts run through the text from one end to the other, the inner ones on blanks. */
  ghost predicate CutsThrough(u: CharTable, text: string, cuts: seq<Cut>) {
    && cuts != [] && cuts[0].offset == 0 && cuts[|cuts| - 1].offset == |text|
    && (forall i, j :: 0 <= i < j < |cuts| ==> 0 <= cuts[i].offset <= cuts[j].offset <= |text|)
    && (forall i :: 0 < i < |cuts| - 1 ==> BlankAt(u, text, cuts[i].offset))
  }

  ghost predicate TimesGrow(cuts: seq<Cut>) {
    forall i, j :: 0 <= i < j < |cuts| ==> cuts[i].time < cuts[j].time
  }

  lemma {:induction false} PiecesKeepTokens(u: CharTable, segment: Segment, spans: seq<Span>, cuts: seq<Cut>, k: int)
    requires u.space(' ') && spans != [] && 0 <= k < |cuts| && CutsThrough(u, segment.text, cuts)
    ensures 0 <= cuts[k].offset <= |segment.text|
    ensures TokensOf(u, Pieces(u, segment.text, spans, cuts, k)) == Split(u, segment.text[..cuts[k].offset])
  {
    hide AddPiece, Split, TokensOf;
    var text := segment.text;
    if k == 0 {
      NoTokens(u);
      NoTokensOf(u);
      assert text[..cuts[0].offset] == "";
    } else {
      PiecesKeepTokens(u, segment, spans, cuts, k - 1);
      var lo, hi := cuts[k - 1].offset, cuts[k].offset;
      assert 0 <= lo <= hi <= |text|;
      AddPieceTokens(u, spans, Pieces(u, text, spans, cuts, k - 1), cuts[k - 1].time, cuts[k].time, Slice(text, lo, hi));
      assert text[..hi] == text[..lo] + text[lo..hi];
      if k == 1 {
        NoTokens(u);
        assert text[..lo] == "" && text[lo..hi] == text[..hi];
        assert [] + Split(u, text[..hi]) == Split(u, text[..hi]);
      } else {
        SplitAtSpace(u, text[..lo], text[lo..hi]);
      }
    }
  }

  lemma NoTokensOf(u: CharTable)
    ensures TokensOf(u, []) == []
  {
  }

  /** The pieces stand in time order without overlap inside [lo, hi], neighbours with different
      speakers, each speaker one of the spans'. */
  ghost predicate InOrder(spans: seq<Span>, lo: real, hi: real, pieces: seq<Segment>) {
    && (forall i :: 0 <= i < |pieces| ==> lo <= pieces[i].start < pieces[i].end <= hi && pieces[i].text != "")
    && (forall i :: 0 < i < |pieces| ==>
      pieces[i - 1].end <= pieces[i].start && pieces[i - 1].speaker != pieces[i].speaker)
    && (forall i :: 0 <= i < |pieces| ==> SpanSpeaker(spans, pieces[i].speaker))
  }

  ghost predicate SpanSpeaker(spans: seq<Span>, speaker: Option<string>) {
    exists s :: 0 <= s < |spans| && spans[s].speaker == speaker
  }

  lemma AddPieceInOrder(u: CharTable, spans: seq<Span>, lo: real, pieces: seq<Segment>, start: real, end: real, slice: string)
    requires spans != [] && lo <= start < end && InOrder(spans, lo, start, pieces)
    ensures InOrder(spans, lo, end, AddPiece(u, spans, pieces, start, end, slice))
  {
    hide Strip, Dominant, InOrder, SpanSpeaker;
    var text, speaker, last := Strip(u, slice), Dominant(spans, start, end), |pieces| - 1;
    DominantCoversMost(spans, start, end);
    if text == "" {
      StaysInOrder(spans, lo, start, end, pieces);
    } else if pieces != [] && pieces[last].speaker == speaker {
      ExtendsInOrder(spans, lo, pieces, start, end, Extended(pieces[last], end, text));
    } else {
      AppendsInOrder(spans, lo, pieces, start, end, PlainSegment(start, end, speaker, text, []));
    }
  }

  lemma StaysInOrder(spans: seq<Span>, lo: real, start: real, end: real, pieces: seq<Segment>)
    requires start <= end && InOrder(spans, lo, start, pieces)
    ensures InOrder(spans, lo, end, pieces)
  {
    hide SpanSpeaker;
  }

  lemma ExtendsInOrder(spans: seq<Span>, lo: real, pieces: seq<Segment>, start: real, end: real, longer: Segment)
    requires pieces != [] && start < end && InOrder(spans, lo, start, pieces)
    requires longer.start == pieces[|pieces| - 1].start && longer.speaker == pieces[|pieces| - 1].speaker
    requires longer.end == end && longer.text != ""
    ensures InOrder(spans, lo, end, pieces[|pieces| - 1 := longer])
  {
    hide SpanSpeaker;
  }

  lemma AppendsInOrder(spans: seq<Span>, lo: real, pieces: seq<Segment>, start: real, end: real, piece: Segment)
    requires lo <= start < end && InOrder(spans, lo, start, pieces)
    requires piece.start == start && piece.end == end && piece.text != "" && SpanSpeaker(spans, piece.speaker)
    requires pieces != [] ==> pieces[|pieces| - 1].speaker != piece.speaker
    ensures InOrder(spans, lo, end, pieces + [piece])
  {
    hide SpanSpeaker;
  }

  lemma {:induction false} PiecesInOrder(u: CharTable, text: string, spans: seq<Span>, cuts: seq<Cut>, k: int)
    requires spans != [] && 0 <= k < |cuts| && TimesGrow(cuts)
    ensures InOrder(spans, cuts[0].time, cuts[k].time, Pieces(u, text, spans, cuts, k))
  {
    hide AddPiece;
    if k > 0 {
      PiecesInOrder(u, text, spans, cuts, k - 1);
      AddPieceInOrder(u, spans, cuts[0].time, Pieces(u, text, spans, cuts, k - 1), cuts[k - 1].time, cuts[k].time,
        Slice(text, cuts[k - 1].offset, cuts[k].offset));
    }
  }

  /** A segment that is split keeps every token whole and in place; its pieces are ordered, disjoint,
      inside the segment, and change speaker from one to the next. */
  lemma SplitKeepsTokens(u: CharTable, segment: Segment, turns: seq<Turn>, shares: Tally<string>, window: int)
    requires u.space(' ') && segment.start < segment.end && SharesOf(segment, turns).keys != []
    ensures var pieces := SplitPieces(u, segment, turns, shares, window);
      pieces != [] ==>
        && TokensOf(u, pieces) == Split(u, segment.text)
        && InOrder(SpansOf(segment, turns, shares), segment.start, segment.end, pieces)
  {
    hide SharesOf, SpansOf, Pieces, Cuts, TokensOf, InOrder, Tiles, CutsThrough, TimesGrow, Split;
    var spans := SpansOf(segment, turns, shares);
    if |spans| >= 2 {
      SpansTile(segment, turns, shares);
      CutsRunThrough(u, segment, spans, window);
      var cuts := Cuts(u, segment, spans, window);
      PiecesKeepTokens(u, segment, spans, cuts, |cuts| - 1);
      PiecesInOrder(u, segment.text, spans, cuts, |cuts| - 1);
      assert segment.text[..|segment.text|] == segment.text;
    }
  }

  lemma CutsRunThrough(u: CharTable, segment: Segment, spans: seq<Span>, window: int)
    requires segment.start < segment.end && Tiles(segment.start, segment.end, spans)
    ensures var cuts := Cuts(u, segment, spans, window);
      && |cuts| >= 2 && cuts[0] == Cut(segment.start, 0) && cuts[|cuts| - 1] == Cut(segment.end, |segment.text|)
      && TimesGrow(cuts) && CutsThrough(u, segment.text, cuts)
  {
    hide InnerCuts, CutsThrough, CutsOnBlanks;
    InnerCutsOnBlanks(u, segment, spans, window, |spans|);
    CutsAreOrdered(u, segment, InnerCuts(u, segment, spans, window, |spans|), spans[|spans| - 1].start,
      Cuts(u, segment, spans, window));
  }

  lemma CutsAreOrdered(u: CharTable, segment: Segment, inner: seq<Cut>, time: real, cuts: seq<Cut>)
    requires CutsOnBlanks(u, segment, inner, time) && time < segment.end
    requires cuts == inner + [Cut(segment.end, |segment.text|)]
    ensures |cuts| >= 2 && cuts[0] == Cut(segment.start, 0) && cuts[|cuts| - 1] == Cut(segment.end, |segment.text|)
    ensures TimesGrow(cuts) && CutsThrough(u, segment.text, cuts)
  {
    assert forall i :: 0 <= i < |inner| ==> cuts[i] == inner[i];
  }
}
