/** src/vemsa/pipeline/diarize.py, _snap_offset, _dominant_speaker and _split_segment: where the text of a
    segment is cut and who gets which piece. A cut is looked for at the share of the text that its time has of the
    segment, goes to the closest sentence end or blank, and counts only beyond all earlier ones; between two cuts the
    text is whoever's who holds most of that time, and neighbouring texts of one voice are one piece. */
module Cutting {
  import opened Base
  import opened Models
  import opened Tallies
  import opened Text
  import opened Spans
  import opened SegmentSplit
  import opened Mixed

  // ---- the place of one cut

  /** The integer next to x; the even one when two are equally near. */
  ghost predicate NearestInteger(n: int, x: real) {
    -0.5 <= x - n as real <= 0.5 && (x - n as real == 0.5 || x - n as real == -0.5 ==> n % 2 == 0)
  }

  lemma RoundIsNearest(x: real)
    ensures NearestInteger(Round(x), x)
  {
  }

  /** A cut is looked for at the same share of the text as its time has of the segment. */
  ghost predicate SameShare(segment: Segment, time: real, target: int) {
    exists at :: at * (segment.end - segment.start) == |segment.text| as real * (time - segment.start) && NearestInteger(target, at)
  }

  lemma ShareIs(segment: Segment, time: real)
    requires segment.start < segment.end
    ensures Share(segment, time) * (segment.end - segment.start) == |segment.text| as real * (time - segment.start)
  {
    var all, part, whole := |segment.text| as real, time - segment.start, segment.end - segment.start;
    assert all * part / whole * whole == all * part;
  }

  lemma ProportionalIs(segment: Segment, time: real)
    requires segment.start < segment.end
    ensures SameShare(segment, time, Proportional(segment, time))
  {
    hide Share, Round, NearestInteger;
    ShareIs(segment, time);
    RoundIsNearest(Share(segment, time));
  }

  function Far(p: int, target: int): int {
    if p < target then target - p else p - target
  }

  /** The closest, and of two equally close the earlier. */
  ghost predicate Closest(good: int -> bool, target: int, p: int) {
    good(p) && forall q :: good(q) ==> Far(p, target) < Far(q, target) || (Far(p, target) == Far(q, target) && p <= q)
  }

  lemma AwayIsFar(p: int, target: int)
    ensures Away(target)(p) == Far(p, target) as real
  {
    assert (p - target) as real == p as real - target as real && (target - p) as real == target as real - p as real;
  }

  lemma ClosestIs(good: int -> bool, n: nat, target: int)
    requires forall p :: good(p) ==> 0 <= p < n
    requires Filter(good, Indices(n)) != []
    ensures Closest(good, target, FirstMin(Filter(good, Indices(n)), Away(target)))
  {
    hide Away, FirstMin, Far, Filter;
    var xs := Filter(good, Indices(n));
    IndexFilter(good, n);
    IndicesGrow(good, n);
    var i := FirstMinIsFirst(xs, Away(target));
    AwayIsFar(xs[i], target);
    assert xs[i] in xs;
    forall q | good(q)
      ensures Far(xs[i], target) < Far(q, target) || (Far(xs[i], target) == Far(q, target) && xs[i] <= q)
    {
      AwayIsFar(q, target);
      assert q in xs;
      var j :| 0 <= j < |xs| && xs[j] == q;
      assert i <= j || Away(target)(xs[i]) < Away(target)(xs[j]);
    }
  }

  lemma NoneOfNone(good: int -> bool)
    ensures Filter(good, Indices(0)) == []
  {
    assert Indices(0) == [];
  }

  lemma {:induction false} IndicesGrow(good: int -> bool, n: nat)
    ensures forall i, j :: 0 <= i < j < |Filter(good, Indices(n))| ==> Filter(good, Indices(n))[i] < Filter(good, Indices(n))[j]
    ensures forall p :: p in Filter(good, Indices(n)) ==> p < n
  {
    hide Filter;
    if n == 0 {
      NoneOfNone(good);
    } else {
      IndicesGrow(good, n - 1);
      assert Indices(n) == Indices(n - 1) + [n - 1];
      FilterSnoc(good, Indices(n - 1), n - 1);
      var before := Filter(good, Indices(n - 1));
      assert forall i :: 0 <= i < |before| ==> before[i] in before;
    }
  }

  function SentencePlaces(u: CharTable, text: string): int -> bool {
    (p: int) => 0 < p < |text| && (text[p - 1] == '.' || text[p - 1] == '?' || text[p - 1] == '!') && u.space(text[p])
  }

  function BlankPlaces(u: CharTable, text: string): int -> bool {
    (p: int) => 0 <= p < |text| && u.space(text[p])
  }

  /** A cut goes to the closest place after a sentence if one is within the window, else to the closest blank;
      nowhere exactly when there is none. */
  ghost predicate PlaceFor(u: CharTable, text: string, target: int, window: int, at: Option<int>) {
    && (at.None? <==> forall p :: !BlankPlaces(u, text)(p))
    && (at.Some? ==>
      if exists q :: SentencePlaces(u, text)(q) && Far(q, target) <= window
      then Closest(SentencePlaces(u, text), target, at.value)
      else Closest(BlankPlaces(u, text), target, at.value))
  }

  lemma SameClosest(good: int -> bool, other: int -> bool, target: int, p: int)
    requires Closest(good, target, p) && forall q :: good(q) <==> other(q)
    ensures Closest(other, target, p)
  {
  }

  lemma PlaceIs(u: CharTable, text: string, target: int, window: int)
    ensures PlaceFor(u, text, target, window, SnapOffset(u, text, target, window))
  {
    hide Filter, FirstMin, Far, Away, Closest;
    var cut, blank := SentenceCuts(u, text), Blanks(u, text);
    IndexFilter(cut, |text|);
    IndexFilter(blank, |text|);
    var punctuation, spaces := Filter(cut, Indices(|text|)), Filter(blank, Indices(|text|));
    assert forall p :: SentencePlaces(u, text)(p) <==> cut(p);
    assert forall p :: BlankPlaces(u, text)(p) <==> blank(p);
    if punctuation != [] {
      ClosestIs(cut, |text|, target);
      var p := FirstMin(punctuation, Away(target));
      SameClosest(cut, SentencePlaces(u, text), target, p);
      AwayIsFar(p, target);
      assert blank(p);
      WithinWhen(SentencePlaces(u, text), target, window, p);
    }
    if spaces != [] {
      ClosestIs(blank, |text|, target);
      assert blank(spaces[0]);
      SameClosest(blank, BlankPlaces(u, text), target, FirstMin(spaces, Away(target)));
    }
  }

  lemma WithinWhen(good: int -> bool, target: int, window: int, p: int)
    requires Closest(good, target, p)
    ensures Far(p, target) <= window <==> exists q :: good(q) && Far(q, target) <= window
  {
  }

  // ---- which places become cuts

  /** The place a cut for `time` goes to. */
  ghost predicate RightPlace(u: CharTable, segment: Segment, time: real, window: int, at: Option<int>) {
    exists target :: SameShare(segment, time, target) && PlaceFor(u, segment.text, target, window, at)
  }

  lemma CutForIs(u: CharTable, segment: Segment, time: real, window: int)
    requires segment.start < segment.end
    ensures RightPlace(u, segment, time, window, CutFor(u, segment, time, window))
  {
    hide SameShare, PlaceFor, Proportional, SnapOffset;
    ProportionalIs(segment, time);
    PlaceIs(u, segment.text, Proportional(segment, time), window);
  }

  /** places[k] lies after the start of the text and after all earlier places. */
  ghost predicate Leads(places: seq<Option<int>>, k: int) {
    && 0 < k < |places| && places[k].Some? && places[k].value > 0
    && forall j :: 0 < j < k && places[j].Some? ==> places[j].value < places[k].value
  }

  ghost predicate CutOf(spans: seq<Span>, places: seq<Option<int>>, cut: Cut, k: int) {
    0 < k < |spans| && k < |places| && places[k].Some? && cut == Cut(spans[k].start, places[k].value)
  }

  /** Some place before the k-th that leads is this cut. */
  ghost predicate Led(spans: seq<Span>, places: seq<Option<int>>, k: int, cut: Cut) {
    exists m :: m < k && Leads(places, m) && CutOf(spans, places, cut, m)
  }

  function LastOffset(cuts: seq<Cut>): int {
    if cuts == [] then 0 else cuts[|cuts| - 1].offset
  }

  ghost predicate CutsLead(spans: seq<Span>, places: seq<Option<int>>, k: int, cuts: seq<Cut>) {
    && (forall cut :: cut in cuts <==> Led(spans, places, k, cut))
    && (forall m :: 0 < m < k && m < |places| && places[m].Some? ==> places[m].value <= LastOffset(cuts))
    && LastOffset(cuts) >= 0
  }

  lemma LeadsIff(spans: seq<Span>, places: seq<Option<int>>, k: int, cuts: seq<Cut>)
    requires 1 <= k < |places| && CutsLead(spans, places, k, cuts)
    ensures Leads(places, k) <==> places[k].Some? && places[k].value > LastOffset(cuts)
  {
    if cuts != [] {
      var last := cuts[|cuts| - 1];
      assert Led(spans, places, k, last);
      var m :| m < k && Leads(places, m) && CutOf(spans, places, last, m);
      assert places[m].value == last.offset > 0;
    }
  }

  lemma LedNext(spans: seq<Span>, places: seq<Option<int>>, k: int, cut: Cut)
    ensures Led(spans, places, k + 1, cut) <==> Led(spans, places, k, cut) || (Leads(places, k) && CutOf(spans, places, cut, k))
  {
    hide Leads, CutOf;
  }

  lemma OneMoreLeads(spans: seq<Span>, places: seq<Option<int>>, k: int, cuts: seq<Cut>)
    requires 1 <= k < |spans| == |places| && CutsLead(spans, places, k, cuts)
    ensures places[k].Some? && places[k].value > LastOffset(cuts) ==>
      CutsLead(spans, places, k + 1, cuts + [Cut(spans[k].start, places[k].value)])
    ensures places[k].None? || places[k].value <= LastOffset(cuts) ==> CutsLead(spans, places, k + 1, cuts)
  {
    hide Led;
    LeadsIff(spans, places, k, cuts);
    hide Leads;
    forall cut ensures Led(spans, places, k + 1, cut) <==> Led(spans, places, k, cut) || (Leads(places, k) && CutOf(spans, places, cut, k)) {
      LedNext(spans, places, k, cut);
    }
    if places[k].Some? && places[k].value > LastOffset(cuts) {
      var next := Cut(spans[k].start, places[k].value);
      var after := cuts + [next];
      assert LastOffset(after) == next.offset;
      forall cut ensures cut in after <==> Led(spans, places, k + 1, cut) {
        assert cut in after <==> cut in cuts || cut == next;
      }
    }
  }

  lemma NothingLeads(spans: seq<Span>, places: seq<Option<int>>)
    ensures CutsLead(spans, places, 1, [])
  {
  }

  lemma {:induction false} InnerCutsLead(u: CharTable, segment: Segment, spans: seq<Span>, window: int, places: seq<Option<int>>, k: int)
    requires segment.start < segment.end && 1 <= k <= |spans| == |places|
    requires forall m :: 0 < m < |places| ==> places[m] == CutFor(u, segment, spans[m].start, window)
    requires forall m :: 0 < m < |places| && places[m].Some? ==> places[m].value < |segment.text|
    ensures var cuts := InnerCuts(u, segment, spans, window, k);
      cuts[0] == Cut(segment.start, 0) && CutsLead(spans, places, k, cuts[1..])
  {
    hide CutFor, CutsLead, InnerCuts;
    if k == 1 {
      FirstCuts(u, segment, spans, window);
      NothingLeads(spans, places);
    } else {
      InnerCutsLead(u, segment, spans, window, places, k - 1);
      NextCuts(u, segment, spans, window, k);
      OneMoreLeads(spans, places, k - 1, InnerCuts(u, segment, spans, window, k - 1)[1..]);
    }
  }

  lemma FirstCuts(u: CharTable, segment: Segment, spans: seq<Span>, window: int)
    requires segment.start < segment.end && spans != []
    ensures var cuts := InnerCuts(u, segment, spans, window, 1); cuts[0] == Cut(segment.start, 0) && cuts[1..] == []
  {
  }

  lemma NextCuts(u: CharTable, segment: Segment, spans: seq<Span>, window: int, k: int)
    requires segment.start < segment.end && 1 < k <= |spans| && InnerCuts(u, segment, spans, window, k - 1)[0] == Cut(segment.start, 0)
    requires var at := CutFor(u, segment, spans[k - 1].start, window); at.Some? ==> at.value < |segment.text|
    ensures var before, after := InnerCuts(u, segment, spans, window, k - 1), InnerCuts(u, segment, spans, window, k);
      var at := CutFor(u, segment, spans[k - 1].start, window);
      && after[0] == before[0]
      && after[1..] == if at.Some? && at.value > LastOffset(before[1..]) then before[1..] + [Cut(spans[k - 1].start, at.value)] else before[1..]
  {
    hide CutFor;
    var before := InnerCuts(u, segment, spans, window, k - 1);
    assert LastOffset(before[1..]) == before[|before| - 1].offset;
  }

  /** The text is cut at its ends and at the places of the spans' starts that lie beyond every earlier one. */
  ghost predicate CutRightly(u: CharTable, segment: Segment, spans: seq<Span>, window: int, cuts: seq<Cut>) {
    && |cuts| >= 2 && cuts[0] == Cut(segment.start, 0) && cuts[|cuts| - 1] == Cut(segment.end, |segment.text|)
    && exists places: seq<Option<int>> ::
      RightPlaces(u, segment, spans, window, places) && CutsLead(spans, places, |spans|, cuts[1..|cuts| - 1])
  }

  ghost predicate RightPlaces(u: CharTable, segment: Segment, spans: seq<Span>, window: int, places: seq<Option<int>>) {
    |places| == |spans| && forall k :: 0 < k < |spans| ==> RightPlace(u, segment, spans[k].start, window, places[k])
  }

  lemma CutsAreRight(u: CharTable, segment: Segment, spans: seq<Span>, window: int)
    requires segment.start < segment.end && Tiles(segment.start, segment.end, spans)
    ensures CutRightly(u, segment, spans, window, Cuts(u, segment, spans, window))
  {
    hide CutFor, InnerCuts, RightPlace, CutsLead, CutsThrough, TimesGrow;
    CutsRunThrough(u, segment, spans, window);
    var places := seq(|spans|, k requires 0 <= k < |spans| => CutFor(u, segment, spans[k].start, window));
    forall k | 0 < k < |places|
      ensures RightPlace(u, segment, spans[k].start, window, places[k]) && (places[k].Some? ==> places[k].value < |segment.text|)
    {
      CutForIs(u, segment, spans[k].start, window);
      CutFallsOnBlank(u, segment, spans[k].start, window);
    }
    InnerCutsLead(u, segment, spans, window, places, |spans|);
    var inner, cuts := InnerCuts(u, segment, spans, window, |spans|), Cuts(u, segment, spans, window);
    assert inner[1..] == cuts[1..|cuts| - 1];
    assert RightPlaces(u, segment, spans, window, places);
  }

  // ---- whose the text between two cuts is

  function HeldBetween(start: real, end: real, speaker: Option<string>): Span -> real {
    (span: Span) =>
      var from, to := if span.start < start then start else span.start, if span.end < end then span.end else end;
      if span.speaker == speaker && from < to then to - from else 0.0
  }

  /** Nobody's spans hold more of the stretch. */
  ghost predicate Holds(spans: seq<Span>, start: real, end: real, speaker: Option<string>) {
    && (exists i :: 0 <= i < |spans| && spans[i].speaker == speaker)
    && forall other :: Sum(HeldBetween(start, end, other), spans) <= Sum(HeldBetween(start, end, speaker), spans)
  }

  lemma {:induction false} SpanTotals(spans: seq<Span>, start: real, end: real, speaker: Option<string>)
    ensures TotalOf(SpanOverlaps(spans, start, end), speaker) == Sum(HeldBetween(start, end, speaker), spans)
    ensures TotalOf(SpanOverlaps(spans, start, end), speaker) >= 0.0
  {
    if spans != [] {
      var n := |spans| - 1;
      SpanTotals(spans[..n], start, end, speaker);
      var entries := SpanOverlaps(spans, start, end);
      assert entries[..n] == SpanOverlaps(spans[..n], start, end);
      assert Under(speaker)(entries[n]) == HeldBetween(start, end, speaker)(spans[n]);
    }
  }

  lemma DominantHolds(spans: seq<Span>, start: real, end: real)
    requires spans != []
    ensures Holds(spans, start, end, Dominant(spans, start, end))
  {
    hide TotalOf, SpanOverlaps, Dominant, Sum;
    var best := Dominant(spans, start, end);
    DominantCoversMost(spans, start, end);
    SpanTotals(spans, start, end, best);
    forall other ensures Sum(HeldBetween(start, end, other), spans) <= Sum(HeldBetween(start, end, best), spans) {
      SpanTotals(spans, start, end, other);
      if i :| 0 <= i < |spans| && spans[i].speaker == other {
      } else {
        HoldsNothing(spans, start, end, other);
      }
    }
  }

  lemma HoldsNothing(spans: seq<Span>, start: real, end: real, speaker: Option<string>)
    requires forall i :: 0 <= i < |spans| ==> spans[i].speaker != speaker
    ensures Sum(HeldBetween(start, end, speaker), spans) == 0.0
  {
    NothingAddsUp(HeldBetween(start, end, speaker), spans);
  }

  // ---- the pieces

  /** The text of the stretches from lo to hi, each without the whitespace at its ends, with one blank in between. */
  function Said(u: CharTable, text: string, cuts: seq<Cut>, lo: int, hi: int): string
    requires 0 <= lo <= hi < |cuts|
    decreases hi - lo
  {
    if lo == hi then ""
    else
      var before, last := Said(u, text, cuts, lo, hi - 1), Strip(u, Slice(text, cuts[hi - 1].offset, cuts[hi].offset));
      if last == "" then before else if before == "" then last else before + " " + last
  }

  /** A piece runs from cut lo to cut hi, says what stands between them, and everything there is its speaker's. */
  ghost predicate PieceOver(u: CharTable, text: string, spans: seq<Span>, cuts: seq<Cut>, piece: Segment, lo: int, hi: int) {
    && 0 <= lo < hi < |cuts| && Says(u, text, cuts, lo) && Says(u, text, cuts, hi - 1)
    && piece == PlainSegment(cuts[lo].time, cuts[hi].time, VoiceOf(spans, cuts, lo), Said(u, text, cuts, lo, hi), [])
    && piece.text != "" && AllBy(u, text, spans, cuts, piece.speaker, lo, hi)
  }

  /** Every text from cut lo to cut hi is this speaker's. */
  ghost predicate AllBy(u: CharTable, text: string, spans: seq<Span>, cuts: seq<Cut>, speaker: Option<string>, lo: int, hi: int) {
    forall i :: lo <= i < hi && Says(u, text, cuts, i) ==> VoiceOf(spans, cuts, i) == speaker
  }

  ghost predicate EachOver(u: CharTable, text: string, spans: seq<Span>, cuts: seq<Cut>, k: int, pieces: seq<Segment>, los: seq<int>, his: seq<int>)
    requires |los| == |his| == |pieces|
  {
    forall p :: 0 <= p < |pieces| ==> PieceOver(u, text, spans, cuts, pieces[p], los[p], his[p]) && his[p] <= k
  }

  ghost predicate Follows(pieces: seq<Segment>, los: seq<int>, his: seq<int>, p: int) {
    0 < p < |pieces| && p <= |his| && p < |los| && his[p - 1] <= los[p] && pieces[p - 1].speaker != pieces[p].speaker
  }

  ghost predicate Within(los: seq<int>, his: seq<int>, i: int) {
    exists p :: 0 <= p < |los| && p < |his| && los[p] <= i < his[p]
  }

  lemma WithinOneMore(los: seq<int>, his: seq<int>, lo: int, hi: int, i: int)
    requires |los| == |his| && (Within(los, his, i) || lo <= i < hi)
    ensures Within(los + [lo], his + [hi], i)
  {
    var from, to := los + [lo], his + [hi];
    if p :| 0 <= p < |los| && los[p] <= i < his[p] {
      assert from[p] <= i < to[p];
    } else {
      assert from[|los|] <= i < to[|los|];
    }
  }

  lemma WithinLonger(los: seq<int>, his: seq<int>, hi: int, i: int)
    requires |los| == |his| && los != [] && his[|his| - 1] <= hi && (Within(los, his, i) || los[|los| - 1] <= i < hi)
    ensures Within(los, his[|his| - 1 := hi], i)
  {
    var to := his[|his| - 1 := hi];
    if p :| 0 <= p < |los| && los[p] <= i < his[p] {
      assert los[p] <= i < to[p];
    } else {
      assert los[|los| - 1] <= i < to[|los| - 1];
    }
  }

  /** los and his are the cuts the pieces of the first k stretches run between: every text is in one, in order,
      and neighbours differ. */
  ghost predicate PiecesOver(u: CharTable, text: string, spans: seq<Span>, cuts: seq<Cut>, k: int, pieces: seq<Segment>, los: seq<int>, his: seq<int>) {
    && |los| == |his| == |pieces| && EachOver(u, text, spans, cuts, k, pieces, los, his)
    && (forall p :: 0 < p < |pieces| ==> Follows(pieces, los, his, p))
    && (forall i :: 0 <= i < k && Says(u, text, cuts, i) ==> Within(los, his, i))
    && (pieces != [] ==> forall i :: his[|pieces| - 1] <= i < k ==> !Says(u, text, cuts, i))
  }

  lemma {:induction false} SaidNothingMore(u: CharTable, text: string, cuts: seq<Cut>, lo: int, mid: int, hi: int)
    requires 0 <= lo <= mid <= hi < |cuts| && CutsRun(text, cuts)
    requires forall i :: mid <= i < hi ==> !Says(u, text, cuts, i)
    ensures Said(u, text, cuts, lo, hi) == Said(u, text, cuts, lo, mid)
    decreases hi - mid
  {
    hide Strip, Slice, Says, CutsRun;
    if mid < hi {
      SaidNothingMore(u, text, cuts, lo, mid, hi - 1);
      SilenceAdds(u, text, cuts, lo, hi);
    }
  }

  lemma SilenceAdds(u: CharTable, text: string, cuts: seq<Cut>, lo: int, hi: int)
    requires 0 <= lo < hi < |cuts| && CutsRun(text, cuts) && !Says(u, text, cuts, hi - 1)
    ensures Said(u, text, cuts, lo, hi) == Said(u, text, cuts, lo, hi - 1)
  {
    hide Strip, Slice, Says, CutsRun;
    SaysIff(u, text, cuts, hi - 1);
  }

  lemma NoPiecesOver(u: CharTable, text: string, spans: seq<Span>, cuts: seq<Cut>)
    ensures PiecesOver(u, text, spans, cuts, 0, [], [], [])
  {
  }

  lemma OverSilence(u: CharTable, text: string, spans: seq<Span>, cuts: seq<Cut>, k: int, pieces: seq<Segment>, los: seq<int>, his: seq<int>)
    requires 0 < k < |cuts| && PiecesOver(u, text, spans, cuts, k - 1, pieces, los, his) && !Says(u, text, cuts, k - 1)
    ensures PiecesOver(u, text, spans, cuts, k, pieces, los, his)
  {
    hide PieceOver, Says;
  }

  lemma OverOneMore(u: CharTable, text: string, spans: seq<Span>, cuts: seq<Cut>, k: int, pieces: seq<Segment>, los: seq<int>, his: seq<int>,
                    piece: Segment)
    requires 0 < k < |cuts| && PiecesOver(u, text, spans, cuts, k - 1, pieces, los, his) && PieceOver(u, text, spans, cuts, piece, k - 1, k)
    requires pieces != [] ==> pieces[|pieces| - 1].speaker != piece.speaker
    ensures PiecesOver(u, text, spans, cuts, k, pieces + [piece], los + [k - 1], his + [k])
  {
    hide PieceOver, Says, Within, EachOver;
    var n, after, from, to := |pieces|, pieces + [piece], los + [k - 1], his + [k];
    forall i | 0 <= i < k && Says(u, text, cuts, i) ensures Within(from, to, i) {
      WithinOneMore(los, his, k - 1, k, i);
    }
    EachOneMore(u, text, spans, cuts, k, pieces, los, his, piece);
    forall p | 0 < p < |after| ensures Follows(after, from, to, p) {
      assert p < n ==> Follows(pieces, los, his, p);
    }
  }

  lemma EachOneMore(u: CharTable, text: string, spans: seq<Span>, cuts: seq<Cut>, k: int, pieces: seq<Segment>, los: seq<int>, his: seq<int>,
                    piece: Segment)
    requires |los| == |his| == |pieces| && EachOver(u, text, spans, cuts, k - 1, pieces, los, his)
    requires PieceOver(u, text, spans, cuts, piece, k - 1, k)
    ensures EachOver(u, text, spans, cuts, k, pieces + [piece], los + [k - 1], his + [k])
    ensures pieces != [] ==> his[|his| - 1] <= k - 1
  {
    hide PieceOver;
  }

  lemma EachLonger(u: CharTable, text: string, spans: seq<Span>, cuts: seq<Cut>, k: int, pieces: seq<Segment>, los: seq<int>, his: seq<int>,
                   longer: Segment)
    requires pieces != [] && |los| == |his| == |pieces| && EachOver(u, text, spans, cuts, k - 1, pieces, los, his)
    requires PieceOver(u, text, spans, cuts, longer, los[|pieces| - 1], k)
    ensures EachOver(u, text, spans, cuts, k, pieces[|pieces| - 1 := longer], los, his[|pieces| - 1 := k])
  {
    hide PieceOver;
  }

  lemma OverLonger(u: CharTable, text: string, spans: seq<Span>, cuts: seq<Cut>, k: int, pieces: seq<Segment>, los: seq<int>, his: seq<int>,
                   longer: Segment)
    requires 0 < k < |cuts| && pieces != [] && PiecesOver(u, text, spans, cuts, k - 1, pieces, los, his)
    requires PieceOver(u, text, spans, cuts, longer, los[|pieces| - 1], k) && longer.speaker == pieces[|pieces| - 1].speaker
    requires los[|pieces| - 1] < k && his[|pieces| - 1] <= k
    ensures PiecesOver(u, text, spans, cuts, k, pieces[|pieces| - 1 := longer], los, his[|pieces| - 1 := k])
  {
    hide PieceOver, Says, Within, EachOver;
    var n, after, to := |pieces| - 1, pieces[|pieces| - 1 := longer], his[|pieces| - 1 := k];
    forall i | 0 <= i < k && Says(u, text, cuts, i) ensures Within(los, to, i) {
      WithinLonger(los, his, k, i);
    }
    EachLonger(u, text, spans, cuts, k, pieces, los, his, longer);
    forall p | 0 < p < |after| ensures Follows(after, los, to, p) {
      assert Follows(pieces, los, his, p);
    }
  }

  lemma LongerIsOver(u: CharTable, text: string, spans: seq<Span>, cuts: seq<Cut>, piece: Segment, lo: int, hi: int, k: int)
    requires spans != [] && CutsRun(text, cuts) && PieceOver(u, text, spans, cuts, piece, lo, hi) && hi < k < |cuts|
    requires Says(u, text, cuts, k - 1) && VoiceOf(spans, cuts, k - 1) == piece.speaker
    requires forall i :: hi <= i < k - 1 ==> !Says(u, text, cuts, i)
    ensures PieceOver(u, text, spans, cuts, Extended(piece, cuts[k].time, Strip(u, Slice(text, cuts[k - 1].offset, cuts[k].offset))), lo, k)
  {
    hide Strip, Slice, Says, Dominant, AllBy, CutsRun, Said;
    SaidNothingMore(u, text, cuts, lo, hi, k - 1);
    SaidMore(u, text, cuts, lo, k);
    AllByLonger(u, text, spans, cuts, piece.speaker, lo, hi, k);
  }

  lemma SaidMore(u: CharTable, text: string, cuts: seq<Cut>, lo: int, k: int)
    requires 0 <= lo < k < |cuts| && CutsRun(text, cuts) && Says(u, text, cuts, k - 1) && Said(u, text, cuts, lo, k - 1) != ""
    ensures Said(u, text, cuts, lo, k) == Said(u, text, cuts, lo, k - 1) + " " + Strip(u, Slice(text, cuts[k - 1].offset, cuts[k].offset))
  {
    hide Strip, Slice, Says, CutsRun;
    SaysIff(u, text, cuts, k - 1);
  }

  lemma AllByLonger(u: CharTable, text: string, spans: seq<Span>, cuts: seq<Cut>, speaker: Option<string>, lo: int, hi: int, k: int)
    requires AllBy(u, text, spans, cuts, speaker, lo, hi) && hi < k && VoiceOf(spans, cuts, k - 1) == speaker
    requires forall i :: hi <= i < k - 1 ==> !Says(u, text, cuts, i)
    ensures AllBy(u, text, spans, cuts, speaker, lo, k)
  {
    hide Says, VoiceOf;
  }

  lemma OverText(u: CharTable, text: string, spans: seq<Span>, cuts: seq<Cut>, k: int, pieces: seq<Segment>, los: seq<int>, his: seq<int>)
    returns (from: seq<int>, to: seq<int>)
    requires spans != [] && 0 < k < |cuts| && CutsRun(text, cuts) && Says(u, text, cuts, k - 1)
    requires PiecesOver(u, text, spans, cuts, k - 1, pieces, los, his)
    ensures PiecesOver(u, text, spans, cuts, k,
      AddPiece(u, spans, pieces, cuts[k - 1].time, cuts[k].time, Slice(text, cuts[k - 1].offset, cuts[k].offset)), from, to)
  {
    hide Strip, Slice, Says, Dominant, CutsRun, PiecesOver, PieceOver, VoiceOf;
    var said, voice, last := Strip(u, Slice(text, cuts[k - 1].offset, cuts[k].offset)), Dominant(spans, cuts[k - 1].time, cuts[k].time), |pieces| - 1;
    SaysIff(u, text, cuts, k - 1);
    VoiceIs(spans, cuts, k - 1);
    if pieces != [] && pieces[last].speaker == voice {
      LastIsOver(u, text, spans, cuts, k - 1, pieces, los, his);
      LongerIsOver(u, text, spans, cuts, pieces[last], los[last], his[last], k);
      OverLonger(u, text, spans, cuts, k, pieces, los, his, Extended(pieces[last], cuts[k].time, said));
      from, to := los, his[last := k];
    } else {
      NewIsOver(u, text, spans, cuts, k);
      OverOneMore(u, text, spans, cuts, k, pieces, los, his, PlainSegment(cuts[k - 1].time, cuts[k].time, voice, said, []));
      from, to := los + [k - 1], his + [k];
    }
  }

  lemma VoiceIs(spans: seq<Span>, cuts: seq<Cut>, k: int)
    requires spans != [] && 0 <= k < |cuts| - 1
    ensures VoiceOf(spans, cuts, k) == Dominant(spans, cuts[k].time, cuts[k + 1].time)
  {
  }

  lemma LastIsOver(u: CharTable, text: string, spans: seq<Span>, cuts: seq<Cut>, k: int, pieces: seq<Segment>, los: seq<int>, his: seq<int>)
    requires pieces != [] && PiecesOver(u, text, spans, cuts, k, pieces, los, his)
    ensures var last := |pieces| - 1;
      && |los| == |his| == |pieces| && los[last] < his[last] <= k
      && PieceOver(u, text, spans, cuts, pieces[last], los[last], his[last])
      && forall i :: his[last] <= i < k ==> !Says(u, text, cuts, i)
  {
    hide Says, Said;
  }

  lemma NewIsOver(u: CharTable, text: string, spans: seq<Span>, cuts: seq<Cut>, k: int)
    requires spans != [] && 0 < k < |cuts| && CutsRun(text, cuts) && Says(u, text, cuts, k - 1)
    ensures PieceOver(u, text, spans, cuts, PlainSegment(cuts[k - 1].time, cuts[k].time, Dominant(spans, cuts[k - 1].time, cuts[k].time),
      Strip(u, Slice(text, cuts[k - 1].offset, cuts[k].offset)), []), k - 1, k)
  {
    hide Strip, Slice, Says, Dominant, CutsRun;
    SaysIff(u, text, cuts, k - 1);
    assert Said(u, text, cuts, k - 1, k - 1) == "";
    VoiceIs(spans, cuts, k - 1);
  }

  lemma {:induction false} PiecesAreOver(u: CharTable, text: string, spans: seq<Span>, cuts: seq<Cut>, k: int) returns (los: seq<int>, his: seq<int>)
    requires spans != [] && 0 <= k < |cuts| && CutsRun(text, cuts)
    ensures PiecesOver(u, text, spans, cuts, k, Pieces(u, text, spans, cuts, k), los, his)
  {
    hide PiecesOver, PieceOver, Strip, Slice, Says, Dominant;
    if k == 0 {
      NoPiecesOver(u, text, spans, cuts);
      return [], [];
    }
    var before := Pieces(u, text, spans, cuts, k - 1);
    los, his := PiecesAreOver(u, text, spans, cuts, k - 1);
    SaysIff(u, text, cuts, k - 1);
    if !Says(u, text, cuts, k - 1) {
      OverSilence(u, text, spans, cuts, k, before, los, his);
    } else {
      los, his := OverText(u, text, spans, cuts, k, before, los, his);
    }
  }

  /** A split segment: cut where its speaker changes fall, every text with whoever holds most of its time, one
      piece for each run of text of one voice. */
  lemma SplitIsRight(u: CharTable, segment: Segment, turns: seq<Turn>, shares: Tally<string>, window: int)
    returns (cuts: seq<Cut>, los: seq<int>, his: seq<int>)
    requires segment.start < segment.end && SharesOf(segment, turns).keys != []
    requires SplitPieces(u, segment, turns, shares, window) != []
    ensures var spans := SpansOf(segment, turns, shares);
      && CutRightly(u, segment, spans, window, cuts)
      && PiecesOver(u, segment.text, spans, cuts, |cuts| - 1, SplitPieces(u, segment, turns, shares, window), los, his)
      && forall k :: 0 <= k < |cuts| - 1 ==> Holds(spans, cuts[k].time, cuts[k + 1].time, VoiceOf(spans, cuts, k))
  {
    hide SpansOf, SharesOf, Cuts, Pieces, CutRightly, PiecesOver, CutsThrough, TimesGrow, Holds, Tiles, Dominant;
    var spans := SpansOf(segment, turns, shares);
    SpansTile(segment, turns, shares);
    cuts := Cuts(u, segment, spans, window);
    CutsRunThrough(u, segment, spans, window);
    ThroughMeansRun(u, segment.text, cuts);
    CutsAreRight(u, segment, spans, window);
    los, his := PiecesAreOver(u, segment.text, spans, cuts, |cuts| - 1);
    forall k | 0 <= k < |cuts| - 1 ensures Holds(spans, cuts[k].time, cuts[k + 1].time, VoiceOf(spans, cuts, k)) {
      DominantHolds(spans, cuts[k].time, cuts[k + 1].time);
    }
  }
}
