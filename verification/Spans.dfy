/** src/vemsa/pipeline/diarize.py, _speaker_shares and _speaker_spans. */
module Spans {
  import opened Base
  import opened Models
  import opened Tallies

  // ---- _speaker_shares

  function SegmentOverlap(segment: Segment, turn: Turn): real {
    Max(0.0, Min(segment.end, turn.end) - Max(segment.start, turn.start))
  }

  /** The turns with a positive overlap, each entered under its speaker. */
  function Overlaps(segment: Segment, turns: seq<Turn>): seq<Entry<string>> {
    if turns == [] then []
    else
      var n := |turns| - 1;
      var overlap := SegmentOverlap(segment, turns[n]);
      Overlaps(segment, turns[..n]) + if overlap > 0.0 then [Entry(turns[n].speaker, overlap)] else []
  }

  function SharesOf(segment: Segment, turns: seq<Turn>): Tally<string> {
    TallyOf(Overlaps(segment, turns))
  }

  lemma OverlapsNext(segment: Segment, turns: seq<Turn>, i: int)
    requires 0 <= i < |turns|
    ensures var overlap := SegmentOverlap(segment, turns[i]);
      Overlaps(segment, turns[..i + 1])
        == if overlap > 0.0 then Overlaps(segment, turns[..i]) + [Entry(turns[i].speaker, overlap)]
           else Overlaps(segment, turns[..i])
  {
    assert turns[..i + 1][..i] == turns[..i];
  }

  method SpeakerShares(segment: Segment, turns: seq<Turn>) returns (shares: Tally<string>)
    ensures shares == SharesOf(segment, turns)
  {
    shares := Tally([], map[]);
    for i := 0 to |turns|
      invariant shares == SharesOf(segment, turns[..i])
    {
      var overlap := SegmentOverlap(segment, turns[i]);
      OverlapsNext(segment, turns, i);
      if overlap > 0.0 {
        TallySnoc(Overlaps(segment, turns[..i]), Entry(turns[i].speaker, overlap));
        shares := Add(shares, turns[i].speaker, overlap);
      }
    }
    assert turns[..|turns|] == turns;
  }

  ghost predicate Speaks(segment: Segment, turns: seq<Turn>, name: string, i: int) {
    0 <= i < |turns| && turns[i].speaker == name && SegmentOverlap(segment, turns[i]) > 0.0
  }

  lemma {:induction false} OverlapEntries(segment: Segment, turns: seq<Turn>, name: string)
    ensures Entered(Overlaps(segment, turns), name) <==> exists i :: Speaks(segment, turns, name, i)
  {
    if turns != [] {
      var n := |turns| - 1;
      var before := turns[..n];
      OverlapEntries(segment, before, name);
      EnteredSnoc(Overlaps(segment, before), Entry(turns[n].speaker, SegmentOverlap(segment, turns[n])), name);
      SpeaksNext(segment, turns, name);
      OverlapsNext(segment, turns, n);
      assert turns[..n + 1] == turns;
    }
  }

  lemma SpeaksNext(segment: Segment, turns: seq<Turn>, name: string)
    requires turns != []
    ensures var n := |turns| - 1;
      (exists i :: Speaks(segment, turns, name, i))
        <==> (exists i :: Speaks(segment, turns[..n], name, i)) || Speaks(segment, turns, name, n)
  {
    var n := |turns| - 1;
    assert forall i :: i != n ==> (Speaks(segment, turns, name, i) <==> Speaks(segment, turns[..n], name, i));
    assert !Speaks(segment, turns[..n], name, n);
  }

  /** A speaker has a share exactly when one of its turns touches the segment, and the share is
      everything its turns cover of it. */
  lemma SharesAreOverlaps(segment: Segment, turns: seq<Turn>)
    ensures Totals(Overlaps(segment, turns), SharesOf(segment, turns))
    ensures forall name :: name in SharesOf(segment, turns).keys <==> exists i :: Speaks(segment, turns, name, i)
  {
    hide Overlaps;
    TallyIsTotals(Overlaps(segment, turns));
    forall name ensures name in SharesOf(segment, turns).keys <==> exists i :: Speaks(segment, turns, name, i) {
      OverlapEntries(segment, turns, name);
    }
  }

  // ---- who is heard at an instant

  function Covering(turns: seq<Turn>, t: real): seq<string> {
    if turns == [] then []
    else (if turns[0].start < t < turns[0].end then [turns[0].speaker] else []) + Covering(turns[1..], t)
  }

  ghost predicate Covers(turns: seq<Turn>, t: real, name: string, i: int) {
    0 <= i < |turns| && turns[i].speaker == name && turns[i].start < t < turns[i].end
  }

  lemma {:induction false} CoveringTurns(turns: seq<Turn>, t: real, name: string)
    ensures name in Covering(turns, t) <==> exists i :: Covers(turns, t, name, i)
  {
    if turns != [] {
      var rest := turns[1..];
      CoveringTurns(rest, t, name);
      assert forall i :: 0 <= i < |rest| ==> (Covers(rest, t, name, i) <==> Covers(turns, t, name, i + 1));
      assert Covers(turns, t, name, 0) <==> turns[0].speaker == name && turns[0].start < t < turns[0].end;
      if i :| Covers(turns, t, name, i) {
        assert i > 0 ==> Covers(rest, t, name, i - 1);
      }
    }
  }

  /** Of the speakers whose turns cover the instant, the one with the largest share. */
  function HeardAt(turns: seq<Turn>, shares: Tally<string>, t: real): Option<string> {
    var covering := Covering(turns, t);
    if covering == [] then None else Some(FirstMax(covering, Get(shares)))
  }

  /** Whoever covers an instant of the segment has a share of it: the lookup cannot miss. */
  lemma CoveringHaveShares(segment: Segment, turns: seq<Turn>, t: real, name: string)
    requires segment.start < t < segment.end && name in Covering(turns, t)
    ensures name in SharesOf(segment, turns).sums
  {
    CoveringTurns(turns, t, name);
    var i :| Covers(turns, t, name, i);
    assert Speaks(segment, turns, name, i);
    SharesAreOverlaps(segment, turns);
  }

  // ---- the bounds

  predicate Meets(segment: Segment, turn: Turn) {
    turn.end > segment.start && turn.start < segment.end
  }

  function AddBound(bounds: seq<real>, t: real): seq<real> {
    if t in bounds then bounds else bounds + [t]
  }

  function BoundSet(segment: Segment, turns: seq<Turn>): seq<real> {
    if turns == [] then AddBound([segment.start], segment.end)
    else
      var n := |turns| - 1;
      var before := BoundSet(segment, turns[..n]);
      if Meets(segment, turns[n]) then
        AddBound(AddBound(before, Max(turns[n].start, segment.start)), Min(turns[n].end, segment.end))
      else before
  }

  function Bounds(segment: Segment, turns: seq<Turn>): seq<real> {
    StableSort(Itself, BoundSet(segment, turns))
  }

  /** Edges of the segment, and of the turns inside it. */
  ghost predicate Bound(segment: Segment, turns: seq<Turn>, t: real) {
    t == segment.start || t == segment.end || exists i :: EdgeOf(segment, turns, t, i)
  }

  ghost predicate EdgeOf(segment: Segment, turns: seq<Turn>, t: real, i: int) {
    && 0 <= i < |turns| && Meets(segment, turns[i])
    && (t == Max(turns[i].start, segment.start) || t == Min(turns[i].end, segment.end))
  }

  lemma {:induction false} BoundSetIsBounds(segment: Segment, turns: seq<Turn>)
    ensures forall i, j :: 0 <= i < j < |BoundSet(segment, turns)| ==> BoundSet(segment, turns)[i] != BoundSet(segment, turns)[j]
    ensures forall t :: t in BoundSet(segment, turns) <==> Bound(segment, turns, t)
  {
    if turns == [] {
      assert forall t, i :: !EdgeOf(segment, turns, t, i);
    } else {
      var n := |turns| - 1;
      var before := turns[..n];
      BoundSetIsBounds(segment, before);
      forall t ensures Bound(segment, turns, t) <==> Bound(segment, before, t) || EdgeOf(segment, turns, t, n) {
        assert forall i :: 0 <= i < n ==> (EdgeOf(segment, turns, t, i) <==> EdgeOf(segment, before, t, i));
      }
    }
  }

  ghost predicate Ordered(b: seq<real>) {
    forall i, j :: 0 <= i < j < |b| ==> b[i] < b[j]
  }

  lemma BoundsInOrder(segment: Segment, turns: seq<Turn>)
    ensures Ordered(Bounds(segment, turns))
    ensures forall t :: t in Bounds(segment, turns) <==> Bound(segment, turns, t)
  {
    hide Bound, StableSort, BoundSet;
    BoundSetIsBounds(segment, turns);
    SortsStrictly(BoundSet(segment, turns), Bounds(segment, turns));
  }

  /** The segment's own edges are the outermost bounds. */
  lemma OutermostBounds(segment: Segment, turns: seq<Turn>)
    requires segment.start < segment.end
    ensures var b := Bounds(segment, turns);
      |b| >= 2 && b[0] == segment.start && b[|b| - 1] == segment.end
  {
    hide StableSort, BoundSet;
    var b := Bounds(segment, turns);
    BoundsInOrder(segment, turns);
    assert segment.start in b && segment.end in b;
    forall t | t in b ensures segment.start <= t <= segment.end {
    }
    ExtremesOf(b, segment.start, segment.end);
  }

  lemma ExtremesOf(b: seq<real>, lo: real, hi: real)
    requires Ordered(b) && lo in b && hi in b && lo < hi
    requires forall t :: t in b ==> lo <= t <= hi
    ensures |b| >= 2 && b[0] == lo && b[|b| - 1] == hi
  {
    var i :| 0 <= i < |b| && b[i] == lo;
    var j :| 0 <= j < |b| && b[j] == hi;
    assert b[0] in b && b[|b| - 1] in b;
    assert b[0] <= b[i] && b[j] <= b[|b| - 1];
  }

  /** Between two neighbouring bounds the same turns are heard throughout. */
  lemma {:induction false} SameCovering(segment: Segment, turns: seq<Turn>, lo: real, hi: real, s: real, t: real)
    requires segment.start <= lo < s < hi <= segment.end && lo < t < hi
    requires forall x :: lo < x < hi ==> !Bound(segment, turns, x)
    ensures Covering(turns, s) == Covering(turns, t)
  {
    if turns != [] {
      var rest := turns[1..];
      forall x | lo < x < hi ensures !Bound(segment, rest, x) {
        assert forall i :: 0 <= i < |rest| ==> (EdgeOf(segment, rest, x, i) <==> EdgeOf(segment, turns, x, i + 1));
        assert !Bound(segment, turns, x);
      }
      SameCovering(segment, rest, lo, hi, s, t);
      if Meets(segment, turns[0]) {
        var from, to := Max(turns[0].start, segment.start), Min(turns[0].end, segment.end);
        assert EdgeOf(segment, turns, from, 0) && EdgeOf(segment, turns, to, 0);
        assert Bound(segment, turns, from) && Bound(segment, turns, to);
      }
    }
  }

  // ---- who each elementary stretch belongs to

  function Middle(b: seq<real>, i: int): real
    requires 0 <= i < |b| - 1
  {
    (b[i] + b[i + 1]) / 2.0
  }

  /** Who is heard on each elementary stretch. */
  function Heard(turns: seq<Turn>, shares: Tally<string>, b: seq<real>): (raw: seq<Option<string>>)
    requires b != []
    ensures |raw| == |b| - 1
  {
    seq(|b| - 1, i requires 0 <= i < |b| - 1 => HeardAt(turns, shares, Middle(b, i)))
  }

  function FirstSome(raw: seq<Option<string>>): Option<string> {
    if raw == [] then None else if raw[0].Some? then raw[0] else FirstSome(raw[1..])
  }

  /** Silence joins what came before it; leading silence what comes first. */
  function FilledAt(raw: seq<Option<string>>, i: int): Option<string>
    requires 0 <= i < |raw|
  {
    if raw[i].Some? then raw[i] else if i > 0 then FilledAt(raw, i - 1) else FirstSome(raw)
  }

  function Filled(raw: seq<Option<string>>): seq<Option<string>> {
    seq(|raw|, i requires 0 <= i < |raw| => FilledAt(raw, i))
  }

  lemma {:induction false} SomeoneFirst(raw: seq<Option<string>>, i: int)
    requires 0 <= i < |raw| && raw[i].Some?
    ensures FirstSome(raw).Some? && FirstSome(raw) in raw
  {
    if raw[0].None? {
      SomeoneFirst(raw[1..], i - 1);
    }
  }

  lemma {:induction false} AllFilled(raw: seq<Option<string>>, i: int)
    requires 0 <= i < |raw| && FirstSome(raw).Some? && FirstSome(raw) in raw
    ensures FilledAt(raw, i).Some? && FilledAt(raw, i) in raw
  {
    if raw[i].None? && i > 0 {
      AllFilled(raw, i - 1);
    }
  }

  method FillSilence(raw: seq<Option<string>>) returns (filled: seq<Option<string>>)
    ensures filled == Filled(raw) && |filled| == |raw|
  {
    var spans := new Option<string>[|raw|](i requires 0 <= i < |raw| => raw[i]);
    for index := 0 to |raw|
      invariant forall i :: 0 <= i < index ==> spans[i] == FilledAt(raw, i)
      invariant forall i :: index <= i < |raw| ==> spans[i] == raw[i]
    {
      if spans[index].None? {
        assert spans[index..] == raw[index..];
        var following := FirstSome(spans[index..]);
        assert raw[0..] == raw;
        spans[index] := if index > 0 then spans[index - 1] else following;
      }
    }
    filled := spans[..];
  }

  /** A segment that has any share is heard on some stretch. */
  lemma SomeoneIsHeard(segment: Segment, turns: seq<Turn>, shares: Tally<string>)
    requires segment.start < segment.end && SharesOf(segment, turns).keys != []
    ensures var b := Bounds(segment, turns); b != [] && exists i :: 0 <= i < |b| - 1 && Heard(turns, shares, b)[i].Some?
  {
    hide Bounds, SharesOf, Covering;
    var b := Bounds(segment, turns);
    var name := SharesOf(segment, turns).keys[0];
    SharesAreOverlaps(segment, turns);
    BoundsInOrder(segment, turns);
    assert name in SharesOf(segment, turns).keys;
    var k :| Speaks(segment, turns, name, k);
    var lo, hi := Max(turns[k].start, segment.start), Min(turns[k].end, segment.end);
    assert EdgeOf(segment, turns, lo, k) && EdgeOf(segment, turns, hi, k);
    assert Bound(segment, turns, lo) && Bound(segment, turns, hi);
    var i := StretchAfter(b, lo, hi);
    assert Covers(turns, Middle(b, i), name, k);
    CoveringTurns(turns, Middle(b, i), name);
    assert Heard(turns, shares, b)[i].Some?;
  }

  lemma StretchAfter(b: seq<real>, lo: real, hi: real) returns (i: int)
    requires Ordered(b) && lo in b && hi in b && lo < hi
    ensures 0 <= i < |b| - 1 && lo == b[i] < Middle(b, i) < b[i + 1] <= hi
  {
    i :| 0 <= i < |b| && b[i] == lo;
    var j :| 0 <= j < |b| && b[j] == hi;
    assert b[i + 1] <= b[j];
  }

  // ---- neighbours with one speaker merge

  /** One stretch of the segment; `speaker` is absent only where nobody is ever heard. */
  datatype Span = Span(start: real, end: real, speaker: Option<string>)

  function Push(merged: seq<Span>, span: Span): seq<Span> {
    var last := |merged| - 1;
    if merged != [] && merged[last].speaker == span.speaker then merged[last := merged[last].(end := span.end)]
    else merged + [span]
  }

  function Merged(b: seq<real>, labels: seq<Option<string>>, k: int): seq<Span>
    requires 0 <= k <= |labels| < |b|
  {
    if k == 0 then [] else Push(Merged(b, labels, k - 1), Span(b[k - 1], b[k], labels[k - 1]))
  }

  const Spoken: Span -> bool := (span: Span) => span.speaker.Some?

  function SpansOf(segment: Segment, turns: seq<Turn>, shares: Tally<string>): seq<Span> {
    var b := Bounds(segment, turns);
    if b == [] then []
    else
      var labels := Filled(Heard(turns, shares, b));
      Filter(Spoken, Merged(b, labels, |labels|))
  }

  method SpeakerSpans(segment: Segment, turns: seq<Turn>, shares: Tally<string>) returns (spans: seq<Span>)
    ensures spans == SpansOf(segment, turns, shares)
  {
    hide Filled, HeardAt;
    var bounds := AddBound([segment.start], segment.end);
    for i := 0 to |turns|
      invariant bounds == BoundSet(segment, turns[..i])
    {
      var turn := turns[i];
      assert turns[..i + 1][..i] == turns[..i];
      if turn.end > segment.start && turn.start < segment.end {
        bounds := AddBound(bounds, Max(turn.start, segment.start));
        bounds := AddBound(bounds, Min(turn.end, segment.end));
      }
    }
    assert turns[..|turns|] == turns;
    var ordered := StableSort(Itself, bounds);
    if ordered == [] {
      return [];
    }
    var raw := [];
    for i := 0 to |ordered| - 1
      invariant |raw| == i && forall j :: 0 <= j < i ==> raw[j] == Heard(turns, shares, ordered)[j]
    {
      raw := raw + [HeardAt(turns, shares, (ordered[i] + ordered[i + 1]) / 2.0)];
    }
    assert raw == Heard(turns, shares, ordered);
    var labels := FillSilence(raw);
    var merged := MergeNeighbours(ordered, labels);
    spans := Filter(Spoken, merged);
  }

  method MergeNeighbours(b: seq<real>, labels: seq<Option<string>>) returns (merged: seq<Span>)
    requires |labels| == |b| - 1
    ensures merged == Merged(b, labels, |labels|)
  {
    merged := [];
    for i := 0 to |labels|
      invariant merged == Merged(b, labels, i)
    {
      var last := |merged| - 1;
      if merged != [] && merged[last].speaker == labels[i] {
        merged := merged[last := merged[last].(end := b[i + 1])];
      } else {
        merged := merged + [Span(b[i], b[i + 1], labels[i])];
      }
    }
  }

  // ---- what the spans are

  /** The spans tile [lo, hi), neighbours with different speakers. */
  ghost predicate Tiles(lo: real, hi: real, spans: seq<Span>) {
    && spans != [] && spans[0].start == lo && spans[|spans| - 1].end == hi
    && (forall i :: 0 <= i < |spans| ==> spans[i].start < spans[i].end)
    && (forall i :: 0 < i < |spans| ==> spans[i - 1].end == spans[i].start && spans[i - 1].speaker != spans[i].speaker)
  }

  /** Stretch i lies in span s, under its own label. */
  ghost predicate LiesIn(b: seq<real>, labels: seq<Option<string>>, spans: seq<Span>, i: int, s: int)
    requires 0 <= i < |labels| < |b|
  {
    0 <= s < |spans| && spans[s].start <= b[i] && b[i + 1] <= spans[s].end && spans[s].speaker == labels[i]
  }

  lemma OneTile(span: Span)
    requires span.start < span.end
    ensures Tiles(span.start, span.end, [span])
  {
  }

  lemma PushTiles(lo: real, spans: seq<Span>, span: Span)
    requires Tiles(lo, span.start, spans) && span.start < span.end
    ensures Tiles(lo, span.end, Push(spans, span))
  {
    var last := |spans| - 1;
    assert spans[last].start < spans[last].end;
  }

  lemma {:induction false} MergedTiles(b: seq<real>, labels: seq<Option<string>>, k: int)
    requires 0 < k <= |labels| < |b| && Ordered(b)
    ensures Tiles(b[0], b[k], Merged(b, labels, k))
    ensures Merged(b, labels, k)[|Merged(b, labels, k)| - 1].speaker == labels[k - 1]
    ensures forall s :: 0 <= s < |Merged(b, labels, k)| ==> Merged(b, labels, k)[s].speaker in labels
  {
    hide Tiles;
    var before, span := Merged(b, labels, k - 1), Span(b[k - 1], b[k], labels[k - 1]);
    if k == 1 {
      OneTile(span);
      assert before == [] && Merged(b, labels, k) == [span];
    } else {
      MergedTiles(b, labels, k - 1);
      PushTiles(b[0], before, span);
    }
  }

  lemma {:induction false} StretchesLieIn(b: seq<real>, labels: seq<Option<string>>, k: int, i: int) returns (s: int)
    requires 0 <= i < k <= |labels| < |b| && Ordered(b)
    ensures LiesIn(b, labels, Merged(b, labels, k), i, s)
  {
    if i == k - 1 {
      s := |Merged(b, labels, k)| - 1;
      if k > 1 {
        MergedTiles(b, labels, k - 1);
        var before := Merged(b, labels, k - 1);
        assert before[|before| - 1].start < before[|before| - 1].end;
      }
    } else {
      s := StretchesLieIn(b, labels, k - 1, i);
    }
  }

  lemma {:induction false} FilterKeepsAll<T>(p: T -> bool, xs: seq<T>)
    requires forall x :: x in xs ==> p(x)
    ensures Filter(p, xs) == xs
  {
    if xs != [] {
      FilterKeepsAll(p, xs[1..]);
    }
  }

  /** The labels of a segment that has shares: each is one heard somewhere on it. */
  lemma LabelsAreHeard(segment: Segment, turns: seq<Turn>, shares: Tally<string>)
    requires segment.start < segment.end && SharesOf(segment, turns).keys != []
    ensures var b := Bounds(segment, turns); b != [] && var raw := Heard(turns, shares, b);
      forall i :: 0 <= i < |raw| ==> Filled(raw)[i].Some? && Filled(raw)[i] in raw
  {
    hide Bounds, SharesOf, HeardAt, FirstSome, FilledAt;
    SomeoneIsHeard(segment, turns, shares);
    var raw := Heard(turns, shares, Bounds(segment, turns));
    var i :| 0 <= i < |raw| && raw[i].Some?;
    SomeoneFirst(raw, i);
    forall j | 0 <= j < |raw| ensures Filled(raw)[j].Some? && Filled(raw)[j] in raw {
      AllFilled(raw, j);
    }
  }

  /** The spans of a segment that has shares tile it exactly, neighbours differ, and every speaker
      is heard somewhere in the segment. */
  lemma SpansTile(segment: Segment, turns: seq<Turn>, shares: Tally<string>)
    requires segment.start < segment.end && SharesOf(segment, turns).keys != []
    ensures Tiles(segment.start, segment.end, SpansOf(segment, turns, shares))
    ensures forall s :: 0 <= s < |SpansOf(segment, turns, shares)| ==>
      var speaker := SpansOf(segment, turns, shares)[s].speaker;
      speaker.Some? && exists i :: 0 <= i < |turns| && turns[i].speaker == speaker.value
    ensures var b := Bounds(segment, turns);
      b != [] && SpansOf(segment, turns, shares) == Merged(b, Filled(Heard(turns, shares, b)), |b| - 1)
  {
    hide Bounds, SharesOf, Heard, Filled, Merged, Tiles;
    var b := Bounds(segment, turns);
    BoundsInOrder(segment, turns);
    OutermostBounds(segment, turns);
    LabelsAreHeard(segment, turns, shares);
    var raw := Heard(turns, shares, b);
    var labels := LabelsOf(raw);
    MergedTiles(b, labels, |labels|);
    var merged := Merged(b, labels, |labels|);
    MergedAreTurns(turns, shares, b, labels, merged);
    FilterKeepsAll(Spoken, merged);
  }

  lemma MergedAreTurns(turns: seq<Turn>, shares: Tally<string>, b: seq<real>, labels: seq<Option<string>>, merged: seq<Span>)
    requires b != [] && forall i :: 0 <= i < |labels| ==> labels[i].Some? && labels[i] in Heard(turns, shares, b)
    requires forall s :: 0 <= s < |merged| ==> merged[s].speaker in labels
    ensures forall s :: 0 <= s < |merged| ==>
      merged[s].speaker.Some? && exists i :: 0 <= i < |turns| && turns[i].speaker == merged[s].speaker.value
  {
    hide Heard;
    forall s | 0 <= s < |merged|
      ensures merged[s].speaker.Some? && exists i :: 0 <= i < |turns| && turns[i].speaker == merged[s].speaker.value
    {
      var j :| 0 <= j < |labels| && labels[j] == merged[s].speaker;
      HeardIsATurn(turns, shares, b, labels[j].value);
    }
  }

  lemma LabelsOf(raw: seq<Option<string>>) returns (labels: seq<Option<string>>)
    ensures labels == Filled(raw) && |labels| == |raw|
  {
    labels := Filled(raw);
  }

  lemma HeardIsATurn(turns: seq<Turn>, shares: Tally<string>, b: seq<real>, name: string)
    requires b != [] && Some(name) in Heard(turns, shares, b)
    ensures exists i :: 0 <= i < |turns| && turns[i].speaker == name
  {
    var k :| 0 <= k < |b| - 1 && HeardAt(turns, shares, Middle(b, k)) == Some(name);
    CoveringTurns(turns, Middle(b, k), name);
    var i :| Covers(turns, Middle(b, k), name, i);
  }

  lemma {:induction false} SpansInOrder(lo: real, hi: real, spans: seq<Span>, s: int, r: int)
    requires Tiles(lo, hi, spans) && 0 <= s < r < |spans|
    ensures spans[s].end <= spans[r].start
  {
    if s < r - 1 {
      SpansInOrder(lo, hi, spans, s, r - 1);
    }
  }

  lemma {:induction false} StretchAround(b: seq<real>, t: real) returns (i: int)
    requires Ordered(b) && |b| >= 2 && b[0] < t < b[|b| - 1] && t !in b
    ensures 0 <= i < |b| - 1 && b[i] < t < b[i + 1]
    ensures forall x :: b[i] < x < b[i + 1] ==> x !in b
  {
    i := 0;
    while b[i + 1] < t
      invariant 0 <= i < |b| - 1 && b[i] < t
      decreases |b| - i
    {
      i := i + 1;
    }
    assert b[i + 1] in b;
    forall j | 0 <= j < |b| ensures b[j] <= b[i] || b[i + 1] <= b[j] {
      assert j <= i || i + 1 <= j;
    }
  }

  /** Away from the bounds, the span an instant falls in names exactly who is heard there:
      of the turns covering it, a speaker of largest share. */
  lemma SpansNameWhoIsHeard(segment: Segment, turns: seq<Turn>, shares: Tally<string>, s: int, t: real)
    requires segment.start < segment.end && SharesOf(segment, turns).keys != []
    requires var spans := SpansOf(segment, turns, shares); 0 <= s < |spans| && spans[s].start < t < spans[s].end
    requires !Bound(segment, turns, t) && HeardAt(turns, shares, t).Some?
    ensures SpansOf(segment, turns, shares)[s].speaker == HeardAt(turns, shares, t)
  {
    hide Bounds, SharesOf, SpansOf, Bound, Covering, Merged;
    var b := Bounds(segment, turns);
    var spans := SpansOf(segment, turns, shares);
    BoundsInOrder(segment, turns);
    OutermostBounds(segment, turns);
    SpansTile(segment, turns, shares);
    WithinTheWhole(segment.start, segment.end, spans, s, t);
    var i := StretchAround(b, t);
    SameCovering(segment, turns, b[i], b[i + 1], Middle(b, i), t);
    var raw := Heard(turns, shares, b);
    assert raw[i] == HeardAt(turns, shares, t);
    var r := StretchesLieIn(b, Filled(raw), |b| - 1, i);
    if r < s {
      SpansInOrder(segment.start, segment.end, spans, r, s);
    } else if s < r {
      SpansInOrder(segment.start, segment.end, spans, s, r);
    }
  }

  lemma WithinTheWhole(lo: real, hi: real, spans: seq<Span>, s: int, t: real)
    requires Tiles(lo, hi, spans) && 0 <= s < |spans| && spans[s].start < t < spans[s].end
    ensures lo < t < hi
  {
    if s > 0 {
      SpansInOrder(lo, hi, spans, 0, s);
    }
    if s < |spans| - 1 {
      SpansInOrder(lo, hi, spans, s, |spans| - 1);
    }
  }
}
