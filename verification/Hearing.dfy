/** src/vemsa/pipeline/diarize.py, _speaker_spans: whose each instant of a split segment is. */
module Hearing {
  import opened Base
  import opened Models
  import opened Tallies
  import opened Spans
  import opened Mixed

  // ---- who is heard

  ghost predicate SpeaksAt(turns: seq<Turn>, i: int, t: real) {
    0 <= i < |turns| && turns[i].start < t < turns[i].end
  }

  /** Nobody exactly when no turn runs; else one of those whose turns run, nobody of whom is heard longer in the segment. */
  ghost predicate HeardRightly(segment: Segment, turns: seq<Turn>, t: real, who: Option<string>) {
    && (who.None? <==> forall i :: !SpeaksAt(turns, i, t))
    && (who.Some? ==>
         && (exists i :: SpeaksAt(turns, i, t) && turns[i].speaker == who.value)
         && (forall i :: SpeaksAt(turns, i, t) ==> TimeOf(segment, turns, turns[i].speaker) <= TimeOf(segment, turns, who.value)))
  }

  lemma SharesAreTimes(segment: Segment, turns: seq<Turn>, name: string)
    requires name in SharesOf(segment, turns).sums
    ensures Get(SharesOf(segment, turns))(name) == TimeOf(segment, turns, name)
  {
    hide TotalOf, Overlaps, TimeOf, TallyOf;
    SharesAreOverlaps(segment, turns);
    TotalsAreTimes(segment, turns, name);
  }

  lemma HeardAtIs(segment: Segment, turns: seq<Turn>, t: real)
    requires segment.start < t < segment.end
    ensures HeardRightly(segment, turns, t, HeardAt(turns, SharesOf(segment, turns), t))
  {
    hide SharesOf, Covering, TimeOf;
    var shares, covering := SharesOf(segment, turns), Covering(turns, t);
    forall name ensures name in covering <==> exists i :: Covers(turns, t, name, i) {
      CoveringTurns(turns, t, name);
    }
    forall i | SpeaksAt(turns, i, t)
      ensures turns[i].speaker in covering && Get(shares)(turns[i].speaker) == TimeOf(segment, turns, turns[i].speaker)
    {
      assert Covers(turns, t, turns[i].speaker, i);
      CoveringHaveShares(segment, turns, t, turns[i].speaker);
      SharesAreTimes(segment, turns, turns[i].speaker);
    }
    if covering != [] {
      var best := FirstMax(covering, Get(shares));
      var i :| Covers(turns, t, best, i);
      assert SpeaksAt(turns, i, t);
    }
  }

  // ---- whom a silence goes to

  /** raw[j] is the last somebody up to i; where nobody came before, the first after. */
  ghost predicate FillsFrom(raw: seq<Option<string>>, i: int, j: int) {
    && 0 <= i < |raw| && 0 <= j < |raw| && raw[j].Some?
    && if j <= i then forall m :: j < m <= i ==> raw[m].None? else forall m :: 0 <= m < j ==> raw[m].None?
  }

  lemma {:induction false} FirstSomeIs(raw: seq<Option<string>>, i: int) returns (j: int)
    requires 0 <= i < |raw| && raw[i].Some?
    ensures 0 <= j < |raw| && raw[j].Some? && FirstSome(raw) == raw[j] && forall m :: 0 <= m < j ==> raw[m].None?
  {
    if raw[0].Some? {
      return 0;
    }
    var k := FirstSomeIs(raw[1..], i - 1);
    j := k + 1;
    forall m | 0 <= m < j ensures raw[m].None? {
      assert m > 0 ==> raw[m] == raw[1..][m - 1];
    }
  }

  lemma {:induction false} FilledIs(raw: seq<Option<string>>, i: int, any: int) returns (j: int)
    requires 0 <= i < |raw| && 0 <= any < |raw| && raw[any].Some?
    ensures FillsFrom(raw, i, j) && FilledAt(raw, i) == raw[j]
  {
    if raw[i].Some? {
      j := i;
    } else if i > 0 {
      j := FilledIs(raw, i - 1, any);
      assert j != i;
    } else {
      j := FirstSomeIs(raw, any);
    }
  }

  /** A turn that reaches into the segment starts or ends at t. */
  ghost predicate AtEdge(segment: Segment, turns: seq<Turn>, t: real) {
    exists i :: 0 <= i < |turns| && turns[i].start < segment.end && segment.start < turns[i].end && (turns[i].start == t || turns[i].end == t)
  }

  ghost predicate Quiet(turns: seq<Turn>, t: real) {
    forall i :: !SpeaksAt(turns, i, t)
  }

  /** At t there is silence, or this speaker is the one heard. */
  ghost predicate OnlyHeard(segment: Segment, turns: seq<Turn>, who: string, t: real) {
    Quiet(turns, t) || HeardRightly(segment, turns, t, Some(who))
  }

  /** An instant belongs to the speaker last heard up to it, or to the first one heard when that comes later. */
  ghost predicate BelongsTo(segment: Segment, turns: seq<Turn>, t: real, who: string) {
    exists at ::
      && segment.start < at < segment.end && !AtEdge(segment, turns, at) && HeardRightly(segment, turns, at, Some(who))
      && (at <= t ==> forall x :: at <= x <= t && !AtEdge(segment, turns, x) ==> OnlyHeard(segment, turns, who, x))
      && (t < at ==> forall x :: segment.start < x <= at && !AtEdge(segment, turns, x) ==> OnlyHeard(segment, turns, who, x))
  }

  lemma BoundIsEdge(segment: Segment, turns: seq<Turn>, t: real)
    requires segment.start < t < segment.end
    ensures t in Bounds(segment, turns) <==> AtEdge(segment, turns, t)
  {
    hide Bounds;
    BoundsInOrder(segment, turns);
    if AtEdge(segment, turns, t) {
      var i :| 0 <= i < |turns| && turns[i].start < segment.end && segment.start < turns[i].end && (turns[i].start == t || turns[i].end == t);
      assert EdgeOf(segment, turns, t, i);
    }
  }

  lemma MiddleIsNoEdge(segment: Segment, turns: seq<Turn>, i: int)
    requires segment.start < segment.end && 0 <= i < |Bounds(segment, turns)| - 1
    ensures var t := Middle(Bounds(segment, turns), i); segment.start < t < segment.end && !AtEdge(segment, turns, t)
  {
    hide Bounds, Bound, AtEdge;
    var b := Bounds(segment, turns);
    var t := Middle(b, i);
    BoundsInOrder(segment, turns);
    OutermostBounds(segment, turns);
    assert b[0] <= b[i] < t < b[i + 1] <= b[|b| - 1];
    BoundIsEdge(segment, turns, t);
    forall j | 0 <= j < |b| ensures b[j] != t {
      assert b[j] <= b[i] || b[i + 1] <= b[j];
    }
  }

  /** Whoever is heard at an instant that is no edge is heard on the whole stretch it lies in. */
  lemma HeardOnStretch(segment: Segment, turns: seq<Turn>, t: real) returns (i: int)
    requires segment.start < t < segment.end && !AtEdge(segment, turns, t)
    ensures var b, shares := Bounds(segment, turns), SharesOf(segment, turns);
      && 0 <= i < |b| - 1 && b[i] < t < b[i + 1] && Heard(turns, shares, b)[i] == HeardAt(turns, shares, t)
  {
    hide Bounds, SharesOf, Bound, AtEdge, Covering;
    var b := Bounds(segment, turns);
    BoundsInOrder(segment, turns);
    OutermostBounds(segment, turns);
    BoundIsEdge(segment, turns, t);
    i := StretchAround(b, t);
    assert b[0] <= b[i] && b[i + 1] <= b[|b| - 1];
    SameCovering(segment, turns, b[i], b[i + 1], Middle(b, i), t);
  }

  lemma StretchOrder(b: seq<real>, i: int, j: int, s: real, t: real)
    requires Ordered(b) && 0 <= i < |b| - 1 && 0 <= j < |b| - 1 && b[i] < s < b[i + 1] && b[j] < t < b[j + 1] && s <= t
    ensures i <= j
  {
  }

  /** What is heard on the stretches tells what is heard at each instant between two of them. */
  lemma OnlyOneHeard(segment: Segment, turns: seq<Turn>, lo: int, hi: int, j: int, s: real, t: real)
    requires segment.start < s < segment.end && segment.start < t < segment.end && Bounds(segment, turns) != []
    requires var raw := Heard(turns, SharesOf(segment, turns), Bounds(segment, turns));
      && 0 <= lo <= hi < |raw| && 0 <= j < |raw| && raw[j].Some? && forall m :: lo <= m <= hi ==> raw[m].None? || raw[m] == raw[j]
    requires var b := Bounds(segment, turns); b[lo] <= s && t <= b[hi + 1]
    ensures var raw := Heard(turns, SharesOf(segment, turns), Bounds(segment, turns));
      forall x :: s <= x <= t && !AtEdge(segment, turns, x) ==> OnlyHeard(segment, turns, raw[j].value, x)
  {
    hide Bounds, SharesOf, AtEdge, HeardAt, HeardRightly, Heard;
    var b, shares := Bounds(segment, turns), SharesOf(segment, turns);
    var raw := Heard(turns, shares, b);
    BoundsInOrder(segment, turns);
    forall x | s <= x <= t && !AtEdge(segment, turns, x) ensures OnlyHeard(segment, turns, raw[j].value, x) {
      var m := HeardOnStretch(segment, turns, x);
      assert lo <= m <= hi;
      HeardAtIs(segment, turns, x);
      HeardMeans(segment, turns, x, raw[m]);
    }
  }

  lemma HeardMeans(segment: Segment, turns: seq<Turn>, t: real, who: Option<string>)
    requires HeardRightly(segment, turns, t, who)
    ensures who.None? ==> Quiet(turns, t)
  {
    hide TimeOf;
  }

  /** Inside a span, away from the turns' edges, every instant belongs to the span's speaker. */
  lemma SpansGoTo(segment: Segment, turns: seq<Turn>, s: int, t: real)
    requires segment.start < segment.end && SharesOf(segment, turns).keys != [] && !AtEdge(segment, turns, t)
    requires var spans := SpansOf(segment, turns, SharesOf(segment, turns)); 0 <= s < |spans| && spans[s].start < t < spans[s].end
    ensures var speaker := SpansOf(segment, turns, SharesOf(segment, turns))[s].speaker;
      speaker.Some? && BelongsTo(segment, turns, t, speaker.value)
  {
    hide Bounds, SharesOf, SpansOf, AtEdge, Heard, Filled, Merged, OnlyHeard, HeardRightly, BelongsTo;
    var shares := SharesOf(segment, turns);
    var spans, b := SpansOf(segment, turns, shares), Bounds(segment, turns);
    BoundsInOrder(segment, turns);
    SpansTile(segment, turns, shares);
    WithinTheWhole(segment.start, segment.end, spans, s, t);
    var i := HeardOnStretch(segment, turns, t);
    SpanOfStretch(segment, turns, s, t, i);
    SomeoneIsHeard(segment, turns, shares);
    var raw := Heard(turns, shares, b);
    var any :| 0 <= any < |raw| && raw[any].Some?;
    var j := FilledIs(raw, i, any);
    BelongsBy(segment, turns, t, i, j);
  }

  lemma SpanOfStretch(segment: Segment, turns: seq<Turn>, s: int, t: real, i: int)
    requires segment.start < segment.end && SharesOf(segment, turns).keys != []
    requires var spans := SpansOf(segment, turns, SharesOf(segment, turns)); 0 <= s < |spans| && spans[s].start < t < spans[s].end
    requires var b := Bounds(segment, turns); 0 <= i < |b| - 1 && b[i] < t < b[i + 1]
    ensures var shares := SharesOf(segment, turns);
      SpansOf(segment, turns, shares)[s].speaker == FilledAt(Heard(turns, shares, Bounds(segment, turns)), i)
  {
    hide Bounds, SharesOf, SpansOf, Heard, Merged;
    var shares := SharesOf(segment, turns);
    var spans, b := SpansOf(segment, turns, shares), Bounds(segment, turns);
    var raw := Heard(turns, shares, b);
    BoundsInOrder(segment, turns);
    SpansTile(segment, turns, shares);
    var r := StretchesLieIn(b, Filled(raw), |b| - 1, i);
    if r < s {
      SpansInOrder(segment.start, segment.end, spans, r, s);
    } else if s < r {
      SpansInOrder(segment.start, segment.end, spans, s, r);
    }
  }

  lemma BelongsBy(segment: Segment, turns: seq<Turn>, t: real, i: int, j: int)
    requires segment.start < t < segment.end
    requires !AtEdge(segment, turns, t)
    requires var b := Bounds(segment, turns); 0 <= i < |b| - 1 && b[i] < t < b[i + 1]
    requires FillsFrom(Heard(turns, SharesOf(segment, turns), Bounds(segment, turns)), i, j)
    ensures BelongsTo(segment, turns, t, Heard(turns, SharesOf(segment, turns), Bounds(segment, turns))[j].value)
  {
    hide Bounds, SharesOf, AtEdge, HeardAt, OnlyHeard, HeardRightly;
    var b, shares := Bounds(segment, turns), SharesOf(segment, turns);
    var raw := Heard(turns, shares, b);
    BoundsInOrder(segment, turns);
    OutermostBounds(segment, turns);
    var at := if i == j then t else Middle(b, j);
    MiddleIsNoEdge(segment, turns, j);
    HeardAtIs(segment, turns, at);
    assert j < i ==> b[j + 1] <= b[i];
    assert i < j ==> b[i + 1] <= b[j];
    if i == j {
      var m := HeardOnStretch(segment, turns, t);
      StretchOrder(b, m, i, t, t);
      StretchOrder(b, i, m, t, t);
    }
    if j <= i {
      OnlyOneHeard(segment, turns, j, i, j, at, t);
    } else {
      forall x | segment.start < x <= at && !AtEdge(segment, turns, x) ensures OnlyHeard(segment, turns, raw[j].value, x) {
        OnlyOneHeard(segment, turns, 0, j, j, x, at);
      }
    }
  }
}
