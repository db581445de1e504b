/** src/vemsa/pipeline/realign.py: alignment windows. */
module Windows {
  import opened Base
  import opened Models
  import opened Text
  import opened Normalize

  // ---- group_windows

  function StartAt(segments: seq<Segment>): int -> real {
    (i: int) => if 0 <= i < |segments| then segments[i].start else 0.0
  }

  /** Segment indices in time order, ties in input order. */
  function TimeOrder(segments: seq<Segment>): seq<int> {
    StableSort(StartAt(segments), seq(|segments|, (i: int) => i))
  }

  predicate HasTokens(u: CharTable, segments: seq<Segment>, i: int) {
    0 <= i < |segments| && AlignableTokens(u, segments[i].text) > 0
  }

  /** The segments that take part in the alignment, in time order. */
  function Alignable(u: CharTable, segments: seq<Segment>): seq<int> {
    Filter((i: int) => HasTokens(u, segments, i), TimeOrder(segments))
  }

  ghost predicate Within(segments: seq<Segment>, indices: seq<int>) {
    forall k :: 0 <= k < |indices| ==> 0 <= indices[k] < |segments|
  }

  ghost predicate Distinct(indices: seq<int>) {
    forall p, q :: 0 <= p < q < |indices| ==> indices[p] != indices[q]
  }

  ghost predicate ValidSegments(segments: seq<Segment>) {
    forall i :: 0 <= i < |segments| ==> ValidSpan(segments[i].start, segments[i].end)
  }

  /** The latest end among the given segments. */
  function Reach(segments: seq<Segment>, group: seq<int>): real
    requires group != [] && Within(segments, group)
  {
    var n := |group| - 1;
    if n == 0 then segments[group[0]].end
    else Max(Reach(segments, group[..n]), segments[group[n]].end)
  }

  function Earliest(segments: seq<Segment>, group: seq<int>): real
    requires group != [] && Within(segments, group)
  {
    var n := |group| - 1;
    if n == 0 then segments[group[0]].start
    else Min(Earliest(segments, group[..n]), segments[group[n]].start)
  }

  lemma {:induction false} ReachAndEarliest(segments: seq<Segment>, group: seq<int>)
    requires group != [] && Within(segments, group)
    ensures forall k :: 0 <= k < |group| ==>
      Earliest(segments, group) <= segments[group[k]].start && segments[group[k]].end <= Reach(segments, group)
    ensures exists k :: 0 <= k < |group| && segments[group[k]].start == Earliest(segments, group)
    ensures exists k :: 0 <= k < |group| && segments[group[k]].end == Reach(segments, group)
    decreases |group|
  {
    var n := |group| - 1;
    if n > 0 {
      var before := group[..n];
      ReachAndEarliest(segments, before);
      var k, m :| 0 <= k < n && 0 <= m < n
        && segments[before[k]].start == Earliest(segments, before)
        && segments[before[m]].end == Reach(segments, before);
      assert before[k] == group[k] && before[m] == group[m];
    }
  }

  /** What the grouping promises. The groups cut the time order into consecutive non-empty
      stretches; a segment joins the running window exactly when it starts within `gap` of
      the latest end so far. */
  ghost predicate IsGrouping(u: CharTable, segments: seq<Segment>, gap: real, groups: seq<seq<int>>) {
    && Flatten(groups) == Alignable(u, segments)
    && WellFormed(segments, groups)
    && (forall g :: 0 <= g < |groups| ==> Linked(segments, gap, groups[g]))
    && (forall g :: 1 <= g < |groups| ==> Apart(segments, gap, groups[g - 1], groups[g]))
  }

  ghost predicate WellFormed(segments: seq<Segment>, groups: seq<seq<int>>) {
    forall g :: 0 <= g < |groups| ==> groups[g] != [] && Within(segments, groups[g])
  }

  ghost predicate Linked(segments: seq<Segment>, gap: real, group: seq<int>)
    requires Within(segments, group)
  {
    forall k :: 1 <= k < |group| ==> segments[group[k]].start - Reach(segments, group[..k]) <= gap
  }

  ghost predicate Apart(segments: seq<Segment>, gap: real, before: seq<int>, after: seq<int>)
    requires before != [] && Within(segments, before) && after != [] && Within(segments, after)
  {
    segments[after[0]].start - Reach(segments, before) > gap
  }

  lemma TimeOrderWithin(segments: seq<Segment>)
    ensures Within(segments, TimeOrder(segments)) && Distinct(TimeOrder(segments))
    ensures SortedBy(StartAt(segments), TimeOrder(segments))
    ensures forall i :: 0 <= i < |segments| ==> i in TimeOrder(segments)
  {
    var ids := seq(|segments|, (i: int) => i);
    var order := TimeOrder(segments);
    StableSortSorts(StartAt(segments), ids);
    forall k | 0 <= k < |order| ensures 0 <= order[k] < |segments| {
      var i := order[k];
      assert i in multiset(order);
      assert i in ids;
    }
    forall i | 0 <= i < |segments| ensures i in order {
      assert ids[i] == i;
      assert i in multiset(ids);
    }
    NoRepeats(ids);
    DistinctFromCounts(order);
  }

  lemma {:induction false} NoRepeats(ids: seq<int>)
    requires Distinct(ids)
    ensures forall x :: multiset(ids)[x] <= 1
    decreases |ids|
  {
    if ids != [] {
      var n := |ids| - 1;
      NoRepeats(ids[..n]);
      assert ids == ids[..n] + [ids[n]];
      assert ids[n] !in ids[..n];
    }
  }

  lemma DistinctFromCounts(xs: seq<int>)
    requires forall x :: multiset(xs)[x] <= 1
    ensures Distinct(xs)
  {
    forall p, q | 0 <= p < q < |xs| ensures xs[p] != xs[q] {
      assert xs == xs[..q] + [xs[q]] + xs[q + 1..];
      assert xs[p] == xs[..q][p] && xs[p] in multiset(xs[..q]);
      assert multiset(xs)[xs[q]] >= multiset(xs[..q])[xs[q]] + 1;
    }
  }

  lemma {:induction false} FilterDistinct(p: int -> bool, xs: seq<int>)
    requires Distinct(xs)
    ensures Distinct(Filter(p, xs))
  {
    if xs != [] {
      FilterDistinct(p, xs[1..]);
      FilterMembers(p, xs[1..]);
    }
  }

  lemma {:induction false} FilterSorted(key: int -> real, p: int -> bool, xs: seq<int>)
    requires SortedBy(key, xs)
    ensures SortedBy(key, Filter(p, xs))
  {
    if xs != [] {
      FilterSorted(key, p, xs[1..]);
      FilterMembers(p, xs[1..]);
      forall y | y in Filter(p, xs[1..]) ensures key(xs[0]) <= key(y) {
        assert y in xs[1..];
      }
    }
  }

  lemma AlignableFacts(u: CharTable, segments: seq<Segment>)
    ensures var order := Alignable(u, segments);
      Within(segments, order) && Distinct(order) && SortedBy(StartAt(segments), order)
    ensures forall i :: i in Alignable(u, segments) <==> HasTokens(u, segments, i)
  {
    var p := (i: int) => HasTokens(u, segments, i);
    TimeOrderWithin(segments);
    FilterDistinct(p, TimeOrder(segments));
    FilterSorted(StartAt(segments), p, TimeOrder(segments));
    FilterMembers(p, TimeOrder(segments));
    forall k | 0 <= k < |Alignable(u, segments)| ensures 0 <= Alignable(u, segments)[k] < |segments| {
      assert p(Alignable(u, segments)[k]);
    }
  }

  lemma ReachGrows(segments: seq<Segment>, group: seq<int>, index: int)
    requires group != [] && Within(segments, group) && 0 <= index < |segments|
    ensures Reach(segments, group + [index]) == Max(Reach(segments, group), segments[index].end)
  {
    assert (group + [index])[..|group|] == group;
  }

  lemma LinkedGrows(segments: seq<Segment>, gap: real, group: seq<int>, index: int)
    requires group != [] && Within(segments, group) && 0 <= index < |segments|
    requires Linked(segments, gap, group) && segments[index].start - Reach(segments, group) <= gap
    ensures Linked(segments, gap, group + [index])
    ensures Reach(segments, group + [index]) == Max(Reach(segments, group), segments[index].end)
  {
    hide Reach;
    var grown := group + [index];
    assert grown[..|group|] == group;
    ReachGrows(segments, group, index);
    forall k | 1 <= k < |grown| ensures segments[grown[k]].start - Reach(segments, grown[..k]) <= gap {
      if k < |group| {
        assert grown[..k] == group[..k];
      }
    }
  }

  ghost predicate GroupedSoFar(segments: seq<Segment>, gap: real, groups: seq<seq<int>>, windowEnd: Option<real>) {
    && WellFormed(segments, groups)
    && (forall g :: 0 <= g < |groups| ==> Linked(segments, gap, groups[g]))
    && (forall g :: 1 <= g < |groups| ==> Apart(segments, gap, groups[g - 1], groups[g]))
    && windowEnd == if groups == [] then None else Some(Reach(segments, groups[|groups| - 1]))
  }

  lemma JoinWindow(segments: seq<Segment>, gap: real, groups: seq<seq<int>>, windowEnd: real, index: int)
    requires GroupedSoFar(segments, gap, groups, Some(windowEnd)) && 0 <= index < |segments|
    requires segments[index].start - windowEnd <= gap
    ensures GroupedSoFar(segments, gap, groups[|groups| - 1 := groups[|groups| - 1] + [index]],
      Some(Max(windowEnd, segments[index].end)))
  {
    hide Reach, Linked;
    LinkedGrows(segments, gap, groups[|groups| - 1], index);
  }

  lemma OpenWindow(segments: seq<Segment>, gap: real, groups: seq<seq<int>>, windowEnd: Option<real>, index: int)
    requires GroupedSoFar(segments, gap, groups, windowEnd) && 0 <= index < |segments|
    requires windowEnd.None? || segments[index].start - windowEnd.value > gap
    ensures GroupedSoFar(segments, gap, groups + [[index]], Some(segments[index].end))
  {
    hide Reach, Linked;
    LinkedAlone(segments, gap, index);
  }

  method GroupWindows(u: CharTable, segments: seq<Segment>, gap: real) returns (groups: seq<seq<int>>)
    ensures IsGrouping(u, segments, gap, groups)
  {
    hide Flatten, Filter, Reach, Linked;
    var order := TimeOrder(segments);
    TimeOrderWithin(segments);
    groups := [];
    var windowEnd: Option<real> := None;
    ghost var p := (i: int) => HasTokens(u, segments, i);
    assert order[..0] == [];
    NothingYet(p);
    for k := 0 to |order|
      invariant Flatten(groups) == Filter(p, order[..k])
      invariant GroupedSoFar(segments, gap, groups, windowEnd)
    {
      hide GroupedSoFar;
      var index := order[k];
      var segment := segments[index];
      FilterSnoc(p, order[..k], index);
      assert order[..k + 1] == order[..k] + [index];
      if AlignableTokens(u, segment.text) == 0 {
        continue;
      }
      if windowEnd.Some? && segment.start - windowEnd.value <= gap {
        assert groups != [] by { WindowEndMeansGroups(segments, gap, groups, windowEnd); }
        var last := |groups| - 1;
        FlattenExtendLast(groups, index);
        JoinWindow(segments, gap, groups, windowEnd.value, index);
        groups := groups[last := groups[last] + [index]];
        windowEnd := Some(Max(windowEnd.value, segment.end));
      } else {
        FlattenSnoc(groups, [index]);
        OpenWindow(segments, gap, groups, windowEnd, index);
        groups := groups + [[index]];
        windowEnd := Some(segment.end);
      }
    }
    assert order[..|order|] == order;
  }

  lemma WindowEndMeansGroups(segments: seq<Segment>, gap: real, groups: seq<seq<int>>, windowEnd: Option<real>)
    requires GroupedSoFar(segments, gap, groups, windowEnd) && windowEnd.Some?
    ensures groups != []
  {
  }

  lemma LinkedAlone(segments: seq<Segment>, gap: real, index: int)
    requires 0 <= index < |segments|
    ensures Linked(segments, gap, [index]) && Reach(segments, [index]) == segments[index].end
  {
  }

  lemma NothingYet(p: int -> bool)
    ensures Filter(p, []) == Flatten<int>([]) == []
  {
  }

  // ---- window_for

  function Texts(segments: seq<Segment>, group: seq<int>): seq<string>
    requires Within(segments, group)
  {
    seq(|group|, k requires 0 <= k < |group| => segments[group[k]].text)
  }

  /** One alignment window for a group: the union of the members' windows and their
      stripped texts in time order. */
  function WindowFor(u: CharTable, segments: seq<Segment>, group: seq<int>): Segment
    requires group != [] && Within(segments, group)
  {
    PlainSegment(Earliest(segments, group), Reach(segments, group), None,
      Join(Map(t => Strip(u, t), Texts(segments, group))), [])
  }

  /** The members' token counts, added up. */
  function TotalTokens(u: CharTable, segments: seq<Segment>, group: seq<int>): nat
    requires Within(segments, group)
  {
    if group == [] then 0
    else
      var n := |group| - 1;
      assert group == group[..n] + [group[n]];
      TotalTokens(u, segments, group[..n]) + AlignableTokens(u, segments[group[n]].text)
  }

  lemma {:induction false} TotalTokensSnoc(u: CharTable, segments: seq<Segment>, group: seq<int>, i: int)
    requires Within(segments, group) && 0 <= i < |segments|
    ensures Within(segments, group + [i])
    ensures TotalTokens(u, segments, group + [i]) == TotalTokens(u, segments, group) + AlignableTokens(u, segments[i].text)
  {
    hide AlignableTokens;
    assert (group + [i])[..|group|] == group;
  }

  lemma {:induction false} TotalTokensOfNone(u: CharTable, segments: seq<Segment>)
    ensures TotalTokens(u, segments, []) == 0
  {
  }

  lemma {:induction false} TotalTokensAppend(u: CharTable, segments: seq<Segment>, a: seq<int>, b: seq<int>)
    requires Within(segments, a) && Within(segments, b)
    ensures TotalTokens(u, segments, a + b) == TotalTokens(u, segments, a) + TotalTokens(u, segments, b)
    decreases |b|
  {
    hide TotalTokens, AlignableTokens;
    if b == [] {
      assert a + b == a;
      TotalTokensOfNone(u, segments);
    } else {
      var n := |b| - 1;
      assert b == b[..n] + [b[n]];
      assert a + b == a + b[..n] + [b[n]];
      TotalTokensAppend(u, segments, a, b[..n]);
      TotalTokensSnoc(u, segments, b[..n], b[n]);
      TotalTokensSnoc(u, segments, a + b[..n], b[n]);
    }
  }

  lemma {:induction false} FlattenTokensCount(u: CharTable, segments: seq<Segment>, group: seq<int>)
    requires Within(segments, group)
    ensures |Flatten(Map(t => Tokens(u, t), Texts(segments, group)))| == TotalTokens(u, segments, group)
    decreases |group|
  {
    if group != [] {
      var n := |group| - 1;
      assert group == group[..n] + [group[n]];
      FlattenTokensCount(u, segments, group[..n]);
      var all := Map(t => Tokens(u, t), Texts(segments, group));
      assert all == Map(t => Tokens(u, t), Texts(segments, group[..n])) + [Tokens(u, segments[group[n]].text)];
      FlattenSnoc(Map(t => Tokens(u, t), Texts(segments, group[..n])), Tokens(u, segments[group[n]].text));
    }
  }

  /** A window's tokens are its members' tokens, member after member. */
  lemma {:induction false} WindowTokens(u: CharTable, segments: seq<Segment>, group: seq<int>)
    requires Sane(u) && group != [] && Within(segments, group)
    ensures Tokens(u, WindowFor(u, segments, group).text) == Flatten(Map(t => Tokens(u, t), Texts(segments, group)))
    ensures AlignableTokens(u, WindowFor(u, segments, group).text) == TotalTokens(u, segments, group)
  {
    TokensOfJoin(u, Texts(segments, group));
    FlattenTokensCount(u, segments, group);
  }

  // ---- pad_windows

  /** Time-ordered, disjoint windows of non-negative time. */
  ghost predicate Disjoint(windows: seq<Segment>) {
    && ValidSegments(windows)
    && forall i :: 1 <= i < |windows| ==> windows[i - 1].end <= windows[i].start
  }

  /** How far a window's start is pushed out: never below zero, never past the middle of the
      gap to the window before it. */
  function LeftSlack(windows: seq<Segment>, pad: real, i: int): real
    requires 0 <= i < |windows|
  {
    var room := Min(pad, windows[i].start);
    if i == 0 then room else Min(room, (windows[i].start - windows[i - 1].end) / 2.0)
  }

  /** How far a window's end is pushed out: not past the audio when its length is known,
      never past the middle of the gap to the next window. */
  function RightSlack(windows: seq<Segment>, pad: real, duration: real, i: int): real
    requires 0 <= i < |windows|
  {
    var room := if duration > 0.0 then Min(pad, Max(0.0, duration - windows[i].end)) else pad;
    if i + 1 == |windows| then room else Min(room, (windows[i + 1].start - windows[i].end) / 2.0)
  }

  function PaddedAt(windows: seq<Segment>, pad: real, duration: real, i: int): Segment
    requires 0 <= i < |windows|
  {
    windows[i].(start := windows[i].start - LeftSlack(windows, pad, i),
                end := windows[i].end + RightSlack(windows, pad, duration, i))
  }

  ghost predicate IsPadding(windows: seq<Segment>, pad: real, duration: real, padded: seq<Segment>) {
    && |padded| == |windows|
    && forall i :: 0 <= i < |windows| ==> padded[i] == PaddedAt(windows, pad, duration, i)
  }

  lemma PadLeft(windows: seq<Segment>, pad: real, i: int)
    requires Disjoint(windows) && pad >= 0.0 && 0 <= i < |windows|
    ensures var w := windows[i];
      var start := Max(0.0, w.start - pad);
      w.start - LeftSlack(windows, pad, i)
      == if i == 0 then start else Max(start, Min((windows[i - 1].end + w.start) / 2.0, w.start))
  {
    assert ValidSpan(windows[i].start, windows[i].end);
  }

  lemma PadRight(windows: seq<Segment>, pad: real, duration: real, i: int)
    requires Disjoint(windows) && pad >= 0.0 && 0 <= i < |windows|
    ensures var w := windows[i];
      var end := if duration > 0.0 then Min(duration, w.end + pad) else w.end + pad;
      w.end + RightSlack(windows, pad, duration, i)
      == Max(if i + 1 == |windows| then end else Min(end, Max((w.end + windows[i + 1].start) / 2.0, w.end)), w.end)
  {
    assert i + 1 < |windows| ==> windows[i + 1 - 1].end <= windows[i + 1].start;
  }

  method PadWindows(windows: seq<Segment>, pad: real, duration: real) returns (padded: seq<Segment>)
    requires Disjoint(windows) && pad >= 0.0
    ensures IsPadding(windows, pad, duration, padded)
  {
    padded := [];
    for i := 0 to |windows|
      invariant |padded| == i
      invariant forall k :: 0 <= k < i ==> padded[k] == PaddedAt(windows, pad, duration, k)
    {
      var window := windows[i];
      var start := Max(0.0, window.start - pad);
      var end := window.end + pad;
      if duration > 0.0 {
        end := Min(duration, end);
      }
      if i > 0 {
        var midpoint := (windows[i - 1].end + window.start) / 2.0;
        start := Max(start, Min(midpoint, window.start));
      }
      if i + 1 < |windows| {
        var midpoint := (window.end + windows[i + 1].start) / 2.0;
        end := Min(end, Max(midpoint, window.end));
      }
      PadLeft(windows, pad, i);
      PadRight(windows, pad, duration, i);
      padded := padded + [window.(start := start, end := Max(end, window.end))];
    }
  }

  /** Padding never shrinks a window, grows it by at most `pad`, and keeps the windows disjoint:
      two padded windows touch at most at the midpoint of their gap. */
  lemma PaddingKeepsDisjoint(windows: seq<Segment>, pad: real, duration: real, padded: seq<Segment>)
    requires Disjoint(windows) && pad >= 0.0 && IsPadding(windows, pad, duration, padded)
    ensures Disjoint(padded)
    ensures forall i :: 0 <= i < |windows| ==>
      && windows[i].start - pad <= padded[i].start <= windows[i].start
      && windows[i].end <= padded[i].end <= windows[i].end + pad
      && padded[i].text == windows[i].text
    ensures forall i :: 1 <= i < |windows| ==>
      padded[i - 1].end <= (windows[i - 1].end + windows[i].start) / 2.0 <= padded[i].start
  {
    forall i | 1 <= i < |windows|
      ensures padded[i - 1].end <= (windows[i - 1].end + windows[i].start) / 2.0 <= padded[i].start
    {
      assert RightSlack(windows, pad, duration, i - 1) <= (windows[i].start - windows[i - 1].end) / 2.0;
      assert LeftSlack(windows, pad, i) <= (windows[i].start - windows[i - 1].end) / 2.0;
    }
    forall i | 0 <= i < |windows|
      ensures windows[i].start - pad <= padded[i].start <= windows[i].start && padded[i].start >= 0.0
      ensures windows[i].end <= padded[i].end <= windows[i].end + pad
    {
      assert ValidSpan(windows[i].start, windows[i].end);
      assert i > 0 ==> windows[i - 1].end <= windows[i].start;
      assert i + 1 < |windows| ==> windows[i + 1 - 1].end <= windows[i + 1].start;
    }
  }

  /** The windows of a grouping never meet: between two of them lies more than the merge gap. */
  lemma {:induction false} GroupsAreDisjoint(u: CharTable, segments: seq<Segment>, gap: real, groups: seq<seq<int>>, windows: seq<Segment>)
    requires ValidSegments(segments) && gap >= 0.0 && IsGrouping(u, segments, gap, groups)
    requires |windows| == |groups|
    requires forall g :: 0 <= g < |groups| ==> windows[g] == WindowFor(u, segments, groups[g])
    ensures Disjoint(windows)
    ensures forall g :: 1 <= g < |windows| ==> windows[g - 1].end + gap < windows[g].start
  {
    AlignableFacts(u, segments);
    forall g | 0 <= g < |groups|
      ensures ValidSpan(windows[g].start, windows[g].end)
      ensures windows[g].start == segments[groups[g][0]].start
    {
      GroupSorted(segments, groups, g);
      ReachAndEarliest(segments, groups[g]);
      var k :| 0 <= k < |groups[g]| && segments[groups[g][k]].start == windows[g].start;
      assert StartAt(segments)(groups[g][0]) <= StartAt(segments)(groups[g][k]);
    }
  }

  lemma {:induction false} GroupSorted(segments: seq<Segment>, groups: seq<seq<int>>, g: int)
    requires 0 <= g < |groups| && SortedBy(StartAt(segments), Flatten(groups))
    ensures SortedBy(StartAt(segments), groups[g])
  {
    var flat, rest := Flatten(groups), Flatten(groups[1..]);
    assert flat == groups[0] + rest;
    if g == 0 {
      assert forall i :: 0 <= i < |groups[0]| ==> flat[i] == groups[0][i];
    } else {
      assert forall i :: 0 <= i < |rest| ==> flat[|groups[0]| + i] == rest[i];
      GroupSorted(segments, groups[1..], g - 1);
    }
  }
}
