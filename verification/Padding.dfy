/** src/vemsa/pipeline/realign.py: where alignment windows begin and end. */
module Padding {
  import opened Base
  import opened Models
  import opened Text
  import opened Normalize
  import opened Windows

  // ---- pad_windows

  function MiddleBefore(windows: seq<Segment>, i: int): real
    requires 0 < i < |windows|
  {
    (windows[i - 1].end + windows[i].start) / 2.0
  }

  /** A start the rules allow: at most `pad` out, in the audio, not beyond the middle of the gap. */
  ghost predicate MayStart(windows: seq<Segment>, pad: real, i: int, t: real)
    requires 0 <= i < |windows|
  {
    t >= 0.0 && t >= windows[i].start - pad && (i > 0 ==> t >= MiddleBefore(windows, i))
  }

  /** An end the rules allow; the window's own end always is. */
  ghost predicate MayEnd(windows: seq<Segment>, pad: real, duration: real, i: int, t: real)
    requires 0 <= i < |windows|
  {
    t <= windows[i].end
    || (&& t <= windows[i].end + pad && (duration > 0.0 ==> t <= duration)
        && (i < |windows| - 1 ==> t <= MiddleBefore(windows, i + 1)))
  }

  /** Every window gets as much slack on each side as the rules allow, and nothing else of it changes. */
  lemma PaddingIsWidest(windows: seq<Segment>, pad: real, duration: real, padded: seq<Segment>, i: int)
    requires Disjoint(windows) && pad >= 0.0 && IsPadding(windows, pad, duration, padded) && 0 <= i < |windows|
    ensures padded[i] == windows[i].(start := padded[i].start, end := padded[i].end)
    ensures MayStart(windows, pad, i, padded[i].start) && forall t :: MayStart(windows, pad, i, t) ==> padded[i].start <= t
    ensures MayEnd(windows, pad, duration, i, padded[i].end) && forall t :: MayEnd(windows, pad, duration, i, t) ==> t <= padded[i].end
  {
    assert ValidSpan(windows[i].start, windows[i].end);
    assert i > 0 ==> windows[i - 1].end <= windows[i].start;
    assert i < |windows| - 1 ==> windows[i + 1 - 1].end <= windows[i + 1].start;
  }

  // ---- window_for and group_windows

  /** A window is the least span around its members. */
  lemma WindowIsUnion(u: CharTable, segments: seq<Segment>, group: seq<int>)
    requires group != [] && Within(segments, group)
    ensures var window := WindowFor(u, segments, group);
      && (forall k :: 0 <= k < |group| ==> window.start <= segments[group[k]].start && segments[group[k]].end <= window.end)
      && (exists k :: 0 <= k < |group| && segments[group[k]].start == window.start)
      && (exists k :: 0 <= k < |group| && segments[group[k]].end == window.end)
  {
    ReachAndEarliest(segments, group);
  }

  ghost predicate Near(segments: seq<Segment>, gap: real, before: int, after: int) {
    && 0 <= before < |segments| && 0 <= after < |segments|
    && segments[after].start - segments[before].end <= gap
  }

  ghost predicate NearOneBefore(segments: seq<Segment>, gap: real, group: seq<int>, k: int) {
    0 < k < |group| && exists j :: 0 <= j < k && Near(segments, gap, group[j], group[k])
  }

  lemma JoinsNear(segments: seq<Segment>, gap: real, group: seq<int>, k: int)
    requires 0 < k < |group| && Within(segments, group) && Linked(segments, gap, group)
    ensures NearOneBefore(segments, gap, group, k)
  {
    hide Reach, Earliest;
    var before := group[..k];
    ReachAndEarliest(segments, before);
    var j :| 0 <= j < k && segments[before[j]].end == Reach(segments, before);
    assert Near(segments, gap, group[j], group[k]);
  }

  lemma StartsFar(segments: seq<Segment>, gap: real, before: seq<int>, after: seq<int>, i: int)
    requires before != [] && Within(segments, before) && after != [] && Within(segments, after)
    requires Apart(segments, gap, before, after) && i in before
    ensures !Near(segments, gap, i, after[0])
  {
    hide Reach, Earliest;
    ReachAndEarliest(segments, before);
    var j :| 0 <= j < |before| && before[j] == i;
    assert segments[before[j]].end <= Reach(segments, before);
  }

  /** Within a group every segment starts near the end of an earlier one; the first of a group starts near none of
      the group before. */
  lemma GroupsByNearness(u: CharTable, segments: seq<Segment>, gap: real, groups: seq<seq<int>>, g: int)
    requires IsGrouping(u, segments, gap, groups) && 0 <= g < |groups|
    ensures groups[g] != [] && forall k :: 0 < k < |groups[g]| ==> NearOneBefore(segments, gap, groups[g], k)
    ensures g > 0 ==> forall i :: i in groups[g - 1] ==> !Near(segments, gap, i, groups[g][0])
  {
    hide Linked, Apart, NearOneBefore, Near;
    forall k | 0 < k < |groups[g]| ensures NearOneBefore(segments, gap, groups[g], k) {
      JoinsNear(segments, gap, groups[g], k);
    }
    if g > 0 {
      forall i | i in groups[g - 1] ensures !Near(segments, gap, i, groups[g][0]) {
        StartsFar(segments, gap, groups[g - 1], groups[g], i);
      }
    }
  }

  /** The groups hold exactly the segments with something to align, each once, in the order of their starts. */
  lemma GroupsHoldWhatHasTokens(u: CharTable, segments: seq<Segment>, gap: real, groups: seq<seq<int>>)
    requires IsGrouping(u, segments, gap, groups)
    ensures forall i :: i in Flatten(groups) <==> 0 <= i < |segments| && |Tokens(u, segments[i].text)| > 0
    ensures Within(segments, Flatten(groups)) && Distinct(Flatten(groups))
    ensures forall p, q :: 0 <= p < q < |Flatten(groups)| ==> segments[Flatten(groups)[p]].start <= segments[Flatten(groups)[q]].start
  {
    hide Flatten, Alignable, Tokens;
    AlignableFacts(u, segments);
    var order := Alignable(u, segments);
    forall p, q | 0 <= p < q < |order| ensures segments[order[p]].start <= segments[order[q]].start {
      assert StartAt(segments)(order[p]) <= StartAt(segments)(order[q]);
    }
  }
}
