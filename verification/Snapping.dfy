/** src/vemsa/pipeline/diarize.py, _snap_boundaries: changes move to sentence ends. */
module Snapping {
  import opened Base
  import opened Models
  import opened Text
  import opened Runs

  datatype SnapTuning = SnapTuning(maxWords: int, maxGap: real)

  // ---- where one change goes

  predicate EndsAt(words: seq<Word>, i: int) {
    0 <= i < |words| && EndsSentence(words[i].word)
  }

  /** The last sentence-ending word among words[lo..hi], if any. */
  function LastEnd(words: seq<Word>, lo: int, hi: int): (e: Option<int>)
    ensures e.Some? ==> lo <= e.value < hi && EndsAt(words, e.value)
    ensures forall i :: (if e.Some? then e.value < i < hi else lo <= i < hi) ==> !EndsAt(words, i)
    decreases hi - lo
  {
    if hi <= lo then None
    else if EndsAt(words, hi - 1) then Some(hi - 1)
    else LastEnd(words, lo, hi - 1)
  }

  /** The first sentence-ending word among words[lo..hi], if any. */
  function FirstEnd(words: seq<Word>, lo: int, hi: int): (e: Option<int>)
    ensures e.Some? ==> lo <= e.value < hi && EndsAt(words, e.value)
    ensures forall i :: (if e.Some? then lo <= i < e.value else lo <= i < hi) ==> !EndsAt(words, i)
    decreases hi - lo
  {
    if hi <= lo then None
    else if EndsAt(words, lo) then Some(lo)
    else FirstEnd(words, lo + 1, hi)
  }

  function MaxInt(a: int, b: int): int {
    if a < b then b else a
  }

  function MinInt(a: int, b: int): int {
    if b < a then b else a
  }

  /** The closest sentence end before the change, inside the left run and within reach. */
  function Behind(words: seq<Word>, tuning: SnapTuning, left: int, cut: int): Option<int> {
    LastEnd(words, MaxInt(left, cut - 1 - tuning.maxWords), cut - 1)
  }

  /** The first sentence end at or after the change, within reach, if the right run goes on past it. */
  function Ahead(words: seq<Word>, tuning: SnapTuning, cut: int, right: int): Option<int> {
    var e := FirstEnd(words, cut, MinInt(right, cut + tuning.maxWords));
    if e.Some? && e.value + 1 < right then e else None
  }

  /** The change sits mid-sentence, and no long silence separates its two sides. */
  predicate Movable(u: CharTable, words: seq<Word>, tuning: SnapTuning, cut: int)
    requires 0 < cut < |words|
  {
    && !EndsSentence(words[cut - 1].word)
    && ContinuesSentence(u, words[cut].word)
    && words[cut].start - words[cut - 1].end <= tuning.maxGap
  }

  /** The silence right after word i. */
  function GapAfter(words: seq<Word>, i: int): real
    requires 0 <= i < |words| - 1
  {
    words[i + 1].start - words[i].end
  }

  /** Where a change at `cut` between a run starting at `left` and one ending at `right` goes:
      to the sentence boundary with the larger silence, the one moving fewer words on a tie,
      backwards if that ties as well; nowhere when there is none. */
  function Snapped(u: CharTable, words: seq<Word>, tuning: SnapTuning, left: int, cut: int, right: int): int
    requires 0 <= left < cut < right <= |words|
  {
    if !Movable(u, words, tuning, cut) then cut
    else
      match (Behind(words, tuning, left, cut), Ahead(words, tuning, cut, right))
      case (None, None) => cut
      case (Some(b), None) => b + 1
      case (None, Some(a)) => a + 1
      case (Some(b), Some(a)) =>
        if GapAfter(words, a) > GapAfter(words, b) then a + 1
        else if GapAfter(words, a) < GapAfter(words, b) then b + 1
        else if cut - (b + 1) <= (a + 1) - cut then b + 1
        else a + 1
  }

  /** A change stays strictly between its neighbours, moves by at most maxWords positions, and
      if it moved sits directly after a sentence end. */
  lemma SnappedIsNear(u: CharTable, words: seq<Word>, tuning: SnapTuning, left: int, cut: int, right: int)
    requires 0 <= left < cut < right <= |words|
    ensures var c := Snapped(u, words, tuning, left, cut, right);
      && left < c < right
      && (c != cut ==> cut - tuning.maxWords <= c <= cut + tuning.maxWords && EndsAt(words, c - 1))
  {
  }

  // ---- the whole pass on runs

  /** What the pass makes of the changes: change k is decided between the already decided
      change before it and the original change after it. */
  ghost predicate SnappedRuns(u: CharTable, words: seq<Word>, tuning: SnapTuning, runs: Runs, after: Runs) {
    && Fits(runs, |words|) && Fits(after, |words|)
    && after.names == runs.names
    && forall k :: 1 <= k < |runs.names| ==>
         && after.cuts[k - 1] < runs.cuts[k]
         && after.cuts[k] == Snapped(u, words, tuning, after.cuts[k - 1], runs.cuts[k], runs.cuts[k + 1])
  }

  /** The sequence of speakers is kept: change by change, each moved by at most maxWords
      positions, and each one that moved to right after a sentence end. */
  lemma SnappingKeepsSpeakers(u: CharTable, words: seq<Word>, tuning: SnapTuning, runs: Runs, after: Runs)
    requires SnappedRuns(u, words, tuning, runs, after)
    ensures after.names == runs.names
    ensures forall k :: 0 <= k < |runs.cuts| && after.cuts[k] != runs.cuts[k] ==>
      && runs.cuts[k] - tuning.maxWords <= after.cuts[k] <= runs.cuts[k] + tuning.maxWords
      && EndsAt(words, after.cuts[k] - 1)
  {
    forall k | 0 <= k < |runs.cuts| && after.cuts[k] != runs.cuts[k]
      ensures runs.cuts[k] - tuning.maxWords <= after.cuts[k] <= runs.cuts[k] + tuning.maxWords
      ensures EndsAt(words, after.cuts[k] - 1)
    {
      assert 1 <= k < |runs.names|;
      assert runs.cuts[k] < runs.cuts[k + 1] <= |words|;
      SnappedIsNear(u, words, tuning, after.cuts[k - 1], runs.cuts[k], runs.cuts[k + 1]);
    }
  }

  // ---- the searches over the labels

  method SentenceEndBehind(words: seq<Word>, labels: seq<string>, boundary: int, maxWords: int, ghost left: int)
    returns (e: Option<int>)
    requires |labels| == |words| && 0 <= left < boundary < |words|
    requires Holds(labels, left, boundary, labels[boundary - 1])
    requires left > 0 ==> labels[left - 1] != labels[boundary - 1]
    ensures e == LastEnd(words, MaxInt(left, boundary - 1 - maxWords), boundary - 1)
  {
    var name := labels[boundary - 1];
    var index := boundary - 2;
    while index > boundary - 2 - maxWords
      invariant index >= left - 1
      invariant LastEnd(words, MaxInt(left, boundary - 1 - maxWords), index + 1)
             == LastEnd(words, MaxInt(left, boundary - 1 - maxWords), boundary - 1)
      decreases index - (boundary - 2 - maxWords)
    {
      if index < 0 || labels[index] != name {
        return None;
      }
      if EndsSentence(words[index].word) {
        return Some(index);
      }
      index := index - 1;
    }
    e := None;
  }

  method SentenceEndAhead(words: seq<Word>, labels: seq<string>, boundary: int, maxWords: int, ghost right: int)
    returns (e: Option<int>)
    requires |labels| == |words| && 0 <= boundary < right <= |words|
    requires Holds(labels, boundary, right, labels[boundary])
    requires right < |words| ==> labels[right] != labels[boundary]
    ensures e == Ahead(words, SnapTuning(maxWords, 0.0), boundary, right)
  {
    var name := labels[boundary];
    var index := boundary;
    while index < boundary + maxWords
      invariant boundary <= index <= right
      invariant FirstEnd(words, index, MinInt(right, boundary + maxWords))
             == FirstEnd(words, boundary, MinInt(right, boundary + maxWords))
      decreases boundary + maxWords - index
    {
      if index >= |words| || labels[index] != name {
        return None;
      }
      if EndsSentence(words[index].word) {
        if index + 1 < |words| && labels[index + 1] == name {
          return Some(index);
        }
        return None;
      }
      index := index + 1;
    }
    e := None;
  }

  // ---- the pass

  ghost predicate Decided(u: CharTable, words: seq<Word>, tuning: SnapTuning, runs: Runs, now: Runs, k: int)
    requires Fits(runs, |words|) && Fits(now, |words|) && |now.names| == |runs.names| && 1 <= k < |runs.names|
  {
    && now.cuts[k - 1] < runs.cuts[k]
    && now.cuts[k] == Snapped(u, words, tuning, now.cuts[k - 1], runs.cuts[k], runs.cuts[k + 1])
  }

  /** Before the scan looks at `boundary`: changes before k are decided, the others untouched
      and not yet passed; only change k - 1 may lie ahead, and then after a sentence end. */
  ghost predicate Scanned(u: CharTable, words: seq<Word>, tuning: SnapTuning, runs: Runs, now: Runs, k: int, boundary: int) {
    && Fits(runs, |words|) && Fits(now, |words|) && now.names == runs.names
    && 1 <= k <= |runs.names| && 1 <= boundary <= now.cuts[k]
    && (forall j :: 1 <= j < k ==> Decided(u, words, tuning, runs, now, j))
    && (forall j :: k <= j < |runs.cuts| ==> now.cuts[j] == runs.cuts[j])
    && (k >= 2 ==> runs.cuts[k - 1] < boundary)
    && (now.cuts[k - 1] >= boundary ==> EndsAt(words, now.cuts[k - 1] - 1))
  }

  /** A position without a change is passed. */
  lemma NoChangeAt(u: CharTable, words: seq<Word>, tuning: SnapTuning, labels: seq<string>, runs: Runs, now: Runs, k: int, boundary: int)
    requires |labels| == |words| && Represents(labels, now)
    requires Scanned(u, words, tuning, runs, now, k, boundary)
    requires 0 < boundary < |words| && labels[boundary - 1] == labels[boundary]
    ensures Scanned(u, words, tuning, runs, now, k, boundary + 1)
  {
    hide Decided;
    ChangeIsCut(labels, now, boundary);
    assert now.cuts[k] in now.cuts && now.cuts[k - 1] in now.cuts;
  }

  /** A change at the scanned position is the next undecided one, or one moved here, which
      follows a sentence end. */
  lemma WhichChange(u: CharTable, words: seq<Word>, tuning: SnapTuning, runs: Runs, now: Runs, k: int, boundary: int)
    requires Scanned(u, words, tuning, runs, now, k, boundary) && boundary < |words| && boundary in now.cuts
    ensures now.cuts[k] == boundary || (now.cuts[k - 1] == boundary && EndsAt(words, boundary - 1))
    ensures now.cuts[k] == boundary ==> k < |runs.names|
  {
    hide Snapped, EndsAt;
    forall j | 0 <= j < k - 1 ensures now.cuts[j] < boundary {
      assert Decided(u, words, tuning, runs, now, k - 1);
      assert j < k - 2 ==> now.cuts[j] < now.cuts[k - 2];
    }
    forall j | k < j < |now.cuts| ensures boundary < now.cuts[j] {
      assert now.cuts[k] < now.cuts[j];
    }
  }

  lemma StillDecided(u: CharTable, words: seq<Word>, tuning: SnapTuning, runs: Runs, now: Runs, k: int, after: Runs)
    requires Fits(runs, |words|) && Fits(now, |words|) && |now.names| == |runs.names| && 1 <= k < |runs.names|
    requires forall j :: 1 <= j < k ==> Decided(u, words, tuning, runs, now, j)
    requires |after.cuts| == |now.cuts| && now.cuts[k - 1] < after.cuts[k] < now.cuts[k + 1] && now.cuts[k - 1] < runs.cuts[k]
    requires 0 <= now.cuts[k - 1] && runs.cuts[k] < runs.cuts[k + 1] <= |words|
    requires after.cuts[k] == Snapped(u, words, tuning, now.cuts[k - 1], runs.cuts[k], runs.cuts[k + 1])
    requires after == now.(cuts := now.cuts[k := after.cuts[k]])
    ensures Fits(after, |words|)
    ensures forall j :: 1 <= j < k + 1 ==> Decided(u, words, tuning, runs, after, j)
  {
    hide Snapped;
    forall j | 1 <= j < k + 1 ensures Decided(u, words, tuning, runs, after, j) {
      if j < k {
        assert Decided(u, words, tuning, runs, now, j);
      }
    }
  }

  /** Deciding the change at the scanned position. */
  lemma DecideHere(u: CharTable, words: seq<Word>, tuning: SnapTuning, runs: Runs, now: Runs, k: int, boundary: int, c: int)
    requires Scanned(u, words, tuning, runs, now, k, boundary) && k < |runs.names| && now.cuts[k] == boundary
    requires 0 <= now.cuts[k - 1] < boundary < now.cuts[k + 1] <= |words|
    requires c == Snapped(u, words, tuning, now.cuts[k - 1], boundary, now.cuts[k + 1])
    ensures now.cuts[k - 1] < c < now.cuts[k + 1]
    ensures Scanned(u, words, tuning, runs, now.(cuts := now.cuts[k := c]), k + 1, boundary + 1)
  {
    SnappedIsNear(u, words, tuning, now.cuts[k - 1], boundary, now.cuts[k + 1]);
    hide Snapped, EndsAt, Decided;
    StillDecided(u, words, tuning, runs, now, k, now.(cuts := now.cuts[k := c]));
  }

  /** Relabelling the words between the old and the new place of change k moves the change. */
  lemma MoveLabels(labels: seq<string>, after: seq<string>, now: Runs, k: int, c: int)
    requires Represents(labels, now) && 0 < k < |now.names| && now.cuts[k - 1] < c < now.cuts[k + 1]
    requires |after| == |labels|
    requires forall p :: 0 <= p < |labels| ==>
      after[p] == (if c <= p < now.cuts[k] then labels[now.cuts[k]]
                   else if now.cuts[k] <= p < c then labels[now.cuts[k] - 1]
                   else labels[p])
    ensures Represents(after, now.(cuts := now.cuts[k := c]))
  {
    NamedAt(labels, now, k - 1);
    NamedAt(labels, now, k);
    var moved := now.(cuts := now.cuts[k := c]);
    forall j | 0 <= j < |now.names| ensures Holds(after, moved.cuts[j], moved.cuts[j + 1], moved.names[j]) {
      NamedAt(labels, now, j);
      assert moved.cuts[j] < moved.cuts[j + 1];
      if j < k - 1 {
        assert now.cuts[j + 1] <= now.cuts[k - 1];
      } else if k < j {
        assert now.cuts[k + 1] <= now.cuts[j];
      }
    }
  }

  /** A maximal run from `left` to `boundary` and the next one from there to `right`. */
  ghost predicate Between(labels: seq<string>, left: int, boundary: int, right: int) {
    && 0 <= left < boundary < right <= |labels|
    && Holds(labels, left, boundary, labels[boundary - 1]) && Holds(labels, boundary, right, labels[boundary])
    && (left > 0 ==> labels[left - 1] != labels[boundary - 1])
    && (right < |labels| ==> labels[right] != labels[boundary])
  }

  lemma Surroundings(labels: seq<string>, now: Runs, k: int)
    requires Represents(labels, now) && 0 < k < |now.names|
    ensures Between(labels, now.cuts[k - 1], now.cuts[k], now.cuts[k + 1])
  {
    NamedAt(labels, now, k - 1);
    NamedAt(labels, now, k);
    if k - 1 > 0 {
      NamedAt(labels, now, k - 2);
      assert now.names[k - 2] != now.names[k - 2 + 1];
    }
    if k + 1 < |now.names| {
      NamedAt(labels, now, k + 1);
      assert now.names[k + 1 - 1] != now.names[k + 1];
    }
  }

  lemma Stays(now: Runs, k: int)
    requires 0 <= k < |now.cuts|
    ensures now.(cuts := now.cuts[k := now.cuts[k]]) == now
  {
    assert now.cuts[k := now.cuts[k]] == now.cuts;
  }

  lemma AfterTheScan(u: CharTable, words: seq<Word>, tuning: SnapTuning, labels: seq<string>, runs: Runs, now: Runs, k: int)
    requires |labels| == |words| && Represents(labels, now) && Scanned(u, words, tuning, runs, now, k, |words|)
    ensures SnappedRuns(u, words, tuning, runs, RunsOf(labels))
  {
    hide RunsOf, Represents, Snapped, EndsAt;
    RunsAreUnique(labels, now, RunsOf(labels));
    assert forall j :: 0 <= j < |runs.names| ==> now.cuts[j] < now.cuts[|runs.names|];
    forall j | 1 <= j < |runs.names|
      ensures now.cuts[j - 1] < runs.cuts[j]
      ensures now.cuts[j] == Snapped(u, words, tuning, now.cuts[j - 1], runs.cuts[j], runs.cuts[j + 1])
    {
      assert Decided(u, words, tuning, runs, now, j);
    }
  }

  /** Where the change at `boundary` goes: the tests and searches of one step of the pass. */
  method Destination(u: CharTable, words: seq<Word>, labels: seq<string>, tuning: SnapTuning, boundary: int,
                     ghost left: int, ghost right: int)
    returns (c: int)
    requires |labels| == |words| && Between(labels, left, boundary, right)
    ensures c == Snapped(u, words, tuning, left, boundary, right)
  {
    hide EndsSentence, ContinuesSentence;
    if EndsSentence(words[boundary - 1].word) {
      return boundary;
    }
    if !ContinuesSentence(u, words[boundary].word) {
      return boundary;
    }
    if words[boundary].start - words[boundary - 1].end > tuning.maxGap {
      return boundary;
    }
    var behind := SentenceEndBehind(words, labels, boundary, tuning.maxWords, left);
    var ahead := SentenceEndAhead(words, labels, boundary, tuning.maxWords, right);
    if behind.None? && ahead.None? {
      return boundary;
    }
    var pullRight := behind.Some?;
    if behind.Some? && ahead.Some? {
      var behindGap := words[behind.value + 1].start - words[behind.value].end;
      var aheadGap := words[ahead.value + 1].start - words[ahead.value].end;
      if aheadGap > behindGap {
        pullRight := false;
      } else if aheadGap == behindGap {
        pullRight := boundary - 1 - behind.value <= ahead.value - boundary + 1;
      }
    }
    c := if pullRight then behind.value + 1 else ahead.value + 1;
  }

  lemma EndStays(u: CharTable, words: seq<Word>, tuning: SnapTuning, left: int, cut: int, right: int)
    requires 0 <= left < cut < right <= |words| && EndsAt(words, cut - 1)
    ensures Snapped(u, words, tuning, left, cut, right) == cut
  {
  }

  /** The words between the old and the new place of a change carry the other side's label. */
  ghost predicate Moved(before: seq<string>, after: seq<string>, boundary: int, c: int) {
    && |after| == |before| && 0 < boundary < |before|
    && forall p :: 0 <= p < |before| ==>
         after[p] == (if c <= p < boundary then before[boundary]
                      else if boundary <= p < c then before[boundary - 1]
                      else before[p])
  }

  /** Relabel, in place, the words between the old and the new place of a change. */
  method MoveChange(a: array<string>, boundary: int, c: int)
    requires 0 < boundary < a.Length && 0 <= c <= a.Length
    modifies a
    ensures Moved(old(a[..]), a[..], boundary, c)
  {
    if c < boundary {
      forall i | c <= i < boundary {
        a[i] := a[boundary];
      }
    } else {
      forall i | boundary <= i < c {
        a[i] := a[boundary - 1];
      }
    }
  }

  function WithCut(now: Runs, change: int, c: int): Runs {
    if 0 <= change < |now.cuts| then now.(cuts := now.cuts[change := c]) else now
  }

  /** The change at the scanned position: the next undecided one, or one moved here. */
  ghost predicate Turning(u: CharTable, words: seq<Word>, tuning: SnapTuning, runs: Runs, now: Runs, k: int, boundary: int,
                          change: int, left: int, right: int) {
    && Scanned(u, words, tuning, runs, now, k, boundary)
    && 0 < change < |now.names| == |runs.names| && |now.cuts| == |now.names| + 1
    && now.cuts[change] == boundary && now.cuts[change - 1] == left && now.cuts[change + 1] == right
    && (change == k || (change == k - 1 && EndsAt(words, boundary - 1)))
  }

  lemma FindChange(u: CharTable, words: seq<Word>, tuning: SnapTuning, labels: seq<string>, runs: Runs, now: Runs, k: int, boundary: int)
    returns (change: int, left: int, right: int)
    requires |labels| == |words| && Represents(labels, now) && Scanned(u, words, tuning, runs, now, k, boundary)
    requires 0 < boundary < |words| && labels[boundary - 1] != labels[boundary]
    ensures Between(labels, left, boundary, right)
    ensures Turning(u, words, tuning, runs, now, k, boundary, change, left, right)
  {
    hide Decided, EndsAt, Between;
    ChangeIsCut(labels, now, boundary);
    WhichChange(u, words, tuning, runs, now, k, boundary);
    change := if now.cuts[k] == boundary then k else k - 1;
    Surroundings(labels, now, change);
    left, right := now.cuts[change - 1], now.cuts[change + 1];
  }

  /** One step: the change at `boundary` is decided, or was already moved there. */
  lemma StepDone(u: CharTable, words: seq<Word>, tuning: SnapTuning, before: seq<string>, after: seq<string>,
                 runs: Runs, now: Runs, k: int, boundary: int, change: int, left: int, right: int, c: int)
    requires |before| == |words| && Represents(before, now) && Between(before, left, boundary, right)
    requires Turning(u, words, tuning, runs, now, k, boundary, change, left, right)
    requires c == Snapped(u, words, tuning, left, boundary, right) && left < c < right
    requires Moved(before, after, boundary, c)
    ensures Represents(after, WithCut(now, change, c))
    ensures Scanned(u, words, tuning, runs, WithCut(now, change, c), change + 1, boundary + 1)
  {
    hide Snapped, Represents, Decided;
    if change == k {
      DecideHere(u, words, tuning, runs, now, k, boundary, c);
    } else {
      EndStays(u, words, tuning, left, boundary, right);
      Stays(now, change);
    }
    MoveLabels(before, after, now, change, c);
  }

  lemma StaysBetween(u: CharTable, words: seq<Word>, tuning: SnapTuning, labels: seq<string>, left: int, boundary: int, right: int)
    requires |labels| == |words| && Between(labels, left, boundary, right)
    ensures 0 <= left < boundary < right <= |words|
    ensures left < Snapped(u, words, tuning, left, boundary, right) < right
  {
    SnappedIsNear(u, words, tuning, left, boundary, right);
  }

  lemma ScanStarts(u: CharTable, words: seq<Word>, tuning: SnapTuning, labels: seq<string>)
    requires |labels| == |words|
    ensures labels == [] ==> SnappedRuns(u, words, tuning, RunsOf(labels), RunsOf([]))
    ensures labels != [] ==> Scanned(u, words, tuning, RunsOf(labels), RunsOf(labels), 1, 1)
  {
    hide Snapped;
  }

  /** The pass keeps the sequence of speakers and decides every change by Snapped. */
  method SnapBoundaries(u: CharTable, words: seq<Word>, labels: seq<string>, tuning: SnapTuning)
    returns (snapped: seq<string>)
    requires |labels| == |words|
    ensures |snapped| == |labels|
    ensures SnappedRuns(u, words, tuning, RunsOf(labels), RunsOf(snapped))
  {
    hide RunsOf, Represents, Scanned, Snapped, Fits, SnappedRuns, Turning, Moved, Between, WithCut;
    ScanStarts(u, words, tuning, labels);
    if labels == [] {
      return [];
    }
    var n := |labels|;
    var a := new string[n](i requires 0 <= i < n => labels[i]);
    ghost var runs := RunsOf(labels);
    ghost var now, k := runs, 1;
    assert a[..] == labels;
    for boundary := 1 to n
      invariant Represents(a[..], now)
      invariant Scanned(u, words, tuning, runs, now, k, boundary)
    {
      ghost var before := a[..];
      if a[boundary - 1] == a[boundary] {
        NoChangeAt(u, words, tuning, before, runs, now, k, boundary);
        continue;
      }
      ghost var change, left, right := FindChange(u, words, tuning, before, runs, now, k, boundary);
      var c := Destination(u, words, a[..], tuning, boundary, left, right);
      StaysBetween(u, words, tuning, before, left, boundary, right);
      MoveChange(a, boundary, c);
      StepDone(u, words, tuning, before, a[..], runs, now, k, boundary, change, left, right, c);
      now, k := WithCut(now, change, c), change + 1;
    }
    snapped := a[..];
    AfterTheScan(u, words, tuning, snapped, runs, now, k);
  }
}
