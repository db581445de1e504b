/** src/vemsa/pipeline/diarize.py, _smooth_islands: the in-place pass. */
module Islands {
  import opened Base
  import opened Models
  import opened Text
  import opened Runs

  datatype IslandTuning = IslandTuning(maxWords: int, maxDuration: real, maxSpan: real)

  // ---- the greedy rule on the input's maximal runs

  predicate Short(words: seq<Word>, tuning: IslandTuning, from: int, to: int)
    requires 0 <= from < to <= |words|
  {
    var duration := words[to - 1].end - words[from].start;
    (to - from <= tuning.maxWords && duration <= tuning.maxSpan) || duration <= tuning.maxDuration
  }

  /** The run does not begin right after a sentence end, or it reads on into the next word. */
  predicate MidSentence(u: CharTable, words: seq<Word>, from: int, to: int)
    requires 0 < from < to < |words|
  {
    || !EndsSentence(words[from - 1].word)
    || (!EndsSentence(words[to - 1].word) && ContinuesSentence(u, words[to].word))
  }

  /** Run k may be absorbed: it is neither first nor last, its neighbours carry one name, and it is
      short and mid-sentence. */
  ghost predicate Absorbable(u: CharTable, words: seq<Word>, tuning: IslandTuning, runs: Runs, k: int)
    requires Fits(runs, |words|)
  {
    && 0 < k < |runs.names| - 1
    && runs.names[k - 1] == runs.names[k + 1]
    && Short(words, tuning, runs.cuts[k], runs.cuts[k + 1])
    && MidSentence(u, words, runs.cuts[k], runs.cuts[k + 1])
  }

  /** Run k is absorbed: it may be, and run k - 1 was not absorbed itself. */
  ghost predicate Absorbed(u: CharTable, words: seq<Word>, tuning: IslandTuning, runs: Runs, k: int)
    requires Fits(runs, |words|) && 0 <= k < |runs.names|
    decreases k
  {
    Absorbable(u, words, tuning, runs, k) && !Absorbed(u, words, tuning, runs, k - 1)
  }

  /** The name run k ends up with. */
  ghost function Settled(u: CharTable, words: seq<Word>, tuning: IslandTuning, runs: Runs, k: int): string
    requires Fits(runs, |words|) && 0 <= k < |runs.names|
  {
    if Absorbed(u, words, tuning, runs, k) then runs.names[k - 1] else runs.names[k]
  }

  /** The first `upTo` runs carry the names they settled on. */
  ghost predicate IsSmoothed(u: CharTable, words: seq<Word>, tuning: IslandTuning, runs: Runs, labels: seq<string>, upTo: int)
    requires Fits(runs, |words|) && upTo <= |runs.names|
  {
    forall k :: 0 <= k < upTo ==> Holds(labels, runs.cuts[k], runs.cuts[k + 1], Settled(u, words, tuning, runs, k))
  }

  /** `smoothed` is what one pass makes of the labels. */
  ghost predicate OnePass(u: CharTable, words: seq<Word>, tuning: IslandTuning, labels: seq<string>, smoothed: seq<string>) {
    && |labels| == |words| == |smoothed| && Fits(RunsOf(labels), |words|)
    && IsSmoothed(u, words, tuning, RunsOf(labels), smoothed, |RunsOf(labels).names|)
  }

  /** The scan's test at the end of the run from..to, made on the labels as they are by then. */
  predicate Flips(u: CharTable, words: seq<Word>, tuning: IslandTuning, now: seq<string>, from: int, to: int) {
    && |now| == |words| && 0 < from < to < |words|
    && now[from - 1] == now[to] && now[from - 1] != now[from]
    && Short(words, tuning, from, to) && MidSentence(u, words, from, to)
  }

  /** The run takes its neighbour's name if the test holds; nothing else changes. */
  ghost predicate Flushed(u: CharTable, words: seq<Word>, tuning: IslandTuning, before: seq<string>, after: seq<string>, from: int, to: int) {
    && |before| == |after| == |words|
    && forall p :: 0 <= p < |words| ==>
         after[p] == if from <= p < to && Flips(u, words, tuning, before, from, to) then before[from - 1] else before[p]
  }

  method FlushRun(u: CharTable, words: seq<Word>, tuning: IslandTuning, a: array<string>, from: int, to: int)
    requires a.Length == |words| && 0 <= from < to <= |words|
    modifies a
    ensures Flushed(u, words, tuning, old(a[..]), a[..], from, to)
  {
    hide Short, MidSentence;
    ghost var before := a[..];
    if from > 0 && to < a.Length {
      var neighbour := a[from - 1];
      if neighbour == a[to] && neighbour != a[from] && Short(words, tuning, from, to) && MidSentence(u, words, from, to) {
        assert Flips(u, words, tuning, before, from, to);
        forall i | from <= i < to {
          a[i] := neighbour;
        }
      }
    }
  }

  /** The first k runs have settled, the labels from there on are untouched. */
  ghost predicate Scanned(u: CharTable, words: seq<Word>, tuning: IslandTuning, labels: seq<string>, runs: Runs, now: seq<string>, k: int) {
    && |labels| == |now| == |words| && Represents(labels, runs) && Fits(runs, |words|) && 0 <= k <= |runs.names|
    && (forall p :: runs.cuts[k] <= p < |words| ==> now[p] == labels[p])
    && IsSmoothed(u, words, tuning, runs, now, k)
  }

  /** The in-place pass computes the greedy rule; the first and last labels never change, and
      no label is invented. */
  method SmoothIslands(u: CharTable, words: seq<Word>, labels: seq<string>, tuning: IslandTuning)
    returns (smoothed: seq<string>)
    requires |labels| == |words|
    ensures |smoothed| == |labels| && OnePass(u, words, tuning, labels, smoothed)
    ensures labels != [] ==> smoothed[0] == labels[0] && smoothed[|labels| - 1] == labels[|labels| - 1]
    ensures forall p :: 0 <= p < |smoothed| ==> smoothed[p] in labels
  {
    hide RunsOf, Represents, Fits, Scanned, Flushed, OnePass;
    ghost var runs := RunsOf(labels);
    RunsFit(labels, runs);
    var n := |labels|;
    var a := new string[n](i requires 0 <= i < n => labels[i]);
    assert a[..] == labels;
    ScanBegins(u, words, tuning, labels, runs);
    var runStart := 0;
    ghost var k := 0;
    for index := 1 to n + 1
      invariant 0 <= k <= |runs.names| && runStart == runs.cuts[k]
      invariant k < |runs.names| ==> runStart < index <= runs.cuts[k + 1]
      invariant k == |runs.names| ==> index == n + 1
      invariant Scanned(u, words, tuning, labels, runs, a[..], k)
    {
      ghost var before := a[..];
      RunEndsOrNot(u, words, tuning, labels, runs, before, k, index);
      if index < n && a[index] == a[runStart] {
        continue;
      }
      FlushRun(u, words, tuning, a, runStart, index);
      RunSettles(u, words, tuning, labels, runs, before, a[..], k);
      runStart := index;
      k := k + 1;
    }
    smoothed := a[..];
    ScanEnds(u, words, tuning, labels, smoothed);
  }

  lemma RunsFit(labels: seq<string>, runs: Runs)
    requires Represents(labels, runs)
    ensures Fits(runs, |labels|)
    ensures |runs.cuts| == |runs.names| + 1 && runs.cuts[0] == 0 && runs.cuts[|runs.names|] == |labels|
    ensures forall j, k :: 0 <= j < k < |runs.cuts| ==> runs.cuts[j] < runs.cuts[k]
  {
  }

  lemma ScanBegins(u: CharTable, words: seq<Word>, tuning: IslandTuning, labels: seq<string>, runs: Runs)
    requires |labels| == |words| && Represents(labels, runs)
    ensures Scanned(u, words, tuning, labels, runs, labels, 0)
  {
  }

  lemma ScanEnds(u: CharTable, words: seq<Word>, tuning: IslandTuning, labels: seq<string>, smoothed: seq<string>)
    requires var runs := RunsOf(labels); Scanned(u, words, tuning, labels, runs, smoothed, |runs.names|)
    ensures |smoothed| == |labels| && OnePass(u, words, tuning, labels, smoothed)
    ensures labels != [] ==> smoothed[0] == labels[0] && smoothed[|labels| - 1] == labels[|labels| - 1]
    ensures forall p :: 0 <= p < |smoothed| ==> smoothed[p] in labels
  {
    hide IsSmoothed, RunsOf;
    Edges(u, words, tuning, labels, RunsOf(labels), smoothed);
  }

  /** Up to the end of run k the labels go on as they were. */
  lemma RunEndsOrNot(u: CharTable, words: seq<Word>, tuning: IslandTuning, labels: seq<string>, runs: Runs, now: seq<string>, k: int, index: int)
    requires Scanned(u, words, tuning, labels, runs, now, k) && k < |runs.names|
    requires runs.cuts[k] < index <= runs.cuts[k + 1]
    ensures |now| == |words| && 0 <= runs.cuts[k] < index <= |words|
    ensures index < |words| && now[index] == now[runs.cuts[k]] ==> index < runs.cuts[k + 1]
    ensures index == |words| || now[index] != now[runs.cuts[k]] ==> index == runs.cuts[k + 1]
  {
    hide IsSmoothed;
    NamedAt(labels, runs, k);
    if index < |words| && now[index] == now[runs.cuts[k]] {
      RunGoesOn(labels, runs, k, index);
    } else {
      RunEnds(labels, runs, k, index);
    }
  }

  /** Flushing run k settles it. */
  lemma RunSettles(u: CharTable, words: seq<Word>, tuning: IslandTuning, labels: seq<string>, runs: Runs,
                   before: seq<string>, after: seq<string>, k: int)
    requires Scanned(u, words, tuning, labels, runs, before, k) && k < |runs.names|
    requires Flushed(u, words, tuning, before, after, runs.cuts[k], runs.cuts[k + 1])
    ensures Scanned(u, words, tuning, labels, runs, after, k + 1)
  {
    hide IsSmoothed, Short, MidSentence, Absorbed;
    NamedAt(labels, runs, k);
    if 0 < k < |runs.names| - 1 {
      DecisionIsAbsorbed(u, words, tuning, labels, runs, before, k);
    } else {
      OutermostStays(u, words, tuning, runs, k);
    }
    SmoothedStep(u, words, tuning, labels, runs, before, after, k);
  }

  lemma OutermostStays(u: CharTable, words: seq<Word>, tuning: IslandTuning, runs: Runs, k: int)
    requires Fits(runs, |words|) && 0 <= k < |runs.names| && (k == 0 || k == |runs.names| - 1)
    ensures !Absorbed(u, words, tuning, runs, k)
  {
  }

  /** The scan's test at the end of run k is the greedy rule. */
  lemma DecisionIsAbsorbed(u: CharTable, words: seq<Word>, tuning: IslandTuning, labels: seq<string>, runs: Runs, now: seq<string>, k: int)
    requires |labels| == |words| == |now| && Represents(labels, runs) && Fits(runs, |words|)
    requires 0 < k < |runs.names| - 1 && IsSmoothed(u, words, tuning, runs, now, k)
    requires forall p :: runs.cuts[k] <= p < |words| ==> now[p] == labels[p]
    ensures Absorbed(u, words, tuning, runs, k)
      <==> (&& now[runs.cuts[k] - 1] == now[runs.cuts[k + 1]]
            && now[runs.cuts[k] - 1] != now[runs.cuts[k]]
            && Short(words, tuning, runs.cuts[k], runs.cuts[k + 1])
            && MidSentence(u, words, runs.cuts[k], runs.cuts[k + 1]))
    ensures Absorbed(u, words, tuning, runs, k) ==> now[runs.cuts[k] - 1] == runs.names[k - 1]
  {
    hide Short, MidSentence;
    NeighbourName(u, words, tuning, labels, runs, now, k);
    NamedAt(labels, runs, k + 1);
  }

  lemma SmoothedStep(u: CharTable, words: seq<Word>, tuning: IslandTuning, labels: seq<string>, runs: Runs,
                     before: seq<string>, after: seq<string>, k: int)
    requires |labels| == |words| == |before| == |after| && Fits(runs, |words|) && Represents(labels, runs)
    requires 0 <= k < |runs.names| && IsSmoothed(u, words, tuning, runs, before, k)
    requires forall p :: 0 <= p < runs.cuts[k] ==> after[p] == before[p]
    requires forall p :: runs.cuts[k] <= p < runs.cuts[k + 1] ==>
      after[p] == if Absorbed(u, words, tuning, runs, k) then runs.names[k - 1] else labels[p]
    ensures IsSmoothed(u, words, tuning, runs, after, k + 1)
  {
    NamedAt(labels, runs, k);
    forall j | 0 <= j < k + 1 ensures Holds(after, runs.cuts[j], runs.cuts[j + 1], Settled(u, words, tuning, runs, j)) {
      if j < k {
        assert Holds(before, runs.cuts[j], runs.cuts[j + 1], Settled(u, words, tuning, runs, j));
        assert j + 1 == k || runs.cuts[j + 1] < runs.cuts[k];
      }
    }
  }

  lemma RunGoesOn(labels: seq<string>, runs: Runs, k: int, index: int)
    requires Represents(labels, runs) && 0 <= k < |runs.names|
    requires runs.cuts[k] < index <= runs.cuts[k + 1] && index < |labels| && labels[index] == labels[runs.cuts[k]]
    ensures index < runs.cuts[k + 1]
  {
    NamedAt(labels, runs, k);
    if k + 1 < |runs.names| {
      NamedAt(labels, runs, k + 1);
      assert runs.names[k + 1 - 1] != runs.names[k + 1];
    }
  }

  lemma RunEnds(labels: seq<string>, runs: Runs, k: int, index: int)
    requires Represents(labels, runs) && 0 <= k < |runs.names|
    requires runs.cuts[k] < index <= runs.cuts[k + 1]
    requires index < |labels| ==> labels[index] != labels[runs.cuts[k]]
    ensures index == runs.cuts[k + 1]
  {
    NamedAt(labels, runs, k);
  }

  /** The label in front of run k when the scan reaches its end. */
  lemma NeighbourName(u: CharTable, words: seq<Word>, tuning: IslandTuning, labels: seq<string>, runs: Runs, now: seq<string>, k: int)
    requires |labels| == |words| == |now| && Represents(labels, runs) && Fits(runs, |words|)
    requires 0 < k < |runs.names| - 1 && IsSmoothed(u, words, tuning, runs, now, k)
    ensures now[runs.cuts[k] - 1] == Settled(u, words, tuning, runs, k - 1)
    ensures labels[runs.cuts[k]] == runs.names[k] && labels[runs.cuts[k + 1]] == runs.names[k + 1]
    ensures Settled(u, words, tuning, runs, k - 1) != runs.names[k] <==> !Absorbed(u, words, tuning, runs, k - 1)
  {
    assert Holds(now, runs.cuts[k - 1], runs.cuts[k - 1 + 1], Settled(u, words, tuning, runs, k - 1));
    NamedAt(labels, runs, k);
    NamedAt(labels, runs, k + 1);
    assert runs.names[k - 1] != runs.names[k];
  }

  lemma Edges(u: CharTable, words: seq<Word>, tuning: IslandTuning, labels: seq<string>, runs: Runs, smoothed: seq<string>)
    requires |labels| == |words| == |smoothed| && Represents(labels, runs) && Fits(runs, |words|)
    requires IsSmoothed(u, words, tuning, runs, smoothed, |runs.names|)
    ensures labels != [] ==> smoothed[0] == labels[0] && smoothed[|labels| - 1] == labels[|labels| - 1]
    ensures forall p :: 0 <= p < |smoothed| ==> smoothed[p] in labels
  {
    forall p | 0 <= p < |smoothed|
      ensures smoothed[p] in labels
      ensures p == 0 || p == |labels| - 1 ==> smoothed[p] == labels[p]
    {
      var k := RunAt(runs, p);
      assert Holds(smoothed, runs.cuts[k], runs.cuts[k + 1], Settled(u, words, tuning, runs, k));
      NamedAt(labels, runs, k);
      assert labels[runs.cuts[k]] in labels;
      if k > 0 {
        NamedAt(labels, runs, k - 1);
        assert labels[runs.cuts[k - 1]] in labels;
        assert runs.cuts[0] < runs.cuts[k];
      }
      if k + 1 < |runs.names| {
        assert runs.cuts[k + 1] < runs.cuts[|runs.names|];
      }
    }
  }

  // ---- what one pass does to the labels

  /** The labels from a to b are one stretch besides its two ends, which the pass keeps and whose
      name it takes. */
  ghost predicate TakenIn(labels: seq<string>, smoothed: seq<string>, a: int, b: int)
    requires |labels| == |smoothed|
  {
    && 0 <= a < b < |labels|
    && labels[a] == smoothed[a] == labels[b] == smoothed[b]
    && (forall q :: a < q < b ==> labels[q] == labels[a + 1] && smoothed[q] == labels[a])
  }

  /** Every relabelled word lies in such a stretch. */
  lemma RelabelledInsideKept(u: CharTable, words: seq<Word>, tuning: IslandTuning, labels: seq<string>, smoothed: seq<string>, p: int)
    requires OnePass(u, words, tuning, labels, smoothed) && 0 <= p < |labels| && smoothed[p] != labels[p]
    ensures exists a, b :: a < p < b && TakenIn(labels, smoothed, a, b)
  {
    hide RunsOf, Short, MidSentence, IsSmoothed;
    var runs := RunsOf(labels);
    var k := RunAt(runs, p);
    SettlesOn(u, words, tuning, labels, smoothed, k);
    assert Absorbed(u, words, tuning, runs, k);
    SettlesOn(u, words, tuning, labels, smoothed, k - 1);
    SettlesOn(u, words, tuning, labels, smoothed, k + 1);
    assert TakenIn(labels, smoothed, runs.cuts[k] - 1, runs.cuts[k + 1]);
  }

  /** Run k before and after the pass. */
  lemma SettlesOn(u: CharTable, words: seq<Word>, tuning: IslandTuning, labels: seq<string>, smoothed: seq<string>, k: int)
    requires OnePass(u, words, tuning, labels, smoothed) && 0 <= k < |RunsOf(labels).names|
    ensures var runs := RunsOf(labels);
      && 0 <= runs.cuts[k] < runs.cuts[k + 1] <= |labels|
      && (forall p :: runs.cuts[k] <= p < runs.cuts[k + 1] ==>
        labels[p] == runs.names[k] && smoothed[p] == Settled(u, words, tuning, runs, k))
    ensures k > 0 ==> RunsOf(labels).names[k - 1] != RunsOf(labels).names[k]
  {
    hide RunsOf, Settled;
    var runs := RunsOf(labels);
    NamedAt(labels, runs, k);
    assert Holds(smoothed, runs.cuts[k], runs.cuts[k + 1], Settled(u, words, tuning, runs, k));
  }
}
