/** src/vemsa/pipeline/diarize.py, _smooth_islands: when a pass changes nothing. */
module SecondPass {
  import opened Base
  import opened Models
  import opened Text
  import opened Runs
  import opened Islands

  /** A pass changes nothing exactly when no run may be absorbed: of the first that may, or of the one
      before it, one is. */
  lemma NothingChangesIff(u: CharTable, words: seq<Word>, tuning: IslandTuning, labels: seq<string>, smoothed: seq<string>)
    requires OnePass(u, words, tuning, labels, smoothed)
    ensures smoothed == labels <==> forall k :: !Absorbable(u, words, tuning, RunsOf(labels), k)
  {
    hide RunsOf, Short, MidSentence, IsSmoothed;
    var runs := RunsOf(labels);
    if k :| Absorbable(u, words, tuning, runs, k) {
      var m := if Absorbed(u, words, tuning, runs, k) then k else k - 1;
      SettlesOn(u, words, tuning, labels, smoothed, m);
      assert smoothed[runs.cuts[m]] != labels[runs.cuts[m]];
    } else {
      forall p | 0 <= p < |labels| ensures smoothed[p] == labels[p] {
        SettlesOn(u, words, tuning, labels, smoothed, RunAt(runs, p));
      }
    }
  }

  // ---- the runs that are left after a pass, told by the runs there were

  /** Between runs k - 1 and k nothing was absorbed, so the speaker still changes there. */
  ghost predicate Seam(u: CharTable, words: seq<Word>, tuning: IslandTuning, runs: Runs, k: int)
    requires Fits(runs, |words|)
  {
    0 < k < |runs.names| && !Absorbed(u, words, tuning, runs, k - 1) && !Absorbed(u, words, tuning, runs, k)
  }

  /** Runs i to j - 1 have grown into one. */
  ghost predicate Grown(u: CharTable, words: seq<Word>, tuning: IslandTuning, runs: Runs, i: int, j: int)
    requires Fits(runs, |words|)
  {
    && i < j && Seam(u, words, tuning, runs, i) && Seam(u, words, tuning, runs, j)
    && (forall k :: i < k < j ==> !Seam(u, words, tuning, runs, k))
  }

  /** Runs i to j - 1, three or more, have grown into one that is itself short, mid-sentence and between
      two runs of one name. */
  ghost predicate GrownAbsorbable(u: CharTable, words: seq<Word>, tuning: IslandTuning, runs: Runs, i: int, j: int)
    requires Fits(runs, |words|)
  {
    && i + 3 <= j && Grown(u, words, tuning, runs, i, j) && runs.names[i - 1] == runs.names[j]
    && Short(words, tuning, runs.cuts[i], runs.cuts[j]) && MidSentence(u, words, runs.cuts[i], runs.cuts[j])
  }

  /** After a pass the speaker changes exactly at the seams. */
  lemma ChangesAreSeams(u: CharTable, words: seq<Word>, tuning: IslandTuning, labels: seq<string>, once: seq<string>, p: int)
    requires OnePass(u, words, tuning, labels, once) && 0 < p < |labels|
    ensures p in RunsOf(once).cuts <==> exists k :: Seam(u, words, tuning, RunsOf(labels), k) && RunsOf(labels).cuts[k] == p
  {
    hide RunsOf, Short, MidSentence, IsSmoothed;
    var runs := RunsOf(labels);
    ChangeIsCut(once, RunsOf(once), p);
    var k := RunAt(runs, p);
    SettlesOn(u, words, tuning, labels, once, k);
    if runs.cuts[k] == p {
      SettlesOn(u, words, tuning, labels, once, k - 1);
      SeamIsChange(u, words, tuning, runs, k);
    }
  }

  lemma SeamIsChange(u: CharTable, words: seq<Word>, tuning: IslandTuning, runs: Runs, k: int)
    requires Fits(runs, |words|) && 0 < k < |runs.names| && runs.names[k - 1] != runs.names[k]
    ensures Settled(u, words, tuning, runs, k - 1) != Settled(u, words, tuning, runs, k) <==> Seam(u, words, tuning, runs, k)
  {
    hide Short, MidSentence;
  }

  // ---- the second pass

  /** Run m of the second decomposition, neither first nor last, is made of runs i to j - 1 of the first. */
  ghost predicate MadeOf(runs: Runs, runs': Runs, i: int, j: int, m: int) {
    && 0 < i < j < |runs.names| && 0 < m < |runs'.names| - 1
    && |runs.cuts| == |runs.names| + 1 && |runs'.cuts| == |runs'.names| + 1
    && runs'.cuts[m] == runs.cuts[i] && runs'.cuts[m + 1] == runs.cuts[j]
  }

  lemma GrownIsRun(u: CharTable, words: seq<Word>, tuning: IslandTuning, labels: seq<string>, once: seq<string>, i: int, j: int)
    requires OnePass(u, words, tuning, labels, once) && Grown(u, words, tuning, RunsOf(labels), i, j)
    ensures exists m :: MadeOf(RunsOf(labels), RunsOf(once), i, j, m)
  {
    hide RunsOf, Short, MidSentence, IsSmoothed, Settled, Absorbed;
    var runs, runs' := RunsOf(labels), RunsOf(once);
    ChangesAreSeams(u, words, tuning, labels, once, runs.cuts[i]);
    ChangesAreSeams(u, words, tuning, labels, once, runs.cuts[j]);
    var m :| 0 <= m < |runs'.cuts| && runs'.cuts[m] == runs.cuts[i];
    var n :| 0 <= n < |runs'.cuts| && runs'.cuts[n] == runs.cuts[j];
    if m + 1 < n {
      ChangesAreSeams(u, words, tuning, labels, once, runs'.cuts[m + 1]);
    }
    assert MadeOf(runs, runs', i, j, m);
  }

  lemma RunIsGrown(u: CharTable, words: seq<Word>, tuning: IslandTuning, labels: seq<string>, once: seq<string>, m: int)
    requires OnePass(u, words, tuning, labels, once) && 0 < m < |RunsOf(once).names| - 1
    ensures exists i, j :: Grown(u, words, tuning, RunsOf(labels), i, j) && MadeOf(RunsOf(labels), RunsOf(once), i, j, m)
  {
    hide RunsOf, Short, MidSentence, IsSmoothed, Settled, Absorbed;
    var runs, runs' := RunsOf(labels), RunsOf(once);
    ChangesAreSeams(u, words, tuning, labels, once, runs'.cuts[m]);
    ChangesAreSeams(u, words, tuning, labels, once, runs'.cuts[m + 1]);
    var i :| Seam(u, words, tuning, runs, i) && runs.cuts[i] == runs'.cuts[m];
    var j :| Seam(u, words, tuning, runs, j) && runs.cuts[j] == runs'.cuts[m + 1];
    forall k | i < k < j ensures !Seam(u, words, tuning, runs, k) {
      ChangesAreSeams(u, words, tuning, labels, once, runs.cuts[k]);
    }
    assert Grown(u, words, tuning, runs, i, j) && MadeOf(runs, runs', i, j, m);
  }

  /** The names on either side are still those of the first pass's runs. */
  lemma NamesAround(u: CharTable, words: seq<Word>, tuning: IslandTuning, labels: seq<string>, once: seq<string>, i: int, j: int, m: int)
    requires OnePass(u, words, tuning, labels, once) && Grown(u, words, tuning, RunsOf(labels), i, j)
    requires MadeOf(RunsOf(labels), RunsOf(once), i, j, m)
    ensures RunsOf(once).names[m - 1] == RunsOf(labels).names[i - 1] && RunsOf(once).names[m + 1] == RunsOf(labels).names[j]
  {
    hide RunsOf, Short, MidSentence, IsSmoothed;
    SettlesOn(u, words, tuning, labels, once, i - 1);
    SettlesOn(u, words, tuning, labels, once, j);
    NamedAt(once, RunsOf(once), m - 1);
    NamedAt(once, RunsOf(once), m + 1);
    var a, b := RunsOf(labels).cuts[i], RunsOf(labels).cuts[j];
    assert once[a - 1] == RunsOf(once).names[m - 1] && once[b] == RunsOf(once).names[m + 1];
  }

  /** What has grown and may be absorbed holds three runs or more: a single one was turned down for
      good, and two never grow together. */
  lemma GrownIsThree(u: CharTable, words: seq<Word>, tuning: IslandTuning, runs: Runs, i: int, j: int)
    requires Fits(runs, |words|) && Grown(u, words, tuning, runs, i, j) && runs.names[i - 1] == runs.names[j]
    requires Short(words, tuning, runs.cuts[i], runs.cuts[j]) && MidSentence(u, words, runs.cuts[i], runs.cuts[j])
    ensures i + 3 <= j
  {
    hide Short, MidSentence;
    if j == i + 2 {
      NoSeamInside(u, words, tuning, runs, i, j, i + 1);
    }
  }

  lemma NoSeamInside(u: CharTable, words: seq<Word>, tuning: IslandTuning, runs: Runs, i: int, j: int, k: int)
    requires Fits(runs, |words|) && Grown(u, words, tuning, runs, i, j) && i < k < j
    ensures Absorbed(u, words, tuning, runs, k - 1) || Absorbed(u, words, tuning, runs, k)
  {
    assert !Seam(u, words, tuning, runs, k);
  }

  lemma AbsorbableAgain(u: CharTable, words: seq<Word>, tuning: IslandTuning, labels: seq<string>, once: seq<string>, i: int, j: int, m: int)
    requires OnePass(u, words, tuning, labels, once) && Fits(RunsOf(once), |words|)
    requires Grown(u, words, tuning, RunsOf(labels), i, j) && MadeOf(RunsOf(labels), RunsOf(once), i, j, m)
    ensures Absorbable(u, words, tuning, RunsOf(once), m) <==> GrownAbsorbable(u, words, tuning, RunsOf(labels), i, j)
  {
    hide RunsOf, Short, MidSentence, IsSmoothed, Grown;
    NamesAround(u, words, tuning, labels, once, i, j, m);
    if Absorbable(u, words, tuning, RunsOf(once), m) {
      GrownIsThree(u, words, tuning, RunsOf(labels), i, j);
    }
  }

  /** The pass is idempotent on exactly those labels of which no three or more runs grow into one that
      is itself short, mid-sentence and between two runs of one name. */
  lemma SecondPassChangesNothingIff(u: CharTable, words: seq<Word>, tuning: IslandTuning, labels: seq<string>, once: seq<string>, twice: seq<string>)
    requires OnePass(u, words, tuning, labels, once) && OnePass(u, words, tuning, once, twice)
    ensures twice == once <==> forall i, j :: !GrownAbsorbable(u, words, tuning, RunsOf(labels), i, j)
  {
    hide RunsOf, Absorbable, Grown, IsSmoothed;
    NothingChangesIff(u, words, tuning, once, twice);
    if k :| Absorbable(u, words, tuning, RunsOf(once), k) {
      InnerRun(u, words, tuning, once, k);
      RunIsGrown(u, words, tuning, labels, once, k);
      var i, j :| Grown(u, words, tuning, RunsOf(labels), i, j) && MadeOf(RunsOf(labels), RunsOf(once), i, j, k);
      AbsorbableAgain(u, words, tuning, labels, once, i, j, k);
    } else if i, j :| GrownAbsorbable(u, words, tuning, RunsOf(labels), i, j) {
      GrownIsRun(u, words, tuning, labels, once, i, j);
      var m :| MadeOf(RunsOf(labels), RunsOf(once), i, j, m);
      AbsorbableAgain(u, words, tuning, labels, once, i, j, m);
    }
  }

  lemma InnerRun(u: CharTable, words: seq<Word>, tuning: IslandTuning, labels: seq<string>, k: int)
    requires Fits(RunsOf(labels), |words|) && Absorbable(u, words, tuning, RunsOf(labels), k)
    ensures 0 < k < |RunsOf(labels).names| - 1
  {
  }

  // ---- an input on which it does

  lemma GrowsAgain(u: CharTable, words: seq<Word>, tuning: IslandTuning, labels: seq<string>, once: seq<string>, twice: seq<string>,
                   runs: Runs, i: int, j: int)
    requires OnePass(u, words, tuning, labels, once) && OnePass(u, words, tuning, once, twice)
    requires Represents(labels, runs) && GrownAbsorbable(u, words, tuning, runs, i, j)
    ensures twice != once
  {
    hide IsSmoothed, GrownAbsorbable;
    assert runs == RunsOf(labels) by {
      RunsAreUnique(labels, RunsOf(labels), runs);
    }
    SecondPassChangesNothingIff(u, words, tuning, labels, once, twice);
    assert GrownAbsorbable(u, words, tuning, RunsOf(labels), i, j);
  }

  const HURRIED := [Word("a", 0.0, 0.1, None), Word("b", 0.1, 0.2, None), Word("c", 0.2, 0.3, None),
                    Word("d", 0.3, 0.4, None), Word("e", 0.4, 0.5, None)]

  const HURRIED_RUNS := Runs([0, 1, 2, 3, 4, 5], ["A", "B", "C", "B", "A"])

  lemma HurriedRuns()
    ensures Represents(["A", "B", "C", "B", "A"], HURRIED_RUNS)
  {
    EachItsOwn(["A", "B", "C", "B", "A"], HURRIED_RUNS);
  }

  /** Labels that change at every word are runs of one word each. */
  lemma EachItsOwn(labels: seq<string>, runs: Runs)
    requires runs.names == labels && |runs.cuts| == |labels| + 1 && forall k :: 0 <= k < |runs.cuts| ==> runs.cuts[k] == k
    requires forall k :: 1 <= k < |labels| ==> labels[k - 1] != labels[k]
    ensures Represents(labels, runs)
  {
  }

  lemma HurriedGrows(u: CharTable)
    requires Fits(HURRIED_RUNS, |HURRIED|)
    ensures GrownAbsorbable(u, HURRIED, IslandTuning(2, 1.0, 3.0), HURRIED_RUNS, 1, 4)
  {
    hide ContinuesSentence, Fits;
    var tuning := IslandTuning(2, 1.0, 3.0);
    assert !Absorbed(u, HURRIED, tuning, HURRIED_RUNS, 1);
    assert Absorbed(u, HURRIED, tuning, HURRIED_RUNS, 2);
    assert !Absorbed(u, HURRIED, tuning, HURRIED_RUNS, 3);
  }

  /** With C absorbed inside B C B, the B run between two A runs is still short enough to go: whatever
      the first pass makes of these labels, the second makes something else of it. */
  lemma SmoothingTwiceCanDiffer(u: CharTable, once: seq<string>, twice: seq<string>)
    requires OnePass(u, HURRIED, IslandTuning(2, 1.0, 3.0), ["A", "B", "C", "B", "A"], once)
    requires OnePass(u, HURRIED, IslandTuning(2, 1.0, 3.0), once, twice)
    ensures twice != once
  {
    hide GrownAbsorbable, OnePass;
    HurriedRuns();
    HurriedGrows(u);
    GrowsAgain(u, HURRIED, IslandTuning(2, 1.0, 3.0), ["A", "B", "C", "B", "A"], once, twice, HURRIED_RUNS, 1, 4);
  }
}
