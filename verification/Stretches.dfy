/** src/vemsa/pipeline/diarize.py, _smooth_islands: which stretches of words change their speaker. */
module Stretches {
  import opened Base
  import opened Models
  import opened Text
  import opened Runs
  import opened Islands

  /** Words from..to pass quickly: few of them in little time, or any number in very little. */
  ghost predicate Quick(words: seq<Word>, tuning: IslandTuning, from: int, to: int) {
    && 0 <= from < to <= |words|
    && (|| words[to - 1].end - words[from].start <= tuning.maxDuration
        || (to - from <= tuning.maxWords && words[to - 1].end - words[from].start <= tuning.maxSpan))
  }

  /** No sentence ends before them, or the sentence reads on from them into the next word. */
  ghost predicate InASentence(u: CharTable, words: seq<Word>, from: int, to: int) {
    && 0 < from < to < |words|
    && (Marked(words[from - 1].word) ==> !Marked(words[to - 1].word) && LowerFirst(u, words[to].word))
  }

  /** Between words a and b of one speaker stands a stretch of another, quick and in the middle of a sentence. */
  ghost predicate Island(u: CharTable, words: seq<Word>, tuning: IslandTuning, labels: seq<string>, a: int, b: int) {
    && |labels| == |words| && 0 <= a && a + 1 < b < |labels|
    && labels[a] == labels[b] != labels[a + 1] && (forall q :: a < q < b ==> labels[q] == labels[a + 1])
    && Quick(words, tuning, a + 1, b) && InASentence(u, words, a + 1, b)
  }

  lemma QuickIff(u: CharTable, words: seq<Word>, tuning: IslandTuning, from: int, to: int)
    requires 0 < from < to < |words|
    ensures Short(words, tuning, from, to) <==> Quick(words, tuning, from, to)
    ensures MidSentence(u, words, from, to) <==> InASentence(u, words, from, to)
  {
    hide EndsSentence, ContinuesSentence, Marked, LowerFirst;
    EndsSentenceIff(words[from - 1].word);
    EndsSentenceIff(words[to - 1].word);
    ContinuesSentenceIff(u, words[to].word);
  }

  /** A word changes its speaker only inside an island, whose shores keep theirs. */
  lemma OnlyIslandsChange(u: CharTable, words: seq<Word>, tuning: IslandTuning, labels: seq<string>, smoothed: seq<string>, p: int)
    requires OnePass(u, words, tuning, labels, smoothed) && 0 <= p < |labels| && smoothed[p] != labels[p]
    ensures exists a, b :: a < p < b && Island(u, words, tuning, labels, a, b) && TakenIn(labels, smoothed, a, b)
  {
    hide RunsOf, Short, MidSentence, IsSmoothed, Quick, InASentence;
    var runs := RunsOf(labels);
    var k := RunAt(runs, p);
    SettlesOn(u, words, tuning, labels, smoothed, k);
    assert Absorbed(u, words, tuning, runs, k);
    SettlesOn(u, words, tuning, labels, smoothed, k - 1);
    SettlesOn(u, words, tuning, labels, smoothed, k + 1);
    var a, b := runs.cuts[k] - 1, runs.cuts[k + 1];
    QuickIff(u, words, tuning, a + 1, b);
    assert TakenIn(labels, smoothed, a, b);
    assert Island(u, words, tuning, labels, a, b);
  }

  /** An island whose left shore keeps its speaker takes that speaker's name. */
  lemma IslandsChange(u: CharTable, words: seq<Word>, tuning: IslandTuning, labels: seq<string>, smoothed: seq<string>, a: int, b: int)
    requires OnePass(u, words, tuning, labels, smoothed) && Island(u, words, tuning, labels, a, b) && smoothed[a] == labels[a]
    ensures forall q :: a < q < b ==> smoothed[q] == labels[a]
  {
    hide RunsOf, Short, MidSentence, IsSmoothed, Quick, InASentence;
    var runs := RunsOf(labels);
    var k := RunAt(runs, a + 1);
    ChangeIsCut(labels, runs, a + 1);
    IslandIsRun(labels, runs, a, b, k);
    QuickIff(u, words, tuning, a + 1, b);
    SettlesOn(u, words, tuning, labels, smoothed, k);
    SettlesOn(u, words, tuning, labels, smoothed, k - 1);
    SettlesOn(u, words, tuning, labels, smoothed, k + 1);
    if k >= 2 {
      SettlesOn(u, words, tuning, labels, smoothed, k - 2);
    }
    assert Absorbable(u, words, tuning, runs, k);
    assert !Absorbed(u, words, tuning, runs, k - 1);
    assert Absorbed(u, words, tuning, runs, k);
  }

  lemma IslandIsRun(labels: seq<string>, runs: Runs, a: int, b: int, k: int)
    requires Represents(labels, runs) && 0 <= a && a + 1 < b < |labels|
    requires labels[a] == labels[b] != labels[a + 1] && forall q :: a < q < b ==> labels[q] == labels[a + 1]
    requires 0 <= k < |runs.names| && runs.cuts[k] <= a + 1 < runs.cuts[k + 1]
    ensures 0 < k < |runs.names| - 1 && runs.cuts[k] == a + 1 && runs.cuts[k + 1] == b
  {
    NamedAt(labels, runs, k);
    assert runs.cuts[k] == a + 1;
    assert runs.cuts[k + 1] <= b;
    if runs.cuts[k + 1] < b {
      RunGoesOn(labels, runs, k, runs.cuts[k + 1]);
    }
  }
}
