/** src/vemsa/pipeline/diarize.py, _snap_boundaries: where a speaker change goes. */
module Changes {
  import opened Base
  import opened Models
  import opened Text
  import opened Runs
  import opened Snapping

  /** The change cuts a sentence in two, with no long silence in between. */
  ghost predicate MidSentence(u: CharTable, words: seq<Word>, tuning: SnapTuning, cut: int) {
    && 0 < cut < |words| && !Marked(words[cut - 1].word) && LowerFirst(u, words[cut].word)
    && words[cut].start - words[cut - 1].end <= tuning.maxGap
  }

  /** A sentence ends just before x, near the change and inside the two runs it parts. */
  ghost predicate Place(words: seq<Word>, tuning: SnapTuning, left: int, cut: int, right: int, x: int) {
    && 0 <= left < x < right <= |words| && x != cut && cut - tuning.maxWords <= x <= cut + tuning.maxWords
    && Marked(words[x - 1].word)
  }

  /** The closest place on its side of the change. */
  ghost predicate ClosestPlace(words: seq<Word>, tuning: SnapTuning, left: int, cut: int, right: int, x: int) {
    && Place(words, tuning, left, cut, right, x)
    && forall y :: Place(words, tuning, left, cut, right, y) ==> !(x < y < cut) && !(cut < y < x)
  }

  function Steps(cut: int, x: int): int {
    if x < cut then cut - x else x - cut
  }

  function Pause(words: seq<Word>, x: int): real
    requires 0 < x < |words|
  {
    words[x].start - words[x - 1].end
  }

  /** The larger silence wins, then the shorter way, then the way back. */
  ghost predicate AtLeastAsGood(words: seq<Word>, cut: int, x: int, y: int)
    requires 0 < x < |words| && 0 < y < |words|
  {
    || Pause(words, x) > Pause(words, y)
    || (Pause(words, x) == Pause(words, y) && (Steps(cut, x) < Steps(cut, y) || (Steps(cut, x) == Steps(cut, y) && x <= y)))
  }

  ghost predicate GoesRightly(u: CharTable, words: seq<Word>, tuning: SnapTuning, left: int, cut: int, right: int, c: int) {
    if MidSentence(u, words, tuning, cut) && exists x :: Place(words, tuning, left, cut, right, x)
    then ClosestPlace(words, tuning, left, cut, right, c)
         && forall y :: ClosestPlace(words, tuning, left, cut, right, y) ==> AtLeastAsGood(words, cut, c, y)
    else c == cut
  }

  lemma MarkedIff(words: seq<Word>, i: int)
    requires 0 <= i < |words|
    ensures EndsAt(words, i) <==> Marked(words[i].word)
  {
    EndsSentenceIff(words[i].word);
  }

  /** The search behind finds the closest place before the change, and the search ahead the closest after it. */
  lemma BehindIs(words: seq<Word>, tuning: SnapTuning, left: int, cut: int, right: int)
    requires 0 <= left < cut < right <= |words|
    ensures var e := Behind(words, tuning, left, cut);
      && (e.Some? ==> ClosestPlace(words, tuning, left, cut, right, e.value + 1) && e.value + 1 < cut)
      && forall y :: Place(words, tuning, left, cut, right, y) && y < cut ==> e.Some? && y <= e.value + 1
  {
    hide Marked, EndsAt;
    var e := Behind(words, tuning, left, cut);
    if e.Some? {
      MarkedIff(words, e.value);
    }
    forall y | Place(words, tuning, left, cut, right, y) && y < cut ensures e.Some? && y <= e.value + 1 {
      MarkedIff(words, y - 1);
    }
  }

  lemma AheadIs(words: seq<Word>, tuning: SnapTuning, left: int, cut: int, right: int)
    requires 0 <= left < cut < right <= |words|
    ensures var e := Ahead(words, tuning, cut, right);
      && (e.Some? ==> ClosestPlace(words, tuning, left, cut, right, e.value + 1) && cut < e.value + 1)
      && forall y :: Place(words, tuning, left, cut, right, y) && cut < y ==> e.Some? && e.value + 1 <= y
  {
    hide Marked, EndsAt;
    var e := Ahead(words, tuning, cut, right);
    if e.Some? {
      MarkedIff(words, e.value);
    }
    forall y | Place(words, tuning, left, cut, right, y) && cut < y ensures e.Some? && e.value + 1 <= y {
      MarkedIff(words, y - 1);
    }
    if e.Some? {
      forall y | Place(words, tuning, left, cut, right, y) ensures !(cut < y < e.value + 1) {
      }
    }
  }

  lemma SnappedGoes(u: CharTable, words: seq<Word>, tuning: SnapTuning, left: int, cut: int, right: int)
    requires 0 <= left < cut < right <= |words|
    ensures GoesRightly(u, words, tuning, left, cut, right, Snapped(u, words, tuning, left, cut, right))
  {
    hide Marked, LowerFirst, EndsSentence, ContinuesSentence, Place, Behind, Ahead;
    MarkedIff(words, cut - 1);
    ContinuesSentenceIff(u, words[cut].word);
    MidSentenceIff(u, words, tuning, cut);
    BehindIs(words, tuning, left, cut, right);
    AheadIs(words, tuning, left, cut, right);
    PlacesLieAside(words, tuning, left, cut, right);
  }

  lemma MidSentenceIff(u: CharTable, words: seq<Word>, tuning: SnapTuning, cut: int)
    requires 0 < cut < |words|
    ensures Movable(u, words, tuning, cut) <==> MidSentence(u, words, tuning, cut)
  {
    hide EndsSentence, ContinuesSentence;
    EndsSentenceIff(words[cut - 1].word);
    ContinuesSentenceIff(u, words[cut].word);
  }

  lemma PlacesLieAside(words: seq<Word>, tuning: SnapTuning, left: int, cut: int, right: int)
    ensures forall y :: Place(words, tuning, left, cut, right, y) ==> 0 < y < |words| && y != cut
  {
  }

  /** Every change goes where it should, between the change before it as moved and the one after it. */
  lemma EveryChangeGoesRightly(u: CharTable, words: seq<Word>, tuning: SnapTuning, runs: Runs, after: Runs, k: int)
    requires SnappedRuns(u, words, tuning, runs, after) && 1 <= k < |runs.names|
    ensures GoesRightly(u, words, tuning, after.cuts[k - 1], runs.cuts[k], runs.cuts[k + 1], after.cuts[k])
  {
    hide Snapped, GoesRightly;
    assert runs.cuts[k] < runs.cuts[k + 1] <= |words|;
    SnappedGoes(u, words, tuning, after.cuts[k - 1], runs.cuts[k], runs.cuts[k + 1]);
  }
}
