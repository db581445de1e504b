/** src/vemsa/pipeline/diarize.py, _label_words: every word gets a turn's speaker. */
module Labelling {
  import opened Base
  import opened Models

  // ---- the rule, turn by turn

  function Overlap(word: Word, turn: Turn): real {
    Max(0.0, Min(word.end, turn.end) - Max(word.start, turn.start))
  }

  /** The first turn of maximal positive overlap, over all turns. */
  ghost predicate Winner(word: Word, turns: seq<Turn>, i: int) {
    && 0 <= i < |turns| && Overlap(word, turns[i]) > 0.0
    && (forall j :: 0 <= j < |turns| ==> Overlap(word, turns[j]) <= Overlap(word, turns[i]))
    && (forall j :: 0 <= j < i ==> Overlap(word, turns[j]) < Overlap(word, turns[i]))
  }

  /** The winner is no sliver of the word. */
  ghost predicate Covered(word: Word, turns: seq<Turn>, minCoverage: real, i: int) {
    Winner(word, turns, i) && Overlap(word, turns[i]) >= minCoverage * (word.end - word.start)
  }

  function Distance(word: Word, turn: Turn): real {
    Abs((turn.start + turn.end) / 2.0 - (word.start + word.end) / 2.0)
  }

  /** The first turn whose midpoint is nearest to the word's. */
  ghost predicate Nearest(word: Word, turns: seq<Turn>, i: int) {
    && 0 <= i < |turns|
    && (forall j :: 0 <= j < |turns| ==> Distance(word, turns[i]) <= Distance(word, turns[j]))
    && (forall j :: 0 <= j < i ==> Distance(word, turns[i]) < Distance(word, turns[j]))
  }

  ghost predicate Inherits(words: seq<Word>, maxGap: real, p: int)
    requires 0 <= p < |words|
  {
    p > 0 && words[p].start - words[p - 1].end <= maxGap
  }

  /** What word p is labelled: its covering winner's speaker; else the previous word's label
      across a short gap; else the nearest turn's speaker. */
  ghost predicate LabelledAt(words: seq<Word>, turns: seq<Turn>, minCoverage: real, maxGap: real, labels: seq<string>, p: int)
    requires 0 <= p < |words| && p < |labels|
  {
    if exists i :: Covered(words[p], turns, minCoverage, i) then
      exists i :: Covered(words[p], turns, minCoverage, i) && labels[p] == turns[i].speaker
    else if Inherits(words, maxGap, p) then labels[p] == labels[p - 1]
    else exists i :: Nearest(words[p], turns, i) && labels[p] == turns[i].speaker
  }

  lemma NearestIsUnique(word: Word, turns: seq<Turn>, i: int, j: int)
    requires Nearest(word, turns, i) && Nearest(word, turns, j)
    ensures i == j
  {
    assert Distance(word, turns[i]) <= Distance(word, turns[j]);
    assert Distance(word, turns[j]) <= Distance(word, turns[i]);
  }

  /** The rule fixes every label: two labellings that follow it are the same. */
  lemma {:induction false} RuleIsDeterministic(words: seq<Word>, turns: seq<Turn>, minCoverage: real, maxGap: real,
                                               a: seq<string>, b: seq<string>, p: int)
    requires 0 <= p < |words| == |a| == |b|
    requires forall q :: 0 <= q < |words| ==> LabelledAt(words, turns, minCoverage, maxGap, a, q)
    requires forall q :: 0 <= q < |words| ==> LabelledAt(words, turns, minCoverage, maxGap, b, q)
    ensures a[p] == b[p]
  {
    assert LabelledAt(words, turns, minCoverage, maxGap, a, p) && LabelledAt(words, turns, minCoverage, maxGap, b, p);
    if exists i :: Covered(words[p], turns, minCoverage, i) {
      var i :| Covered(words[p], turns, minCoverage, i) && a[p] == turns[i].speaker;
      var j :| Covered(words[p], turns, minCoverage, j) && b[p] == turns[j].speaker;
    } else if Inherits(words, maxGap, p) {
      RuleIsDeterministic(words, turns, minCoverage, maxGap, a, b, p - 1);
    } else {
      var i :| Nearest(words[p], turns, i) && a[p] == turns[i].speaker;
      var j :| Nearest(words[p], turns, j) && b[p] == turns[j].speaker;
      NearestIsUnique(words[p], turns, i, j);
    }
  }

  // ---- the scan

  /** min(turns, key=distance): the first nearest turn. */
  method NearestTurn(word: Word, turns: seq<Turn>) returns (i: int)
    requires turns != []
    ensures Nearest(word, turns, i)
  {
    i := 0;
    for j := 1 to |turns|
      invariant 0 <= i < j
      invariant forall k :: 0 <= k < j ==> Distance(word, turns[i]) <= Distance(word, turns[k])
      invariant forall k :: 0 <= k < i ==> Distance(word, turns[i]) < Distance(word, turns[k])
    {
      if Distance(word, turns[j]) < Distance(word, turns[i]) {
        i := j;
      }
    }
  }

  /** The best turn seen among turns[..n], as the inner scan keeps it. */
  ghost predicate BestOf(word: Word, turns: seq<Turn>, n: int, best: Option<int>, bestOverlap: real) {
    && 0 <= n <= |turns|
    && (best.None? ==> bestOverlap == 0.0)
    && (best.Some? ==> 0 <= best.value < n && bestOverlap == Overlap(word, turns[best.value]) > 0.0)
    && (forall j :: 0 <= j < n ==> Overlap(word, turns[j]) <= bestOverlap)
    && (best.Some? ==> forall j :: 0 <= j < best.value ==> Overlap(word, turns[j]) < bestOverlap)
  }

  /** The inner scan from `first` up to the first turn past the word. No turn before `first`
      and none after the stopping point overlaps the word, so the scan sees every candidate. */
  method BestTurn(word: Word, turns: seq<Turn>, first: int) returns (best: Option<int>, bestOverlap: real)
    requires SortedBy(TurnStart, turns) && 0 <= first <= |turns|
    requires forall j :: 0 <= j < first ==> turns[j].end <= word.start
    ensures BestOf(word, turns, |turns|, best, bestOverlap)
  {
    best, bestOverlap := None, 0.0;
    forall j | 0 <= j < first ensures Overlap(word, turns[j]) == 0.0 {
    }
    var index := first;
    while index < |turns| && turns[index].start < word.end
      invariant first <= index <= |turns|
      invariant BestOf(word, turns, index, best, bestOverlap)
    {
      var overlap := Overlap(word, turns[index]);
      if overlap > bestOverlap {
        best, bestOverlap := Some(index), overlap;
      }
      index := index + 1;
    }
    forall j | index <= j < |turns| ensures Overlap(word, turns[j]) == 0.0 {
      assert TurnStart(turns[index]) <= TurnStart(turns[j]);
    }
  }

  ghost predicate SomeTurns(turns: seq<Turn>, name: string) {
    exists i :: 0 <= i < |turns| && turns[i].speaker == name
  }

  ghost predicate LabelledUpTo(words: seq<Word>, turns: seq<Turn>, minCoverage: real, maxGap: real, labels: seq<string>, n: int) {
    && |labels| == n <= |words|
    && forall p :: 0 <= p < n ==> LabelledAt(words, turns, minCoverage, maxGap, labels, p) && SomeTurns(turns, labels[p])
  }

  lemma LabelNext(words: seq<Word>, turns: seq<Turn>, minCoverage: real, maxGap: real, labels: seq<string>, n: int, name: string)
    requires LabelledUpTo(words, turns, minCoverage, maxGap, labels, n) && 0 <= n < |words|
    requires LabelledAt(words, turns, minCoverage, maxGap, labels + [name], n) && SomeTurns(turns, name)
    ensures LabelledUpTo(words, turns, minCoverage, maxGap, labels + [name], n + 1)
  {
    hide Covered, Nearest, SomeTurns;
    forall p | 0 <= p < n ensures LabelledAt(words, turns, minCoverage, maxGap, labels + [name], p) {
      assert LabelledAt(words, turns, minCoverage, maxGap, labels, p);
    }
  }

  /** The three ways a word gets its label, once the best turn over all turns is known. */
  method ChooseLabel(words: seq<Word>, turns: seq<Turn>, minCoverage: real, maxGap: real, labels: seq<string>,
                     candidate: Option<int>, bestOverlap: real)
    returns (name: string)
    requires turns != [] && |labels| < |words|
    requires LabelledUpTo(words, turns, minCoverage, maxGap, labels, |labels|)
    requires BestOf(words[|labels|], turns, |turns|, candidate, bestOverlap)
    ensures LabelledAt(words, turns, minCoverage, maxGap, labels + [name], |labels|) && SomeTurns(turns, name)
  {
    var position := |labels|;
    var word := words[position];
    var best := candidate;
    if bestOverlap < minCoverage * (word.end - word.start) {
      best := None;
      forall i ensures !Covered(word, turns, minCoverage, i) {
        if Winner(word, turns, i) && candidate.Some? {
        }
      }
    }
    if best.Some? {
      name := turns[best.value].speaker;
      assert Covered(word, turns, minCoverage, best.value);
    } else if position > 0 && word.start - words[position - 1].end <= maxGap {
      name := labels[position - 1];
    } else {
      var nearest := NearestTurn(word, turns);
      name := turns[nearest].speaker;
    }
  }

  /** The whole labelling equals the rule over all turns: the candidate pointer that only
      advances never skips a turn a later word needs. */
  method LabelWords(words: seq<Word>, turns: seq<Turn>, minCoverage: real, maxGap: real) returns (labels: seq<string>)
    requires SortedBy(WordStart, words) && SortedBy(TurnStart, turns) && turns != []
    ensures LabelledUpTo(words, turns, minCoverage, maxGap, labels, |words|)
  {
    hide LabelledAt, BestOf, SomeTurns;
    labels := [];
    var firstCandidate := 0;
    for position := 0 to |words|
      invariant LabelledUpTo(words, turns, minCoverage, maxGap, labels, position)
      invariant 0 <= firstCandidate <= |turns|
      invariant position < |words| ==> forall j :: 0 <= j < firstCandidate ==> turns[j].end <= words[position].start
    {
      var word := words[position];
      while firstCandidate < |turns| && turns[firstCandidate].end <= word.start
        invariant 0 <= firstCandidate <= |turns|
        invariant forall j :: 0 <= j < firstCandidate ==> turns[j].end <= word.start
      {
        firstCandidate := firstCandidate + 1;
      }
      var best, bestOverlap := BestTurn(word, turns, firstCandidate);
      var name := ChooseLabel(words, turns, minCoverage, maxGap, labels, best, bestOverlap);
      LabelNext(words, turns, minCoverage, maxGap, labels, position, name);
      labels := labels + [name];
      assert position + 1 < |words| ==> WordStart(words[position]) <= WordStart(words[position + 1]);
    }
  }
}
