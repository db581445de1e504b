/** src/vemsa/pipeline/diarize.py, _label_words: whose each word is. */
module WordRule {
  import opened Base
  import opened Models
  import opened Labelling

  /** How long the turn runs during the word. */
  function During(word: Word, turn: Turn): real {
    var from, to := if turn.start < word.start then word.start else turn.start, if turn.end < word.end then turn.end else word.end;
    if from < to then to - from else 0.0
  }

  /** How far apart the middles are, twice over. */
  function Between(word: Word, turn: Turn): real {
    var apart := (turn.start + turn.end) - (word.start + word.end);
    if apart < 0.0 then -apart else apart
  }

  /** Turn i runs longer during the word than any before it, as long as any after it, and for long enough. */
  ghost predicate HasTheWord(word: Word, turns: seq<Turn>, minCoverage: real, i: int) {
    && 0 <= i < |turns| && During(word, turns[i]) > 0.0 && During(word, turns[i]) >= minCoverage * (word.end - word.start)
    && (forall j :: 0 <= j < i ==> During(word, turns[j]) < During(word, turns[i]))
    && (forall j :: i < j < |turns| ==> During(word, turns[j]) <= During(word, turns[i]))
  }

  ghost predicate IsNearest(word: Word, turns: seq<Turn>, i: int) {
    && 0 <= i < |turns|
    && (forall j :: 0 <= j < i ==> Between(word, turns[i]) < Between(word, turns[j]))
    && (forall j :: i < j < |turns| ==> Between(word, turns[i]) <= Between(word, turns[j]))
  }

  /** A word is the speaker's whose turn has it; where none has, it goes on with the word before across a short
      gap, and else to the nearest turn. */
  ghost predicate RightlyNamed(words: seq<Word>, turns: seq<Turn>, minCoverage: real, maxGap: real, labels: seq<string>, p: int)
    requires 0 <= p < |words| && p < |labels|
  {
    if exists i :: HasTheWord(words[p], turns, minCoverage, i) then
      exists i :: HasTheWord(words[p], turns, minCoverage, i) && labels[p] == turns[i].speaker
    else if p > 0 && words[p].start - words[p - 1].end <= maxGap then labels[p] == labels[p - 1]
    else exists i :: IsNearest(words[p], turns, i) && labels[p] == turns[i].speaker
  }

  lemma OverlapIsDuring(word: Word, turn: Turn)
    ensures Overlap(word, turn) == During(word, turn)
    ensures CommonTime(word.start, word.end, turn.start, turn.end, During(word, turn))
    ensures Between(word, turn) == 2.0 * Distance(word, turn)
  {
    CommonTimeIs(word.start, word.end, turn.start, turn.end, During(word, turn));
  }

  lemma HasIff(word: Word, turns: seq<Turn>, minCoverage: real, i: int)
    ensures HasTheWord(word, turns, minCoverage, i) <==> Covered(word, turns, minCoverage, i)
    ensures IsNearest(word, turns, i) <==> Nearest(word, turns, i)
  {
    hide Overlap, During, Distance, Between;
    forall j | 0 <= j < |turns|
      ensures Overlap(word, turns[j]) == During(word, turns[j]) && Between(word, turns[j]) == 2.0 * Distance(word, turns[j])
    {
      OverlapIsDuring(word, turns[j]);
    }
  }

  /** The labelling names every word rightly, and there is no other that does. */
  lemma EveryWordIsRightlyNamed(words: seq<Word>, turns: seq<Turn>, minCoverage: real, maxGap: real, labels: seq<string>, p: int)
    requires LabelledUpTo(words, turns, minCoverage, maxGap, labels, |words|) && 0 <= p < |words|
    ensures RightlyNamed(words, turns, minCoverage, maxGap, labels, p)
  {
    hide Covered, Nearest, HasTheWord, IsNearest, SomeTurns;
    forall i
      ensures HasTheWord(words[p], turns, minCoverage, i) <==> Covered(words[p], turns, minCoverage, i)
      ensures IsNearest(words[p], turns, i) <==> Nearest(words[p], turns, i)
    {
      HasIff(words[p], turns, minCoverage, i);
    }
    assert LabelledAt(words, turns, minCoverage, maxGap, labels, p);
  }
}
