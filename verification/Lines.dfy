/** src/vemsa/pipeline/diarize.py, _line_end and _group_labelled: words are grouped into
    lines the way a human lines a transcript. */
module Lines {
  import opened Base
  import opened Models
  import opened Text

  datatype LineTuning = LineTuning(gapSplit: real, hardGapSplit: real, sentenceSplit: real, maxSeconds: real, maxWords: int)

  // ---- where lines end

  /** The line always breaks in front of word i: the label changes, the silence is very long,
      or a sentence ended and a pause follows. */
  predicate Break(words: seq<Word>, labels: seq<Option<string>>, t: LineTuning, i: int)
    requires |labels| == |words| && 0 < i < |words|
  {
    var gap := words[i].start - words[i - 1].end;
    labels[i - 1] != labels[i] || gap > t.hardGapSplit || (EndsSentence(words[i - 1].word) && gap > t.gapSplit)
  }

  /** A bounded line that began at `start` also stops in front of word i: a sentence ended and
      the line has run long. */
  predicate LongSentence(words: seq<Word>, t: LineTuning, start: int, i: int)
    requires 0 <= start < i <= |words|
  {
    EndsSentence(words[i - 1].word) && words[i - 1].end - words[start].start >= t.sentenceSplit
  }

  predicate Stop(words: seq<Word>, labels: seq<Option<string>>, t: LineTuning, bounded: bool, start: int, i: int)
    requires |labels| == |words| && 0 <= start < i < |words|
  {
    Break(words, labels, t, i) || (bounded && LongSentence(words, t, start, i))
  }

  /** Word i no longer fits a bounded line. */
  predicate Full(words: seq<Word>, t: LineTuning, bounded: bool, start: int, i: int)
    requires 0 <= start < i < |words|
  {
    bounded && (i - start >= t.maxWords || words[i].end - words[start].start > t.maxSeconds)
  }

  ghost predicate Quiet(words: seq<Word>, labels: seq<Option<string>>, t: LineTuning, bounded: bool, start: int, i: int)
    requires |labels| == |words| && 0 <= start < i <= |words|
  {
    forall j :: start < j < i ==> !Stop(words, labels, t, bounded, start, j) && !Full(words, t, bounded, start, j)
  }

  /** The last place in (start, i] right after a sentence end. */
  function LastSentence(words: seq<Word>, start: int, i: int): Option<int>
    requires 0 <= start <= i <= |words|
    decreases i
  {
    if i == start then None
    else if EndsSentence(words[i - 1].word) then Some(i)
    else LastSentence(words, start, i - 1)
  }

  lemma {:induction false} LastSentenceIsLast(words: seq<Word>, start: int, i: int)
    requires 0 <= start <= i <= |words|
    ensures var e := LastSentence(words, start, i);
      && (e.Some? ==> start < e.value <= i && EndsSentence(words[e.value - 1].word))
      && forall j :: (if e.Some? then e.value else start) <= j < i ==> !EndsSentence(words[j].word)
  {
    if i > start && !EndsSentence(words[i - 1].word) {
      LastSentenceIsLast(words, start, i - 1);
    }
  }

  /** With i the first word at which the line stops or is full, the line ends there; a full
      line is cut back to its last sentence end, if it has one. */
  ghost predicate EndsBy(words: seq<Word>, labels: seq<Option<string>>, t: LineTuning, bounded: bool, start: int, i: int, e: int)
    requires |labels| == |words| && 0 <= start < i <= |words|
  {
    && Quiet(words, labels, t, bounded, start, i)
    && if i == |words| then e == i
       else if Stop(words, labels, t, bounded, start, i) then e == i
       else
         && Full(words, t, bounded, start, i)
         && e == (match LastSentence(words, start, i) case Some(s) => s case None => i)
  }

  ghost predicate IsLine(words: seq<Word>, labels: seq<Option<string>>, t: LineTuning, bounded: bool, start: int, e: int)
    requires |labels| == |words|
  {
    exists i :: 0 <= start < i <= |words| && EndsBy(words, labels, t, bounded, start, i, e)
  }

  method LineEnd(words: seq<Word>, labels: seq<Option<string>>, start: int, t: LineTuning, bounded: bool) returns (e: int)
    requires |labels| == |words| && 0 <= start < |words|
    ensures IsLine(words, labels, t, bounded, start, e)
  {
    hide EndsSentence;
    var lastSentenceEnd: Option<int> := None;
    for index := start + 1 to |words|
      invariant Quiet(words, labels, t, bounded, start, index)
      invariant lastSentenceEnd == LastSentence(words, start, index - 1)
      invariant SameLabels(labels, start, index)
    {
      var previous := words[index - 1];
      var gap := words[index].start - previous.end;
      assert labels[index - 1] == labels[start];
      if labels[index] != labels[start] || gap > t.hardGapSplit {
        assert EndsBy(words, labels, t, bounded, start, index, index);
        return index;
      }
      if EndsSentence(previous.word) {
        var lineS := previous.end - words[start].start;
        if gap > t.gapSplit || (bounded && lineS >= t.sentenceSplit) {
          assert EndsBy(words, labels, t, bounded, start, index, index);
          return index;
        }
        lastSentenceEnd := Some(index);
      }
      if bounded && (index - start >= t.maxWords || words[index].end - words[start].start > t.maxSeconds) {
        e := if lastSentenceEnd.Some? then lastSentenceEnd.value else index;
        assert EndsBy(words, labels, t, bounded, start, index, e);
        return;
      }
    }
    assert EndsBy(words, labels, t, bounded, start, |words|, |words|);
    e := |words|;
  }

  ghost predicate SameLabels(labels: seq<Option<string>>, from: int, to: int)
    requires 0 <= from < to <= |labels|
  {
    forall j :: from <= j < to ==> labels[j] == labels[from]
  }

  /** A line makes progress, holds no break inside, and carries one label. */
  lemma LineHoldsNoBreak(words: seq<Word>, labels: seq<Option<string>>, t: LineTuning, bounded: bool, start: int, e: int)
    requires |labels| == |words| && IsLine(words, labels, t, bounded, start, e)
    ensures 0 <= start < e <= |words|
    ensures forall j :: start < j < e ==> !Break(words, labels, t, j)
    ensures SameLabels(labels, start, e)
    ensures !bounded && e < |words| ==> Break(words, labels, t, e)
  {
    var i :| 0 <= start < i <= |words| && EndsBy(words, labels, t, bounded, start, i, e);
    LastSentenceIsLast(words, start, i);
    forall j | start < j < e ensures !Break(words, labels, t, j) {
      assert !Stop(words, labels, t, bounded, start, j);
    }
    LabelsStay(words, labels, t, start, e);
  }

  lemma {:induction false} LabelsStay(words: seq<Word>, labels: seq<Option<string>>, t: LineTuning, start: int, e: int)
    requires |labels| == |words| && 0 <= start < e <= |words|
    requires forall j :: start < j < e ==> !Break(words, labels, t, j)
    ensures SameLabels(labels, start, e)
    decreases e
  {
    if start < e - 1 {
      LabelsStay(words, labels, t, start, e - 1);
      assert !Break(words, labels, t, e - 1);
    }
  }

  /** A bounded line keeps its caps: at most maxWords words; within maxSeconds from two words
      on; and it never runs past a sentence end reached at or after sentenceSplit. */
  lemma BoundedLineKeepsCaps(words: seq<Word>, labels: seq<Option<string>>, t: LineTuning, start: int, e: int)
    requires |labels| == |words| && IsLine(words, labels, t, true, start, e) && t.maxWords >= 1
    ensures 0 <= start < e <= |words|
    ensures e - start <= t.maxWords
    ensures e - start >= 2 ==> words[e - 1].end - words[start].start <= t.maxSeconds
    ensures forall j :: start < j < e ==> !LongSentence(words, t, start, j)
  {
    var i :| 0 <= start < i <= |words| && EndsBy(words, labels, t, true, start, i, e);
    LastSentenceIsLast(words, start, i);
    assert i - 1 > start ==> !Full(words, t, true, start, i - 1);
    assert e - 1 > start ==> !Full(words, t, true, start, e - 1);
    forall j | start < j < e ensures !LongSentence(words, t, start, j) {
      assert !Stop(words, labels, t, true, start, j);
    }
  }

  // ---- why a line ends where it does

  /** Two words cannot share a line: they have different labels, a very long silence lies between them, or a
      sentence ended and a pause follows. */
  predicate Parted(words: seq<Word>, labels: seq<Option<string>>, t: LineTuning, i: int) {
    && 0 < i < |words| && |labels| == |words|
    && (|| labels[i - 1] != labels[i] || words[i].start - words[i - 1].end > t.hardGapSplit
        || (EndsSentence(words[i - 1].word) && words[i].start - words[i - 1].end > t.gapSplit))
  }

  /** Whatever the bounds, no line holds two words that cannot share one; and an unbounded line ends only there. */
  lemma LinesEndWhereParted(words: seq<Word>, labels: seq<Option<string>>, t: LineTuning, bounded: bool, start: int, e: int)
    requires |labels| == |words| && IsLine(words, labels, t, bounded, start, e)
    ensures 0 <= start < e <= |words|
    ensures forall j :: start < j < e ==> !Parted(words, labels, t, j)
    ensures !bounded && e < |words| ==> Parted(words, labels, t, e)
  {
    LineHoldsNoBreak(words, labels, t, bounded, start, e);
    forall j | start < j < e ensures !Parted(words, labels, t, j) {
      assert !Break(words, labels, t, j);
    }
  }

  /** One word more would take the line beyond its caps. */
  predicate Overfull(words: seq<Word>, t: LineTuning, start: int, i: int) {
    0 <= start < i < |words| && (i + 1 - start > t.maxWords || words[i].end - words[start].start > t.maxSeconds)
  }

  /** A sentence ended in front of word i when the line had run long. */
  predicate RanLong(words: seq<Word>, t: LineTuning, start: int, i: int) {
    0 <= start < i < |words| && EndsSentence(words[i - 1].word) && words[i - 1].end - words[start].start >= t.sentenceSplit
  }

  /** A bounded line that ends before the words do, ends where two words part, where a sentence ended in a line
      run long, or where it is full: then in front of the word that does not fit, or, if a sentence ended
      before in the line, right after the last that did. It ends at the first such word. */
  lemma WhyABoundedLineEnds(words: seq<Word>, labels: seq<Option<string>>, t: LineTuning, start: int, e: int)
    requires |labels| == |words| && IsLine(words, labels, t, true, start, e)
    ensures 0 <= start < e <= |words|
    ensures forall j :: start < j < e ==> !Parted(words, labels, t, j) && !RanLong(words, t, start, j) && !Overfull(words, t, start, j)
    ensures e < |words| ==>
      || Parted(words, labels, t, e) || RanLong(words, t, start, e)
      || (Overfull(words, t, start, e) && forall k :: start <= k < e ==> !EndsSentence(words[k].word))
      || (EndsSentence(words[e - 1].word) && exists i :: e <= i && FirstTooMany(words, labels, t, start, e, i))
  {
    var i :| 0 <= start < i <= |words| && EndsBy(words, labels, t, true, start, i, e);
    LastSentenceIsLast(words, start, i);
    forall j | start < j < i
      ensures !Parted(words, labels, t, j) && !RanLong(words, t, start, j) && !Overfull(words, t, start, j)
    {
      assert !Stop(words, labels, t, true, start, j) && !Full(words, t, true, start, j);
    }
    if e < |words| && !Stop(words, labels, t, true, start, i) {
      assert Full(words, t, true, start, i);
      if LastSentence(words, start, i).Some? {
        assert FirstTooMany(words, labels, t, start, e, i);
      }
    }
  }

  /** Word i is the first that does not fit the line, and no sentence ends between e and it. */
  ghost predicate FirstTooMany(words: seq<Word>, labels: seq<Option<string>>, t: LineTuning, start: int, e: int, i: int) {
    && Overfull(words, t, start, i)
    && (forall j :: start < j < i ==> !Parted(words, labels, t, j) && !RanLong(words, t, start, j) && !Overfull(words, t, start, j))
    && (forall k :: 0 <= e <= k < i ==> !EndsSentence(words[k].word))
  }

  // ---- _group_labelled

  function Spelled(words: seq<Word>): seq<string> {
    Map((w: Word) => w.word, words)
  }

  /** The segment made of a stretch of words: its span, text and words are those of the words. */
  function LineOf(words: seq<Word>, speaker: Option<string>): Segment
    requires words != []
  {
    PlainSegment(words[0].start, words[|words| - 1].end, speaker, Join(Spelled(words)), words)
  }

  ghost predicate IsLineSegment(words: seq<Word>, labels: seq<Option<string>>, t: LineTuning, bounded: bool,
                                segment: Segment, from: int, to: int)
    requires |labels| == |words|
  {
    && IsLine(words, labels, t, bounded, from, to)
    && 0 <= from < to <= |words|
    && segment == LineOf(words[from..to], labels[from])
  }

  /** One segment per line, between consecutive cuts. */
  ghost predicate Grouped(words: seq<Word>, labels: seq<Option<string>>, t: LineTuning, bounded: bool,
                          segments: seq<Segment>, cuts: seq<int>)
    requires |labels| == |words|
  {
    && |cuts| == |segments| + 1 && cuts[0] == 0
    && forall k :: 0 <= k < |segments| ==> IsLineSegment(words, labels, t, bounded, segments[k], cuts[k], cuts[k + 1])
  }

  function WordLists(segments: seq<Segment>): seq<seq<Word>> {
    Map((s: Segment) => s.words, segments)
  }

  lemma WordListsSnoc(segments: seq<Segment>, segment: Segment)
    ensures Flatten(WordLists(segments + [segment])) == Flatten(WordLists(segments)) + segment.words
  {
    FlattenSnoc(WordLists(segments), segment.words);
    assert WordLists(segments + [segment]) == WordLists(segments) + [segment.words];
  }

  /** The lines so far hold exactly the words so far. */
  ghost predicate GroupedSoFar(words: seq<Word>, labels: seq<Option<string>>, t: LineTuning, bounded: bool,
                               segments: seq<Segment>, cuts: seq<int>, n: int)
    requires |labels| == |words|
  {
    && Grouped(words, labels, t, bounded, segments, cuts) && cuts[|segments|] == n && 0 <= n <= |words|
    && Flatten(WordLists(segments)) == words[..n]
  }

  lemma GroupNext(words: seq<Word>, labels: seq<Option<string>>, t: LineTuning, bounded: bool,
                  segments: seq<Segment>, cuts: seq<int>, start: int, end: int)
    requires |labels| == |words| && GroupedSoFar(words, labels, t, bounded, segments, cuts, start)
    requires 0 <= start < end <= |words| && IsLine(words, labels, t, bounded, start, end)
    ensures GroupedSoFar(words, labels, t, bounded,
      segments + [LineOf(words[start..end], labels[start])], cuts + [end], end)
  {
    hide IsLine, Flatten, LineOf;
    WordListsSnoc(segments, LineOf(words[start..end], labels[start]));
    LineWords(words[start..end], labels[start]);
    assert words[..end] == words[..start] + words[start..end];
  }

  lemma LineWords(words: seq<Word>, speaker: Option<string>)
    requires words != []
    ensures LineOf(words, speaker).words == words
  {
  }

  /** Grouping terminates and partitions the words into lines. */
  method GroupLabelled(words: seq<Word>, labels: seq<Option<string>>, t: LineTuning, bounded: bool)
    returns (segments: seq<Segment>, ghost cuts: seq<int>)
    requires |labels| == |words|
    ensures Grouped(words, labels, t, bounded, segments, cuts) && cuts[|segments|] == |words|
    ensures Flatten(WordLists(segments)) == words
  {
    hide IsLine, Break;
    segments, cuts := [], [0];
    assert words[..0] == [];
    var start := 0;
    while start < |words|
      invariant 0 <= start <= |words|
      invariant GroupedSoFar(words, labels, t, bounded, segments, cuts, start)
    {
      var end := LineEnd(words, labels, start, t, bounded);
      LineHoldsNoBreak(words, labels, t, bounded, start, end);
      GroupNext(words, labels, t, bounded, segments, cuts, start, end);
      segments, cuts := segments + [LineOf(words[start..end], labels[start])], cuts + [end];
      start := end;
    }
    assert words[..|words|] == words;
  }

  /** The line a position lies in. */
  lemma {:induction false} LineAt(words: seq<Word>, labels: seq<Option<string>>, t: LineTuning, bounded: bool,
                                  segments: seq<Segment>, cuts: seq<int>, p: int) returns (k: int)
    requires |labels| == |words| && Grouped(words, labels, t, bounded, segments, cuts)
    requires 0 <= p < cuts[|segments|]
    ensures 0 <= k < |segments| && cuts[k] <= p < cuts[k + 1]
    decreases |segments|
  {
    var m := |segments| - 1;
    if cuts[m] <= p {
      k := m;
    } else {
      assert Grouped(words, labels, t, bounded, segments[..m], cuts[..m + 1]);
      k := LineAt(words, labels, t, bounded, segments[..m], cuts[..m + 1], p);
    }
  }

  /** Bounded or not, every break is a cut; unbounded lines are cut nowhere else. So bounded
      grouping refines unbounded grouping, which is decided by neighbouring words alone. */
  lemma CutsAreBreaks(words: seq<Word>, labels: seq<Option<string>>, t: LineTuning, bounded: bool,
                      segments: seq<Segment>, cuts: seq<int>, p: int)
    requires |labels| == |words| && Grouped(words, labels, t, bounded, segments, cuts) && cuts[|segments|] == |words|
    requires 0 < p < |words|
    ensures Break(words, labels, t, p) ==> p in cuts
    ensures !bounded && p in cuts ==> Break(words, labels, t, p)
  {
    hide Break, IsLine, LineOf;
    var k := LineAt(words, labels, t, bounded, segments, cuts, p);
    assert IsLineSegment(words, labels, t, bounded, segments[k], cuts[k], cuts[k + 1]);
    LineHoldsNoBreak(words, labels, t, bounded, cuts[k], cuts[k + 1]);
    if !bounded && p in cuts {
      var j :| 0 <= j < |cuts| && cuts[j] == p;
      assert j > 0 && IsLineSegment(words, labels, t, bounded, segments[j - 1], cuts[j - 1], cuts[j - 1 + 1]);
      LineHoldsNoBreak(words, labels, t, bounded, cuts[j - 1], cuts[j - 1 + 1]);
    }
  }
}
