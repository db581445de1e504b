/** src/vemsa/pipeline/diarize.py, _merge_short_orphans: which lines lose their voice. */
module Strays {
  import opened Base
  import opened Models
  import opened Text
  import opened Lines
  import opened Orphans

  // ---- told of the lines alone

  predicate ShortLine(t: OrphanTuning, line: Segment) {
    |line.words| <= t.maxWords && line.end - line.start <= t.maxDuration
  }

  /** A short line between lines of other speakers. */
  ghost predicate Stray(t: OrphanTuning, lines: seq<Segment>, p: int) {
    && 0 <= p < |lines| && |lines| >= 2 && ShortLine(t, lines[p])
    && (p > 0 ==> lines[p - 1].speaker != lines[p].speaker)
    && (p + 1 < |lines| ==> lines[p + 1].speaker != lines[p].speaker)
  }

  ghost predicate Spoken(lines: seq<Segment>) {
    && (forall p :: 0 <= p < |lines| ==> lines[p].words != [] && lines[p].speaker.Some?)
    && (forall p, q :: 0 <= p <= q < |lines| ==> lines[p].start <= lines[q].start)
  }

  /** The sentence goes on from line p into the next. */
  ghost predicate GluedAt(u: CharTable, lines: seq<Segment>, p: int) {
    && 0 <= p && p + 1 < |lines| && lines[p].words != [] && lines[p + 1].words != []
    && !EndsSentence(LastWord(lines[p])) && ContinuesSentence(u, lines[p + 1].words[0].word)
  }

  /** Line p is no orphan whatever became of the lines before it: it is too long, its voice goes on from the
      line before, or it neither ends a sentence nor is carried on. */
  ghost predicate Firm(u: CharTable, t: OrphanTuning, lines: seq<Segment>, p: int) {
    && 0 <= p < |lines| && lines[p].words != []
    && (|| !ShortLine(t, lines[p])
        || (p > 0 && lines[p - 1].speaker == lines[p].speaker)
        || (!EndsSentence(LastWord(lines[p])) && !GluedAt(u, lines, p)))
  }

  /** Line p is short, alone in its voice after a firm line, and reads on into the next. */
  ghost predicate BelongsToNext(u: CharTable, t: OrphanTuning, lines: seq<Segment>, p: int) {
    && Stray(t, lines, p) && GluedAt(u, lines, p) && (p > 0 ==> Firm(u, t, lines, p - 1))
  }

  /** Line p is short, alone in its voice, and ends the sentence the firm line before it left open. */
  ghost predicate BelongsToLast(u: CharTable, t: OrphanTuning, lines: seq<Segment>, p: int) {
    && Stray(t, lines, p) && p > 0 && Firm(u, t, lines, p - 1) && GluedAt(u, lines, p - 1)
    && lines[p].words != [] && EndsSentence(LastWord(lines[p]))
  }

  function WordsOfLines(lines: seq<Segment>, lo: int, hi: int): seq<Word>
    requires 0 <= lo <= hi <= |lines|
  {
    Flatten(WordLists(lines[lo..hi]))
  }

  /** A segment made of the lines lo to hi - 1: only strays lost their voice, and wherever two lines became one
      the sentence went on and one of the two is a stray. */
  ghost predicate MadeOfLines(u: CharTable, t: OrphanTuning, lines: seq<Segment>, lo: int, hi: int, segment: Segment) {
    && 0 <= lo < hi <= |lines| && segment.speaker.Some? && segment.words == WordsOfLines(lines, lo, hi)
    && (forall p :: lo <= p < hi && lines[p].speaker != segment.speaker ==> Stray(t, lines, p))
    && (forall p :: lo <= p < hi - 1 ==> GluedAt(u, lines, p) && (Stray(t, lines, p) || Stray(t, lines, p + 1)))
  }

  /** The segments are made of the lines in order, and no line that belongs to its neighbour is cut off from it. */
  ghost predicate RightlyMerged(u: CharTable, t: OrphanTuning, lines: seq<Segment>, segments: seq<Segment>, b: seq<int>) {
    && |b| == |segments| + 1 && b[0] == 0 && b[|segments|] == |lines|
    && (forall i :: 0 <= i < |segments| ==> MadeOfLines(u, t, lines, b[i], b[i + 1], segments[i]))
    && (forall i :: 0 < i < |segments| ==> !BelongsToNext(u, t, lines, b[i] - 1) && !BelongsToLast(u, t, lines, b[i]))
  }

  // ---- the pass half way

  /** The line at hand may have grown from lines before it, each absorbed into the next. */
  ghost predicate AtHand(u: CharTable, t: OrphanTuning, lines: seq<Segment>, m: int, q: int, head: Segment) {
    && 0 <= m <= q < |lines| && head.words == WordsOfLines(lines, m, q + 1)
    && head.start == lines[m].start && head.end == lines[q].end && head.speaker == lines[q].speaker
    && (forall k :: m <= k < q ==> Stray(t, lines, k) && GluedAt(u, lines, k))
  }

  ghost predicate Left(u: CharTable, t: OrphanTuning, lines: seq<Segment>, m: int, q: int, rest: seq<Segment>) {
    if rest == [] then m == |lines|
    else AtHand(u, t, lines, m, q, rest[0]) && rest[1..] == lines[q + 1..]
  }

  /** The last result has the voice of its last line, unless that was a stray ending its sentence. */
  ghost predicate Tail(t: OrphanTuning, lines: seq<Segment>, m: int, done: seq<Segment>) {
    && (m == 0 <==> done == []) && 0 <= m <= |lines|
    && (m > 0 ==>
      && done[|done| - 1].words != [] && lines[m - 1].words != []
      && LastWord(done[|done| - 1]) == LastWord(lines[m - 1])
      && (|| lines[m - 1].speaker == done[|done| - 1].speaker
          || (Stray(t, lines, m - 1) && EndsSentence(LastWord(lines[m - 1])))))
  }

  ghost predicate Done(u: CharTable, t: OrphanTuning, lines: seq<Segment>, done: seq<Segment>, b: seq<int>) {
    && |b| == |done| + 1 && b[0] == 0
    && (forall i :: 0 <= i < |done| ==> MadeOfLines(u, t, lines, b[i], b[i + 1], done[i]))
    && (forall i :: 0 < i < |done| ==> !BelongsToLast(u, t, lines, b[i]))
    && (forall i :: 0 < i < |b| ==> !BelongsToNext(u, t, lines, b[i] - 1))
  }

  // ---- the words at the ends

  lemma EndsOfLines(lines: seq<Segment>, lo: int, hi: int)
    requires 0 <= lo < hi <= |lines| && forall p :: lo <= p < hi ==> lines[p].words != []
    ensures var words := WordsOfLines(lines, lo, hi);
      words != [] && words[0] == lines[lo].words[0] && words[|words| - 1].word == LastWord(lines[hi - 1])
    ensures forall p :: lo <= p < hi ==> |lines[p].words| <= |WordsOfLines(lines, lo, hi)|
  {
    hide Flatten;
    var part := lines[lo..hi];
    LastWords(part);
    assert WordLists(part) == [lines[lo].words] + WordLists(part)[1..];
    FlattenCons(lines[lo].words, WordLists(part)[1..]);
    forall p | lo <= p < hi ensures |lines[p].words| <= |WordsOfLines(lines, lo, hi)| {
      MemberIsSmaller(part, p - lo);
    }
  }

  lemma LinesSnoc(lines: seq<Segment>, lo: int, mid: int, hi: int)
    requires 0 <= lo <= mid <= hi <= |lines|
    ensures WordsOfLines(lines, lo, hi) == WordsOfLines(lines, lo, mid) + WordsOfLines(lines, mid, hi)
  {
    assert lines[lo..hi] == lines[lo..mid] + lines[mid..hi];
    WordListsAppend(lines[lo..mid], lines[mid..hi]);
  }

  lemma OneLine(lines: seq<Segment>, p: int)
    requires 0 <= p < |lines|
    ensures WordsOfLines(lines, p, p + 1) == lines[p].words
  {
    assert WordLists(lines[p..p + 1]) == [lines[p].words];
    FlattenSingle(lines[p].words);
  }

  // ---- one step

  function Following(lines: seq<Segment>, q: int): Option<Segment>
    requires 0 <= q < |lines|
  {
    if q + 1 < |lines| then Some(lines[q + 1]) else None
  }

  /** First and last word of the line at hand, and how small the lines in it are. */
  lemma HeadOfLines(u: CharTable, t: OrphanTuning, lines: seq<Segment>, m: int, q: int, head: Segment)
    requires Spoken(lines) && AtHand(u, t, lines, m, q, head)
    ensures head.words != [] && head.words[0] == lines[m].words[0] && LastWord(head) == LastWord(lines[q])
    ensures |lines[q].words| <= |head.words| && lines[q].end - lines[q].start <= head.end - head.start
  {
    EndsOfLines(lines, m, q + 1);
  }

  /** When the line at hand is an orphan, all its lines are strays. */
  lemma OrphanIsStray(u: CharTable, t: OrphanTuning, lines: seq<Segment>, done: seq<Segment>, m: int, q: int, head: Segment)
    requires Spoken(lines) && AtHand(u, t, lines, m, q, head) && Tail(t, lines, m, done)
    requires IsOrphan(head, Last(done), Following(lines, q), t)
    ensures forall k :: m <= k <= q ==> Stray(t, lines, k)
  {
    hide WordsOfLines;
    HeadOfLines(u, t, lines, m, q, head);
    if q > m {
      assert Stray(t, lines, q - 1);
    }
    assert Stray(t, lines, q);
  }

  /** The lines absorbed into the one at hand were neither firm nor at the end of a sentence. */
  lemma AbsorbedAreLoose(u: CharTable, t: OrphanTuning, lines: seq<Segment>, m: int, q: int, head: Segment)
    requires Spoken(lines) && AtHand(u, t, lines, m, q, head)
    ensures forall k :: m <= k < q ==> !Firm(u, t, lines, k) && !EndsSentence(LastWord(lines[k]))
  {
    hide EndsSentence, ContinuesSentence, WordsOfLines;
    forall k | m <= k < q ensures !Firm(u, t, lines, k) && !EndsSentence(LastWord(lines[k])) {
      assert Stray(t, lines, k) && GluedAt(u, lines, k);
    }
  }

  /** A line that belongs to the next one stands alone at hand, and is absorbed. */
  lemma BelongingJoinsNext(u: CharTable, t: OrphanTuning, lines: seq<Segment>, done: seq<Segment>, m: int, q: int, head: Segment)
    requires Spoken(lines) && AtHand(u, t, lines, m, q, head) && Tail(t, lines, m, done)
    requires BelongsToNext(u, t, lines, q)
    ensures FateOf(u, t, head, Last(done), Following(lines, q)) == JoinsNext
  {
    hide EndsSentence, ContinuesSentence, WordsOfLines;
    HeadOfLines(u, t, lines, m, q, head);
    AbsorbedAreLoose(u, t, lines, m, q, head);
    OneLine(lines, q);
  }

  /** A line that belongs to the one before it joins it. */
  lemma BelongingJoinsLast(u: CharTable, t: OrphanTuning, lines: seq<Segment>, done: seq<Segment>, m: int, q: int, head: Segment)
    requires Spoken(lines) && AtHand(u, t, lines, m, q, head) && Tail(t, lines, m, done)
    requires BelongsToLast(u, t, lines, m)
    ensures FateOf(u, t, head, Last(done), Following(lines, q)) == JoinsLast
  {
    hide EndsSentence, ContinuesSentence, WordsOfLines;
    HeadOfLines(u, t, lines, m, q, head);
    AbsorbedAreLoose(u, t, lines, m, q, head);
    OneLine(lines, q);
  }

  /** The line at hand stays: a segment of its own. */
  lemma StayStep(u: CharTable, t: OrphanTuning, lines: seq<Segment>, done: seq<Segment>, b: seq<int>, m: int, q: int, head: Segment)
    requires Spoken(lines) && AtHand(u, t, lines, m, q, head) && Tail(t, lines, m, done)
    requires Done(u, t, lines, done, b) && b[|done|] == m
    requires FateOf(u, t, head, Last(done), Following(lines, q)) == Stays
    ensures Done(u, t, lines, done + [head], b + [q + 1]) && Tail(t, lines, q + 1, done + [head])
  {
    hide EndsSentence, ContinuesSentence, WordsOfLines, FateOf, GluedAt, Firm, Stray;
    HeadOfLines(u, t, lines, m, q, head);
    if BelongsToNext(u, t, lines, q) {
      BelongingJoinsNext(u, t, lines, done, m, q, head);
    }
    if BelongsToLast(u, t, lines, m) {
      BelongingJoinsLast(u, t, lines, done, m, q, head);
    }
    assert MadeOfLines(u, t, lines, m, q + 1, head);
    hide MadeOfLines, BelongsToNext, BelongsToLast;
    DoneGrows(u, t, lines, done, b, head, q + 1);
  }

  lemma DoneGrows(u: CharTable, t: OrphanTuning, lines: seq<Segment>, done: seq<Segment>, b: seq<int>, head: Segment, hi: int)
    requires Done(u, t, lines, done, b) && MadeOfLines(u, t, lines, b[|done|], hi, head)
    requires !BelongsToNext(u, t, lines, hi - 1) && (done != [] ==> !BelongsToLast(u, t, lines, b[|done|]))
    ensures Done(u, t, lines, done + [head], b + [hi])
  {
    hide MadeOfLines, BelongsToNext, BelongsToLast;
    var more, c := done + [head], b + [hi];
    forall i | 0 <= i < |more| ensures MadeOfLines(u, t, lines, c[i], c[i + 1], more[i]) {
      if i < |done| {
        assert MadeOfLines(u, t, lines, b[i], b[i + 1], done[i]);
      }
    }
    forall i | 0 < i < |more| ensures !BelongsToLast(u, t, lines, c[i]) {
      assert c[i] == b[i];
    }
    forall i | 0 < i < |c| ensures !BelongsToNext(u, t, lines, c[i] - 1) {
      assert i < |b| ==> c[i] == b[i];
    }
  }

  /** The line at hand is absorbed by the next. */
  lemma NextStep(u: CharTable, t: OrphanTuning, lines: seq<Segment>, done: seq<Segment>, m: int, q: int, head: Segment)
    requires Spoken(lines) && AtHand(u, t, lines, m, q, head) && Tail(t, lines, m, done)
    requires FateOf(u, t, head, Last(done), Following(lines, q)) == JoinsNext
    ensures q + 1 < |lines| && AtHand(u, t, lines, m, q + 1, JoinSegments(head, lines[q + 1], None))
  {
    hide EndsSentence, ContinuesSentence, WordsOfLines;
    HeadOfLines(u, t, lines, m, q, head);
    OrphanIsStray(u, t, lines, done, m, q, head);
    hide Stray, IsOrphan;
    OneLine(lines, q + 1);
    LinesSnoc(lines, m, q + 1, q + 2);
    assert GluedAt(u, lines, q);
  }

  /** What is known of a line at hand that joins the last result. */
  lemma LastFits(u: CharTable, t: OrphanTuning, lines: seq<Segment>, done: seq<Segment>, m: int, q: int, head: Segment)
    requires Spoken(lines) && AtHand(u, t, lines, m, q, head) && Tail(t, lines, m, done)
    requires FateOf(u, t, head, Last(done), Following(lines, q)) == JoinsLast
    ensures done != [] && 0 < m && head.words == WordsOfLines(lines, m, q + 1) && head.words != [] && lines[q].words != []
    ensures LastWord(head) == LastWord(lines[q]) && EndsSentence(LastWord(lines[q])) && !BelongsToNext(u, t, lines, q)
    ensures forall k :: m <= k <= q ==> Stray(t, lines, k)
    ensures forall k :: m - 1 <= k < q ==> GluedAt(u, lines, k)
  {
    hide EndsSentence, ContinuesSentence, WordsOfLines, Stray;
    HeadOfLines(u, t, lines, m, q, head);
    OrphanIsStray(u, t, lines, done, m, q, head);
    assert GluedAt(u, lines, m - 1);
  }

  /** The line at hand joins the last result. */
  lemma LastStep(u: CharTable, t: OrphanTuning, lines: seq<Segment>, done: seq<Segment>, b: seq<int>, m: int, q: int, head: Segment)
    requires Spoken(lines) && AtHand(u, t, lines, m, q, head) && Tail(t, lines, m, done)
    requires Done(u, t, lines, done, b) && b[|done|] == m
    requires FateOf(u, t, head, Last(done), Following(lines, q)) == JoinsLast
    ensures done != [] && var n := |done| - 1; var joined := JoinSegments(done[n], head, done[n].speaker);
      Done(u, t, lines, done[n := joined], b[n + 1 := q + 1]) && Tail(t, lines, q + 1, done[n := joined])
  {
    hide EndsSentence, WordsOfLines, Stray, GluedAt, BelongsToNext, BelongsToLast, FateOf;
    LastFits(u, t, lines, done, m, q, head);
    var n := |done| - 1;
    var joined := JoinSegments(done[n], head, done[n].speaker);
    LastIsMade(u, t, lines, done, b);
    LinesSnoc(lines, b[n], m, q + 1);
    JoinedIsMade(u, t, lines, b[n], m, q, done[n], joined);
    LastGrows(u, t, lines, done, b, joined, q + 1);
    TailJoined(t, lines, m, q, done, head, joined);
  }

  lemma LastIsMade(u: CharTable, t: OrphanTuning, lines: seq<Segment>, done: seq<Segment>, b: seq<int>)
    requires Done(u, t, lines, done, b) && done != []
    ensures var n := |done| - 1; |b| == n + 2 && MadeOfLines(u, t, lines, b[n], b[n + 1], done[n])
    ensures var n := |done| - 1; 0 <= b[n] < b[n + 1] <= |lines| && done[n].speaker.Some?
    ensures var n := |done| - 1; done[n].words == WordsOfLines(lines, b[n], b[n + 1])
  {
    hide WordsOfLines, BelongsToNext, BelongsToLast, Stray, GluedAt;
    var n := |done| - 1;
    assert MadeOfLines(u, t, lines, b[n], b[n + 1], done[n]);
  }

  lemma TailJoined(t: OrphanTuning, lines: seq<Segment>, m: int, q: int, done: seq<Segment>, head: Segment, joined: Segment)
    requires Tail(t, lines, m, done) && done != [] && 0 <= m <= q < |lines| && head.words != [] && lines[q].words != []
    requires joined.words == done[|done| - 1].words + head.words && LastWord(head) == LastWord(lines[q])
    requires Stray(t, lines, q) && EndsSentence(LastWord(lines[q]))
    ensures Tail(t, lines, q + 1, done[|done| - 1 := joined])
  {
    hide Stray, EndsSentence;
  }

  lemma JoinedIsMade(u: CharTable, t: OrphanTuning, lines: seq<Segment>, lo: int, m: int, q: int, last: Segment, joined: Segment)
    requires MadeOfLines(u, t, lines, lo, m, last) && m <= q < |lines| && joined.speaker == last.speaker
    requires joined.words == WordsOfLines(lines, lo, q + 1)
    requires forall k :: m <= k <= q ==> Stray(t, lines, k)
    requires forall k :: m - 1 <= k < q ==> GluedAt(u, lines, k)
    ensures MadeOfLines(u, t, lines, lo, q + 1, joined)
  {
    hide WordsOfLines, Stray, GluedAt;
  }

  lemma LastGrows(u: CharTable, t: OrphanTuning, lines: seq<Segment>, done: seq<Segment>, b: seq<int>, joined: Segment, hi: int)
    requires Done(u, t, lines, done, b) && done != [] && MadeOfLines(u, t, lines, b[|done| - 1], hi, joined)
    requires !BelongsToNext(u, t, lines, hi - 1)
    ensures Done(u, t, lines, done[|done| - 1 := joined], b[|done| := hi])
  {
    hide MadeOfLines, BelongsToNext, BelongsToLast;
    var n := |done| - 1;
    var more, c := done[n := joined], b[n + 1 := hi];
    forall i | 0 <= i < |more| ensures MadeOfLines(u, t, lines, c[i], c[i + 1], more[i]) {
      if i < n {
        assert MadeOfLines(u, t, lines, b[i], b[i + 1], done[i]);
      }
    }
  }

  // ---- the whole pass

  ghost predicate Halfway(u: CharTable, t: OrphanTuning, lines: seq<Segment>, done: seq<Segment>, b: seq<int>, q: int, rest: seq<Segment>) {
    && Done(u, t, lines, done, b) && Tail(t, lines, b[|done|], done) && Left(u, t, lines, b[|done|], q, rest)
  }

  lemma StepRightly(u: CharTable, t: OrphanTuning, lines: seq<Segment>, done: seq<Segment>, b: seq<int>, q: int, rest: seq<Segment>)
    returns (c: seq<int>, p: int)
    requires Spoken(lines) && Halfway(u, t, lines, done, b, q, rest) && rest != []
    ensures var next := Step(u, t, done, rest); Halfway(u, t, lines, next.0, c, p, next.1)
  {
    hide MadeOfLines, BelongsToNext, BelongsToLast, Tail, Spoken, FateOf, JoinSegments, AtHand, Done;
    var head := rest[0];
    DoneLengths(u, t, lines, done, b);
    Bounds(u, t, lines, b[|done|], q, head);
    assert Head(rest[1..]) == Following(lines, q);
    match FateOf(u, t, head, Last(done), Following(lines, q)) {
      case Stays =>
        StayStep(u, t, lines, done, b, b[|done|], q, head);
        LeftAfter(u, t, lines, q, rest[1..]);
        c, p := b + [q + 1], q + 1;
      case JoinsNext =>
        NextStep(u, t, lines, done, b[|done|], q, head);
        c, p := b, q + 1;
      case JoinsLast =>
        LastStep(u, t, lines, done, b, b[|done|], q, head);
        LeftAfter(u, t, lines, q, rest[1..]);
        c, p := b[|done| := q + 1], q + 1;
    }
  }

  lemma Bounds(u: CharTable, t: OrphanTuning, lines: seq<Segment>, m: int, q: int, head: Segment)
    requires AtHand(u, t, lines, m, q, head)
    ensures 0 <= m <= q < |lines|
  {
  }

  lemma {:induction false} MergesRightly(u: CharTable, t: OrphanTuning, lines: seq<Segment>, done: seq<Segment>, b: seq<int>,
                                         q: int, rest: seq<Segment>)
    returns (cuts: seq<int>)
    requires Spoken(lines) && Halfway(u, t, lines, done, b, q, rest)
    ensures RightlyMerged(u, t, lines, Merge(u, t, done, rest), cuts)
    decreases |rest|
  {
    if rest == [] {
      hide MadeOfLines, BelongsToNext, BelongsToLast, Tail;
      return b;
    }
    hide Halfway, RightlyMerged, Step;
    var c, p := StepRightly(u, t, lines, done, b, q, rest);
    var next := Step(u, t, done, rest);
    cuts := MergesRightly(u, t, lines, next.0, c, p, next.1);
  }

  lemma DoneLengths(u: CharTable, t: OrphanTuning, lines: seq<Segment>, done: seq<Segment>, b: seq<int>)
    requires Done(u, t, lines, done, b)
    ensures |b| == |done| + 1
  {
  }

  lemma LeftAfter(u: CharTable, t: OrphanTuning, lines: seq<Segment>, q: int, rest: seq<Segment>)
    requires 0 <= q < |lines| && rest == lines[q + 1..]
    ensures Left(u, t, lines, q + 1, q + 1, rest)
  {
    if rest != [] {
      OneLine(lines, q + 1);
    }
  }

  /** Orphan merging joins the lines it should, and no others. */
  lemma MergedRightly(u: CharTable, t: OrphanTuning, lines: seq<Segment>) returns (cuts: seq<int>)
    requires Spoken(lines)
    ensures RightlyMerged(u, t, lines, Merge(u, t, [], lines), cuts)
  {
    if lines != [] {
      OneLine(lines, 0);
    }
    hide Merge;
    cuts := MergesRightly(u, t, lines, [], [0], 0, lines);
  }
}
