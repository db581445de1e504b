/** src/vemsa/pipeline/realign.py: a transcript is aligned window by window. */
module Realign {
  import opened Base
  import opened Models
  import opened Text
  import opened Normalize
  import opened Windows
  import opened HandBack

  // ---- distribute_words

  method DistributeWords(u: CharTable, segments: seq<Segment>, group: seq<int>, words: seq<Word>)
    returns (r: Result<map<int, seq<Word>>, AlignError>)
    requires group != [] && Within(segments, group) && Distinct(group)
    ensures |group| == 1 ==> r == Ok(map[group[0] := words])
    ensures |group| > 1 && TotalTokens(u, segments, group) != |words| ==> r == Err(GroupMismatch)
    ensures TotalTokens(u, segments, group) == |words| ==> r == Ok(HandedBack(u, segments, group, words))
  {
    hide AlignableTokens, TotalTokens, HandedBack;
    NothingHandedBack(u, segments, words);
    if |group| == 1 {
      OneHandedBack(u, segments, group[0], words);
      assert group == [group[0]];
      return Ok(map[group[0] := words]);
    }
    var counts: map<int, nat> := map[];
    var expected := 0;
    assert group[..0] == [];
    for k := 0 to |group|
      invariant expected == TotalTokens(u, segments, group[..k])
      invariant forall i :: 0 <= i < k ==>
        group[i] in counts && counts[group[i]] == AlignableTokens(u, segments[group[i]].text)
    {
      TotalTokensNext(u, segments, group, k);
      var count := AlignableTokens(u, segments[group[k]].text);
      counts := counts[group[k] := count];
      expected := expected + count;
    }
    assert group[..|group|] == group;
    if expected != |words| {
      return Err(GroupMismatch);
    }
    var distributed: map<int, seq<Word>> := map[];
    var cursor := 0;
    for k := 0 to |group|
      invariant cursor == TotalTokens(u, segments, group[..k]) <= |words|
      invariant distributed == HandedBack(u, segments, group[..k], words)
    {
      TotalTokensNext(u, segments, group, k);
      HandedBackSnoc(u, segments, group[..k], group[k], words);
      assert group[..k + 1] == group[..k] + [group[k]];
      distributed := distributed[group[k] := words[cursor..cursor + counts[group[k]]]];
      cursor := cursor + counts[group[k]];
    }
    r := Ok(distributed);
  }

  // ---- retime_segments

  /** Speaker and text stay; the window tightens to the words, if there are any. */
  function Retimed(segment: Segment, words: seq<Word>): Segment {
    if words == [] then segment.(words := [])
    else segment.(start := words[0].start, end := words[|words| - 1].end, words := words)
  }

  function WordsOf(m: map<int, seq<Word>>, i: int): seq<Word> {
    if i in m then m[i] else []
  }

  function RetimedAll(segments: seq<Segment>, wordsBySegment: map<int, seq<Word>>): seq<Segment> {
    seq(|segments|, (i: int) requires 0 <= i < |segments| => Retimed(segments[i], WordsOf(wordsBySegment, i)))
  }

  /** `retimed` is the segment with these words: speaker, text, attribution and overlap ids are kept, and its
      time is that of the words from the first one's start to the last one's end, or its own without any. */
  ghost predicate Tightened(segment: Segment, words: seq<Word>, retimed: Segment) {
    && retimed.words == words
    && retimed.speaker == segment.speaker && retimed.text == segment.text
    && retimed.attribution == segment.attribution && retimed.overlapIds == segment.overlapIds
    && (words == [] ==> retimed.start == segment.start && retimed.end == segment.end)
    && (words != [] ==> retimed.start == words[0].start && retimed.end == words[|words| - 1].end)
  }

  ghost predicate AllTightened(segments: seq<Segment>, wordsBySegment: map<int, seq<Word>>, retimed: seq<Segment>) {
    && |retimed| == |segments|
    && forall i :: 0 <= i < |segments| ==> Tightened(segments[i], WordsOf(wordsBySegment, i), retimed[i])
  }

  /** Every segment retimed, in time order of the new windows, ties in input order. */
  method RetimeSegments(segments: seq<Segment>, wordsBySegment: map<int, seq<Word>>) returns (out: seq<Segment>)
    ensures out == StableSort(SegmentStart, RetimedAll(segments, wordsBySegment))
    ensures exists retimed :: AllTightened(segments, wordsBySegment, retimed) && StablySorted(SegmentStart, retimed, out)
  {
    var retimed: seq<Segment> := [];
    for index := 0 to |segments|
      invariant |retimed| == index
      invariant forall i :: 0 <= i < index ==> retimed[i] == Retimed(segments[i], WordsOf(wordsBySegment, i))
    {
      var words := if index in wordsBySegment then wordsBySegment[index] else [];
      if words != [] {
        retimed := retimed + [segments[index].(start := words[0].start, end := words[|words| - 1].end, words := words)];
      } else {
        retimed := retimed + [segments[index].(words := [])];
      }
    }
    assert retimed == RetimedAll(segments, wordsBySegment);
    assert AllTightened(segments, wordsBySegment, retimed);
    StableSortIsSorted(SegmentStart, retimed);
    out := StableSort(SegmentStart, retimed);
  }

  // ---- align_transcript

  /** Disjoint windows, one for each group, covering its members and carrying their text. */
  ghost predicate IsPlan(u: CharTable, segments: seq<Segment>, gap: real, groups: seq<seq<int>>, windows: seq<Segment>) {
    && IsGrouping(u, segments, gap, groups)
    && |windows| == |groups| && Disjoint(windows)
    && forall g :: 0 <= g < |groups| ==>
         && windows[g].start <= Earliest(segments, groups[g])
         && Reach(segments, groups[g]) <= windows[g].end
         && windows[g].text == WindowFor(u, segments, groups[g]).text
  }

  /** The windows handed to the aligner. */
  method PlanWindows(u: CharTable, segments: seq<Segment>, gap: real, pad: real, duration: real)
    returns (groups: seq<seq<int>>, windows: seq<Segment>)
    requires Sane(u) && ValidSegments(segments) && gap >= 0.0 && pad >= 0.0
    ensures IsPlan(u, segments, gap, groups, windows)
  {
    groups := GroupWindows(u, segments, gap);
    var bare: seq<Segment> := [];
    for g := 0 to |groups|
      invariant |bare| == g
      invariant forall k :: 0 <= k < g ==> bare[k] == WindowFor(u, segments, groups[k])
    {
      bare := bare + [WindowFor(u, segments, groups[g])];
    }
    GroupsAreDisjoint(u, segments, gap, groups, bare);
    windows := PadWindows(bare, pad, duration);
    PaddingKeepsDisjoint(bare, pad, duration, windows);
  }

  /** Slice the sorted answer by each window's token count, then by each member's. */
  method SliceAnswer(u: CharTable, segments: seq<Segment>, groups: seq<seq<int>>, windows: seq<Segment>, words: seq<Word>)
    returns (r: Result<map<int, seq<Word>>, AlignError>)
    requires Sane(u) && |windows| == |groups|
    requires forall g :: 0 <= g < |groups| ==>
      groups[g] != [] && Within(segments, groups[g]) && windows[g].text == WindowFor(u, segments, groups[g]).text
    requires Distinct(Flatten(groups)) && Within(segments, Flatten(groups))
    ensures r == if TotalTokens(u, segments, Flatten(groups)) != |words| then Err(CountMismatch)
                 else Ok(HandedBack(u, segments, Flatten(groups), words))
  {
    hide Flatten, AlignableTokens, TotalTokens, HandedBack, WindowFor;
    NothingHandedBack(u, segments, words);
    NothingYet(i => true);
    var total := 0;
    assert groups[..0] == [];
    for g := 0 to |groups|
      invariant Within(segments, Flatten(groups[..g]))
      invariant total == TotalTokens(u, segments, Flatten(groups[..g]))
    {
      FlattenAt(groups, g);
      WindowTokens(u, segments, groups[g]);
      TotalTokensAppend(u, segments, Flatten(groups[..g]), groups[g]);
      total := total + AlignableTokens(u, windows[g].text);
    }
    assert groups[..|groups|] == groups;
    if total != |words| {
      return Err(CountMismatch);
    }
    var wordsBySegment: map<int, seq<Word>> := map[];
    var cursor := 0;
    for g := 0 to |groups|
      invariant Within(segments, Flatten(groups[..g]))
      invariant cursor == TotalTokens(u, segments, Flatten(groups[..g])) <= |words|
      invariant wordsBySegment == HandedBack(u, segments, Flatten(groups[..g]), words)
    {
      FlattenAt(groups, g);
      SliceFits(u, segments, groups, g);
      WindowTokens(u, segments, groups[g]);
      var count := AlignableTokens(u, windows[g].text);
      var own := DistributeWords(u, segments, groups[g], words[cursor..cursor + count]);
      HandedBackPrefix(u, segments, groups[g], words[cursor..], count);
      assert words[cursor..][..count] == words[cursor..cursor + count];
      HandedBackAppend(u, segments, Flatten(groups[..g]), groups[g], words);
      wordsBySegment := wordsBySegment + own.value;
      cursor := cursor + count;
    }
    r := Ok(wordsBySegment);
  }

  lemma {:induction false} SliceFits(u: CharTable, segments: seq<Segment>, groups: seq<seq<int>>, g: int)
    requires 0 <= g < |groups| && Within(segments, Flatten(groups)) && Distinct(Flatten(groups))
    ensures Within(segments, Flatten(groups[..g])) && Within(segments, groups[g]) && Distinct(groups[g])
    ensures TotalTokens(u, segments, Flatten(groups[..g])) + TotalTokens(u, segments, groups[g])
         <= TotalTokens(u, segments, Flatten(groups))
  {
    hide Flatten, AlignableTokens, TotalTokens;
    FlattenAt(groups, g);
    var a, b, c := Flatten(groups[..g]), groups[g], Flatten(groups[g + 1..]);
    var flat := Flatten(groups);
    assert flat == a + b + c;
    assert forall k :: 0 <= k < |a| ==> flat[k] == a[k];
    assert forall k :: 0 <= k < |b| ==> flat[|a| + k] == b[k];
    assert forall k :: 0 <= k < |c| ==> flat[|a| + |b| + k] == c[k];
    forall p, q | 0 <= p < q < |b| ensures b[p] != b[q] {
      assert b[p] == flat[|a| + p] && b[q] == flat[|a| + q];
    }
    TotalTokensAppend(u, segments, a, b);
    TotalTokensAppend(u, segments, a + b, c);
  }

  /** What is made of the aligner's answer. */
  ghost function AlignedBy(u: CharTable, segments: seq<Segment>, answer: seq<Word>): Result<seq<Segment>, AlignError>
    requires Within(segments, Alignable(u, segments))
  {
    var words := StableSort(WordStart, answer);
    if Alignable(u, segments) == [] then Err(NoAlignableText)
    else if words == [] then Err(NoWords)
    else if |words| != TotalTokens(u, segments, Alignable(u, segments)) then Err(CountMismatch)
    else Ok(StableSort(SegmentStart, RetimedAll(segments, HandedBack(u, segments, Alignable(u, segments), words))))
  }

  /** align_transcript around the foreign aligner call. It fails exactly when no text is
      alignable, when no words came back, or when their number is not the transcript's token
      count; the per-window mismatch error cannot occur. */
  method AlignTranscript(u: CharTable, segments: seq<Segment>, gap: real, pad: real, duration: real,
                         aligner: seq<Segment> -> seq<Word>)
    returns (r: Result<seq<Segment>, AlignError>, groups: seq<seq<int>>, windows: seq<Segment>)
    requires Sane(u) && ValidSegments(segments) && gap >= 0.0 && pad >= 0.0
    ensures IsPlan(u, segments, gap, groups, windows)
    ensures Within(segments, Alignable(u, segments)) && r == AlignedBy(u, segments, aligner(windows))
    ensures r.Ok? ==>
      var own := HandedBack(u, segments, Alignable(u, segments), StableSort(WordStart, aligner(windows)));
      exists retimed :: AllTightened(segments, own, retimed) && StablySorted(SegmentStart, retimed, r.value)
  {
    AlignableFacts(u, segments);
    groups, windows := PlanWindows(u, segments, gap, pad, duration);
    if groups == [] {
      return Err(NoAlignableText), groups, windows;
    }
    assert Alignable(u, segments) != [] by {
      assert Flatten(groups) == groups[0] + Flatten(groups[1..]);
    }
    var words := aligner(windows);
    StableSortSorts(WordStart, words);
    if words == [] {
      return Err(NoWords), groups, windows;
    }
    words := StableSort(WordStart, words);
    var sliced := SliceAnswer(u, segments, groups, windows, words);
    if sliced.Err? {
      return Err(sliced.error), groups, windows;
    }
    var retimed := RetimeSegments(segments, sliced.value);
    r := Ok(retimed);
  }

  // ---- what the aligner's contract buys

  /** The aligner's answer, window by window: one word per token, starts non-decreasing and
      inside the window. `token` reads off which token a word was aligned for. */
  ghost predicate Answers(u: CharTable, windows: seq<Segment>, token: Word -> string, answers: seq<seq<Word>>) {
    && |answers| == |windows|
    && forall g :: 0 <= g < |windows| ==>
         && Map(token, answers[g]) == Tokens(u, windows[g].text)
         && SortedBy(WordStart, answers[g])
         && forall w :: w in answers[g] ==> windows[g].start <= w.start <= windows[g].end
  }

  /** Disjoint windows answered in order make one sorted list, even where windows touch. */
  lemma {:induction false} AnswersAreSorted(u: CharTable, windows: seq<Segment>, token: Word -> string, answers: seq<seq<Word>>)
    requires Disjoint(windows) && Answers(u, windows, token, answers)
    ensures SortedBy(WordStart, Flatten(answers))
    ensures windows != [] ==> forall w :: w in Flatten(answers) ==> windows[0].start <= w.start
  {
    if windows != [] {
      AnswersAreSorted(u, windows[1..], token, answers[1..]);
      var a, b := answers[0], Flatten(answers[1..]);
      forall w | w in b ensures windows[0].end <= w.start {
        assert answers[1..] != [];
        assert windows[1..][0] == windows[1];
      }
      forall i, j | 0 <= i < j < |a + b| ensures WordStart((a + b)[i]) <= WordStart((a + b)[j]) {
        if i < |a| && |a| <= j {
          assert (a + b)[i] in a && (a + b)[j] in b;
        }
      }
    }
  }

  lemma {:induction false} AnswersToken(u: CharTable, segments: seq<Segment>, groups: seq<seq<int>>, windows: seq<Segment>,
                                        token: Word -> string, answers: seq<seq<Word>>)
    requires Sane(u) && |windows| == |groups| && Within(segments, Flatten(groups))
    requires forall g :: 0 <= g < |groups| ==>
      groups[g] != [] && Within(segments, groups[g]) && windows[g].text == WindowFor(u, segments, groups[g]).text
    requires Answers(u, windows, token, answers)
    ensures Map(token, Flatten(answers)) == Flatten(Map(t => Tokens(u, t), Texts(segments, Flatten(groups))))
  {
    if groups != [] {
      var a, b := groups[0], Flatten(groups[1..]);
      var mine, rest := answers[0], Flatten(answers[1..]);
      assert Flatten(groups) == a + b && Flatten(answers) == mine + rest;
      hide Flatten, WindowFor, Tokens, Map;
      assert forall k :: 0 <= k < |b| ==> (a + b)[|a| + k] == b[k];
      AnswersToken(u, segments, groups[1..], windows[1..], token, answers[1..]);
      WindowTokens(u, segments, a);
      TokensOfBoth(u, segments, a, b);
      MapAppend(token, mine, rest);
    }
  }

  /** The words handed to a segment come from the window the segment was aligned in. */
  lemma {:induction false} OwnWindow(u: CharTable, segments: seq<Segment>, groups: seq<seq<int>>, windows: seq<Segment>,
                                     token: Word -> string, answers: seq<seq<Word>>)
    requires Sane(u) && |windows| == |groups| && Within(segments, Flatten(groups)) && Distinct(Flatten(groups))
    requires forall g :: 0 <= g < |groups| ==>
      groups[g] != [] && Within(segments, groups[g]) && windows[g].text == WindowFor(u, segments, groups[g]).text
    requires Answers(u, windows, token, answers)
    ensures TotalTokens(u, segments, Flatten(groups)) == |Flatten(answers)|
    ensures InOwnWindows(groups, windows, HandedBack(u, segments, Flatten(groups), Flatten(answers)))
  {
    if groups != [] {
      var a, b := groups[0], Flatten(groups[1..]);
      var mine, rest := answers[0], Flatten(answers[1..]);
      TailOfPlan(u, segments, groups, windows, token, answers);
      hide Flatten, Map, WindowFor, Tokens, TotalTokens, HandedBack, InOwnWindows, Within, Distinct, Answers;
      OwnWindow(u, segments, groups[1..], windows[1..], token, answers[1..]);
      HandedBackApart(u, segments, a, b, mine, rest);
      HandedBackFrom(u, segments, a, mine);
      HandedBackFrom(u, segments, b, rest);
      OwnWindowsGrow(groups, windows, HandedBack(u, segments, a, mine), HandedBack(u, segments, b, rest));
    }
  }

  /** The first window, its group and its answer, and the rest of each. */
  lemma {:induction false} TailOfPlan(u: CharTable, segments: seq<Segment>, groups: seq<seq<int>>, windows: seq<Segment>,
                                      token: Word -> string, answers: seq<seq<Word>>)
    requires Sane(u) && |windows| == |groups| > 0 && Within(segments, Flatten(groups)) && Distinct(Flatten(groups))
    requires forall g :: 0 <= g < |groups| ==>
      groups[g] != [] && Within(segments, groups[g]) && windows[g].text == WindowFor(u, segments, groups[g]).text
    requires Answers(u, windows, token, answers)
    ensures var rest := Flatten(groups[1..]);
      && Flatten(groups) == groups[0] + rest && Flatten(answers) == answers[0] + Flatten(answers[1..])
      && Within(segments, rest) && Distinct(rest) && Answers(u, windows[1..], token, answers[1..])
    ensures |answers[0]| == TotalTokens(u, segments, groups[0])
    ensures forall w :: w in answers[0] ==> windows[0].start <= w.start <= windows[0].end
  {
    var a, b := groups[0], Flatten(groups[1..]);
    assert Flatten(groups) == a + b && Flatten(answers) == answers[0] + Flatten(answers[1..]);
    assert |Map(token, answers[0])| == |answers[0]|;
    hide Flatten, Map, WindowFor, Tokens, TotalTokens;
    assert forall k :: 0 <= k < |b| ==> (a + b)[|a| + k] == b[k];
    WindowTokens(u, segments, a);
  }

  ghost predicate InOwnWindows(groups: seq<seq<int>>, windows: seq<Segment>, own: map<int, seq<Word>>)
    requires |groups| == |windows|
  {
    forall g, i :: 0 <= g < |groups| && i in groups[g] ==> InWindow(windows[g], WordsOf(own, i))
  }

  lemma OwnWindowsGrow(groups: seq<seq<int>>, windows: seq<Segment>, first: map<int, seq<Word>>, others: map<int, seq<Word>>)
    requires |groups| == |windows| > 0 && Distinct(groups[0] + Flatten(groups[1..]))
    requires forall i :: i in first <==> i in groups[0]
    requires forall i :: i in others <==> i in Flatten(groups[1..])
    requires forall i, w :: i in first && w in first[i] ==> windows[0].start <= w.start <= windows[0].end
    requires InOwnWindows(groups[1..], windows[1..], others)
    ensures InOwnWindows(groups, windows, first + others)
  {
    forall g, i | 0 <= g < |groups| && i in groups[g]
      ensures InWindow(windows[g], WordsOf(first + others, i))
    {
      if g == 0 {
        NotInBoth(groups[0], Flatten(groups[1..]), i);
        assert WordsOf(first + others, i) == first[i];
      } else {
        OwnGroup(groups, g, i);
        assert windows[1..][g - 1] == windows[g] && groups[1..][g - 1] == groups[g];
        assert InWindow(windows[1..][g - 1], WordsOf(others, i));
        assert WordsOf(first + others, i) == WordsOf(others, i);
      }
    }
  }

  lemma NotInBoth(a: seq<int>, b: seq<int>, i: int)
    requires Distinct(a + b) && i in a
    ensures i !in b
  {
    var p :| 0 <= p < |a| && a[p] == i;
    forall q | 0 <= q < |b| ensures b[q] != i {
      assert (a + b)[p] == i && (a + b)[|a| + q] == b[q];
    }
  }

  lemma {:induction false} OwnGroup(groups: seq<seq<int>>, g: int, i: int)
    requires 0 <= g < |groups| && i in groups[g]
    ensures g > 0 ==> i in Flatten(groups[1..])
  {
    if g > 0 {
      FlattenAt(groups[1..], g - 1);
      assert groups[1..][g - 1] == groups[g];
    }
  }

  /** The promise of task=align. When every padded window is answered with its own tokens in
      order, no count error is raised, and each segment is handed exactly the words aligned
      for its own tokens, whatever windows the segments shared. */
  lemma EverySegmentGetsItsOwnWords(u: CharTable, segments: seq<Segment>, gap: real, groups: seq<seq<int>>, windows: seq<Segment>,
                                    token: Word -> string, answers: seq<seq<Word>>)
    requires Sane(u) && ValidSegments(segments)
    requires IsPlan(u, segments, gap, groups, windows)
    requires Answers(u, windows, token, answers)
    ensures Within(segments, Alignable(u, segments))
    ensures var words := StableSort(WordStart, Flatten(answers));
      && words == Flatten(answers)
      && |words| == TotalTokens(u, segments, Alignable(u, segments))
      && forall i :: 0 <= i < |segments| ==>
           Map(token, WordsOf(HandedBack(u, segments, Alignable(u, segments), words), i)) == Tokens(u, segments[i].text)
    ensures InOwnWindows(groups, windows, HandedBack(u, segments, Alignable(u, segments), Flatten(answers)))
  {
    AlignableFacts(u, segments);
    OwnWindow(u, segments, groups, windows, token, answers);
    var order := Alignable(u, segments);
    var words := Flatten(answers);
    AnswersAreSorted(u, windows, token, answers);
    StableSortOfSorted(WordStart, words);
    AnswersToken(u, segments, groups, windows, token, answers);
    FlattenTokensCount(u, segments, order);
    assert |Map(token, words)| == |words|;
    assert words[..|words|] == words;
    HandedBackTokens(u, segments, order, words, token);
    forall i | 0 <= i < |segments| && i !in order
      ensures Map(token, WordsOf(HandedBack(u, segments, order, words), i)) == Tokens(u, segments[i].text)
    {
      HandedBackFrom(u, segments, order, words);
      assert AlignableTokens(u, segments[i].text) == 0;
    }
  }

  /** The input segments with their own words, one for each token of the text. */
  ghost predicate WithOwnWords(u: CharTable, token: Word -> string, segments: seq<Segment>, retimed: seq<Segment>) {
    && |retimed| == |segments|
    && forall i :: 0 <= i < |segments| ==>
         && Tightened(segments[i], retimed[i].words, retimed[i])
         && Map(token, retimed[i].words) == Tokens(u, segments[i].text)
  }

  /** The same of align_transcript as a whole: such an answer never fails it unless no text is alignable,
      and what it returns is, in time order, every segment with its own words. */
  lemma AlignmentSucceeds(u: CharTable, segments: seq<Segment>, gap: real, groups: seq<seq<int>>, windows: seq<Segment>,
                          aligner: seq<Segment> -> seq<Word>, token: Word -> string, answers: seq<seq<Word>>)
    requires Sane(u) && ValidSegments(segments)
    requires IsPlan(u, segments, gap, groups, windows)
    requires Answers(u, windows, token, answers) && aligner(windows) == Flatten(answers)
    ensures Within(segments, Alignable(u, segments))
    ensures var r := AlignedBy(u, segments, aligner(windows));
      if Alignable(u, segments) == [] then r == Err(NoAlignableText)
      else r.Ok? && exists retimed :: WithOwnWords(u, token, segments, retimed) && StablySorted(SegmentStart, retimed, r.value)
  {
    hide IsPlan, Answers, Tokens, HandedBack, StableSort, TotalTokens, StablySorted, Alignable, AlignableTokens, Map;
    EverySegmentGetsItsOwnWords(u, segments, gap, groups, windows, token, answers);
    if Alignable(u, segments) != [] {
      SomethingToAlign(u, segments);
      var own := HandedBack(u, segments, Alignable(u, segments), StableSort(WordStart, Flatten(answers)));
      var retimed := RetimedAll(segments, own);
      assert forall i :: 0 <= i < |segments| ==> retimed[i].words == WordsOf(own, i);
      assert WithOwnWords(u, token, segments, retimed);
      StableSortIsSorted(SegmentStart, retimed);
    }
  }

  lemma SomethingToAlign(u: CharTable, segments: seq<Segment>)
    requires Alignable(u, segments) != []
    ensures Within(segments, Alignable(u, segments)) && TotalTokens(u, segments, Alignable(u, segments)) > 0
  {
    hide AlignableTokens, Alignable;
    AlignableFacts(u, segments);
    var order := Alignable(u, segments);
    assert order[|order| - 1] in order;
  }
}
