/** src/vemsa/pipeline/diarize.py, assign_speakers: the stages together. */
module Attribution {
  import opened Base
  import opened Models
  import opened Text
  import opened Runs
  import opened Labelling
  import opened Islands
  import opened Snapping
  import opened Lines
  import opened Orphans
  import opened Strays

  datatype Tuning = Tuning(
    minCoverage: real,
    inheritMaxGap: real,
    island: IslandTuning,
    boundary: SnapTuning,
    line: LineTuning,
    orphan: OrphanTuning)

  /** What the stages handed on to one another. */
  datatype Stages = Stages(
    words: seq<Word>,
    labels: seq<string>,
    smoothed: seq<string>,
    snapped: seq<string>,
    lines: seq<Segment>,
    cuts: seq<int>,
    blocks: seq<seq<Segment>>,
    joins: seq<int>)

  function Named(labels: seq<string>): seq<Option<string>> {
    Map((name: string) => Some(name), labels)
  }

  function Unnamed(n: nat): seq<Option<string>> {
    seq(n, _ => None)
  }

  /** Each stage did to its input what it promises, from the sorted words to the segments. */
  ghost predicate Followed(u: CharTable, turns: seq<Turn>, t: Tuning, s: Stages, segments: seq<Segment>) {
    && |s.words| == |s.labels| == |s.smoothed| == |s.snapped|
    && LabelledUpTo(s.words, turns, t.minCoverage, t.inheritMaxGap, s.labels, |s.words|)
    && OnePass(u, s.words, t.island, s.labels, s.smoothed)
    && SnappedRuns(u, s.words, t.boundary, RunsOf(s.smoothed), RunsOf(s.snapped))
    && Grouped(s.words, Named(s.snapped), t.line, false, s.lines, s.cuts) && s.cuts[|s.lines|] == |s.words|
    && segments == Merge(u, t.orphan, [], s.lines)
    && AllStandFor(u, t.orphan, segments, s.blocks) && Flatten(s.blocks) == s.lines
    && RightlyMerged(u, t.orphan, s.lines, segments, s.joins)
  }

  /** Time and text of every segment are those of its words, from the first to the last. */
  ghost predicate TellTheirWords(segments: seq<Segment>) {
    forall i :: 0 <= i < |segments| ==>
      var words := segments[i].words;
      && words != [] && segments[i].start == words[0].start && segments[i].end == words[|words| - 1].end
      && segments[i].text == Join(Map((w: Word) => w.word, words))
  }

  lemma OwnLinesTell(segments: seq<Segment>)
    requires OwnLines(segments)
    ensures TellTheirWords(segments)
  {
    hide Join;
    forall i | 0 <= i < |segments| ensures OwnLine(segments[i]) {
    }
  }

  ghost predicate InTime(words: seq<Word>) {
    forall i, j :: 0 <= i < j < |words| ==> words[i].start <= words[j].start
  }

  lemma SortedInTime(words: seq<Word>)
    ensures InTime(StableSort(WordStart, words))
  {
    StableSortSorts(WordStart, words);
    var sorted := StableSort(WordStart, words);
    forall i, j | 0 <= i < j < |sorted| ensures sorted[i].start <= sorted[j].start {
      assert WordStart(sorted[i]) <= WordStart(sorted[j]);
    }
  }

  ghost predicate OwnLines(segments: seq<Segment>) {
    forall i :: 0 <= i < |segments| ==> OwnLine(segments[i])
  }

  ghost predicate Voiced(turns: seq<Turn>, segments: seq<Segment>) {
    forall i :: 0 <= i < |segments| ==> segments[i].speaker.Some? && SomeTurns(turns, segments[i].speaker.value)
  }

  lemma SnappingInventsNothing(u: CharTable, words: seq<Word>, t: SnapTuning, labels: seq<string>, snapped: seq<string>, p: int)
    requires |labels| == |snapped| == |words| && 0 <= p < |words|
    requires SnappedRuns(u, words, t, RunsOf(labels), RunsOf(snapped))
    ensures snapped[p] in labels
  {
    var before, after := RunsOf(labels), RunsOf(snapped);
    var k := RunAt(after, p);
    NamedAt(snapped, after, k);
    NamedAt(labels, before, k);
    assert labels[before.cuts[k]] in labels;
  }

  lemma GroupedOwnLines(words: seq<Word>, labels: seq<Option<string>>, t: LineTuning, bounded: bool,
                        segments: seq<Segment>, cuts: seq<int>)
    requires |labels| == |words| && Grouped(words, labels, t, bounded, segments, cuts)
    ensures OwnLines(segments)
    ensures forall i :: 0 <= i < |segments| ==> segments[i].speaker in labels
  {
    hide IsLine;
    forall i | 0 <= i < |segments| ensures OwnLine(segments[i]) && segments[i].speaker in labels {
      assert IsLineSegment(words, labels, t, bounded, segments[i], cuts[i], cuts[i + 1]);
    }
  }

  function Singles(segments: seq<Segment>): seq<seq<Segment>> {
    Map((s: Segment) => [s], segments)
  }

  lemma {:induction false} SinglesFlatten(segments: seq<Segment>)
    ensures Flatten(Singles(segments)) == segments
  {
    if segments != [] {
      SinglesFlatten(segments[1..]);
      assert Singles(segments) == [[segments[0]]] + Singles(segments[1..]);
      FlattenCons([segments[0]], Singles(segments[1..]));
    }
  }

  lemma {:induction false} BlocksKeepWords(u: CharTable, t: OrphanTuning, segments: seq<Segment>, blocks: seq<seq<Segment>>)
    requires AllStandFor(u, t, segments, blocks)
    ensures Flatten(WordLists(segments)) == Flatten(WordLists(Flatten(blocks)))
  {
    if segments != [] {
      var rest, others := segments[1..], blocks[1..];
      assert StandsFor(u, t, segments[0], blocks[0]);
      assert AllStandFor(u, t, rest, others) by {
        hide StandsFor;
        assert forall i :: 0 <= i < |rest| ==> rest[i] == segments[i + 1] && others[i] == blocks[i + 1];
      }
      BlocksKeepWords(u, t, rest, others);
      hide StandsFor;
      WordListsAppend(blocks[0], Flatten(others));
      assert segments == [segments[0]] + rest;
      WordListsAppend([segments[0]], rest);
      assert WordLists([segments[0]]) == [segments[0].words];
      FlattenSingle(segments[0].words);
    }
  }

  lemma MemberOfFlat<T>(xss: seq<seq<T>>, i: int, k: int)
    requires 0 <= i < |xss| && 0 <= k < |xss[i]|
    ensures xss[i][k] in Flatten(xss)
  {
    FlattenAt(xss, i);
    assert xss[i][k] in Flatten(xss[..i + 1]);
  }

  lemma BlocksVoiced(u: CharTable, t: OrphanTuning, turns: seq<Turn>, segments: seq<Segment>, blocks: seq<seq<Segment>>)
    requires AllStandFor(u, t, segments, blocks) && Voiced(turns, Flatten(blocks))
    ensures Voiced(turns, segments) && OwnLines(segments)
  {
    forall i | 0 <= i < |segments|
      ensures segments[i].speaker.Some? && SomeTurns(turns, segments[i].speaker.value) && OwnLine(segments[i])
    {
      assert StandsFor(u, t, segments[i], blocks[i]);
      var c :| 0 <= c < |blocks[i]| && segments[i].speaker == blocks[i][c].speaker;
      MemberOfFlat(blocks, i, c);
    }
  }

  lemma SortedTurnsSpeak(turns: seq<Turn>, name: string)
    requires SomeTurns(StableSort(TurnStart, turns), name)
    ensures SomeTurns(turns, name)
  {
    var sorted := StableSort(TurnStart, turns);
    StableSortSorts(TurnStart, turns);
    var i :| 0 <= i < |sorted| && sorted[i].speaker == name;
    assert sorted[i] in multiset(sorted);
    assert sorted[i] in turns;
  }

  /** The whole pipeline: every word comes out exactly once, in stable time order; every
      segment's span and text are those of its words; every speaker is some turn's speaker. */
  method AssignSpeakers(u: CharTable, words: seq<Word>, turns: seq<Turn>, t: Tuning)
    returns (segments: seq<Segment>, ghost stages: Stages)
    ensures Flatten(WordLists(segments)) == StableSort(WordStart, words)
    ensures StablySorted(WordStart, words, Flatten(WordLists(segments))) && InTime(Flatten(WordLists(segments)))
    ensures OwnLines(segments) && TellTheirWords(segments)
    ensures turns == [] ==> forall i :: 0 <= i < |segments| ==> segments[i].speaker.None?
    ensures turns != [] ==> Voiced(turns, segments)
    ensures turns != [] && words != [] ==>
      stages.words == StableSort(WordStart, words)
      && Followed(u, StableSort(TurnStart, turns), t, stages, segments)
  {
    hide Flatten, Merge, Grouped, OnePass, SnappedRuns, RunsOf, StableSort, LabelledAt, StablySorted, InTime, TellTheirWords, OwnLines,
      RightlyMerged;
    StableSortIsSorted(WordStart, words);
    SortedInTime(words);
    stages := Stages([], [], [], [], [], [], [], []);
    if words == [] {
      NothingToDo();
      return [], stages;
    }
    StableSortSorts(WordStart, words);
    var sortedWords := StableSort(WordStart, words);
    if turns == [] {
      ghost var cuts;
      segments, cuts := GroupLabelled(sortedWords, Unnamed(|sortedWords|), t.line, false);
      GroupedOwnLines(sortedWords, Unnamed(|sortedWords|), t.line, false, segments, cuts);
      OwnLinesTell(segments);
      return;
    }
    StableSortSorts(TurnStart, turns);
    var sortedTurns := StableSort(TurnStart, turns);
    var labels := LabelWords(sortedWords, sortedTurns, t.minCoverage, t.inheritMaxGap);
    var smoothed := SmoothIslands(u, sortedWords, labels, t.island);
    var snapped := SnapBoundaries(u, sortedWords, smoothed, t.boundary);
    ghost var cuts;
    var lines;
    lines, cuts := GroupLabelled(sortedWords, Named(snapped), t.line, false);
    LinesVoiced(u, sortedWords, turns, t, labels, smoothed, snapped, lines, cuts);
    var entries := new Segment[|lines|](i requires 0 <= i < |lines| => lines[i]);
    assert entries[..] == lines;
    segments := MergeShortOrphans(u, entries, t.orphan);
    ghost var blocks := MergedLines(u, t, turns, lines);
    OwnLinesTell(segments);
    LinesSpoken(sortedWords, turns, Named(snapped), t.line, lines, cuts);
    ghost var joins := MergedRightly(u, t.orphan, lines);
    stages := Stages(sortedWords, labels, smoothed, snapped, lines, cuts, blocks, joins);
  }

  lemma NothingToDo()
    ensures Flatten(WordLists([])) == [] && StableSort(WordStart, []) == []
    ensures OwnLines([]) && TellTheirWords([])
  {
  }

  /** Labels of words are turns' speakers all the way into the lines. */
  lemma LinesVoiced(u: CharTable, words: seq<Word>, turns: seq<Turn>, t: Tuning, labels: seq<string>, smoothed: seq<string>,
                    snapped: seq<string>, lines: seq<Segment>, cuts: seq<int>)
    requires |words| == |labels| == |smoothed| == |snapped|
    requires LabelledUpTo(words, StableSort(TurnStart, turns), t.minCoverage, t.inheritMaxGap, labels, |words|)
    requires forall p :: 0 <= p < |smoothed| ==> smoothed[p] in labels
    requires SnappedRuns(u, words, t.boundary, RunsOf(smoothed), RunsOf(snapped))
    requires Grouped(words, Named(snapped), t.line, false, lines, cuts)
    ensures Voiced(turns, lines) && OwnLines(lines)
  {
    hide SnappedRuns, Grouped, LabelledAt, StableSort, RunsOf;
    GroupedOwnLines(words, Named(snapped), t.line, false, lines, cuts);
    forall i | 0 <= i < |lines| ensures lines[i].speaker.Some? && SomeTurns(turns, lines[i].speaker.value) {
      var p :| 0 <= p < |snapped| && lines[i].speaker == Some(snapped[p]);
      SnappingInventsNothing(u, words, t.boundary, smoothed, snapped, p);
      var q :| 0 <= q < |smoothed| && smoothed[q] == snapped[p];
      var r :| 0 <= r < |labels| && labels[r] == smoothed[q];
      assert SomeTurns(StableSort(TurnStart, turns), labels[r]);
      SortedTurnsSpeak(turns, labels[r]);
    }
  }

  /** The lines of sorted words begin one after the other. */
  lemma LinesSpoken(words: seq<Word>, turns: seq<Turn>, labels: seq<Option<string>>, t: LineTuning, lines: seq<Segment>, cuts: seq<int>)
    requires |labels| == |words| && Grouped(words, labels, t, false, lines, cuts) && InTime(words)
    requires OwnLines(lines) && Voiced(turns, lines)
    ensures Spoken(lines)
  {
    hide IsLine, SomeTurns, OwnLine;
    forall p | 0 <= p < |lines| ensures BeginsAt(words, lines, cuts, p) {
      assert IsLineSegment(words, labels, t, false, lines[p], cuts[p], cuts[p + 1]);
      assert OwnLine(lines[p]);
    }
    forall p, q | 0 <= p <= q < |lines| ensures lines[p].start <= lines[q].start {
      assert BeginsAt(words, lines, cuts, p) && BeginsAt(words, lines, cuts, q);
      CutsGrow(words, lines, cuts, p, q);
    }
    forall p | 0 <= p < |lines| ensures lines[p].words != [] && lines[p].speaker.Some? {
      assert BeginsAt(words, lines, cuts, p);
    }
  }

  ghost predicate BeginsAt(words: seq<Word>, lines: seq<Segment>, cuts: seq<int>, p: int) {
    && 0 <= p < |lines| && |cuts| == |lines| + 1 && lines[p].words != []
    && 0 <= cuts[p] < cuts[p + 1] <= |words| && lines[p].start == words[cuts[p]].start
  }

  lemma {:induction false} CutsGrow(words: seq<Word>, lines: seq<Segment>, cuts: seq<int>, p: int, q: int)
    requires 0 <= p <= q < |lines| && forall k :: 0 <= k < |lines| ==> BeginsAt(words, lines, cuts, k)
    ensures |cuts| == |lines| + 1 && (p < q ==> cuts[p] < cuts[q])
    decreases q
  {
    assert BeginsAt(words, lines, cuts, q);
    if p < q {
      assert BeginsAt(words, lines, cuts, q - 1);
      CutsGrow(words, lines, cuts, p, q - 1);
    }
  }

  /** Merging the lines: what it yields stands for consecutive lines. */
  lemma MergedLines(u: CharTable, t: Tuning, turns: seq<Turn>, lines: seq<Segment>) returns (blocks: seq<seq<Segment>>)
    requires OwnLines(lines) && Voiced(turns, lines)
    ensures var segments := Merge(u, t.orphan, [], lines);
      && AllStandFor(u, t.orphan, segments, blocks) && Flatten(blocks) == lines
      && Flatten(WordLists(segments)) == Flatten(WordLists(lines))
      && Voiced(turns, segments) && OwnLines(segments)
  {
    hide Merge, Flatten, StandsFor, OwnLine, SomeTurns;
    forall i | 0 <= i < |lines| ensures StandsFor(u, t.orphan, lines[i], Singles(lines)[i]) {
      StandsForItself(u, t.orphan, lines[i]);
    }
    SinglesFlatten(lines);
    blocks := MergeStandsFor(u, t.orphan, [], lines, [], Singles(lines));
    FlattenNothing<Segment>();
    BlocksKeepWords(u, t.orphan, Merge(u, t.orphan, [], lines), blocks);
    BlocksVoiced(u, t.orphan, turns, Merge(u, t.orphan, [], lines), blocks);
  }

  lemma FlattenNothing<T>()
    ensures Flatten<T>([]) == []
  {
  }

  /** Speakerless reader lines: the sorted words partitioned into lines that keep the caps. */
  method SegmentsWithoutSpeakers(words: seq<Word>, t: LineTuning) returns (segments: seq<Segment>, ghost cuts: seq<int>)
    requires t.maxWords >= 1
    ensures Flatten(WordLists(segments)) == StableSort(WordStart, words) && OwnLines(segments) && TellTheirWords(segments)
    ensures StablySorted(WordStart, words, Flatten(WordLists(segments))) && InTime(Flatten(WordLists(segments)))
    ensures forall i :: 0 <= i < |segments| ==> segments[i].speaker.None? && Capped(t, segments[i])
    ensures words != [] ==>
      var sorted := StableSort(WordStart, words);
      Grouped(sorted, Unnamed(|sorted|), t, true, segments, cuts) && cuts[|segments|] == |sorted|
  {
    hide Flatten, StableSort, Grouped, StablySorted, InTime, TellTheirWords, OwnLines;
    StableSortIsSorted(WordStart, words);
    SortedInTime(words);
    if words == [] {
      NothingToDo();
      return [], [0];
    }
    var sorted := StableSort(WordStart, words);
    segments, cuts := GroupLabelled(sorted, Unnamed(|sorted|), t, true);
    GroupedOwnLines(sorted, Unnamed(|sorted|), t, true, segments, cuts);
    GroupedCapped(sorted, t, segments, cuts);
    OwnLinesTell(segments);
  }

  ghost predicate Capped(t: LineTuning, segment: Segment) {
    |segment.words| <= t.maxWords && (|segment.words| >= 2 ==> segment.end - segment.start <= t.maxSeconds)
  }

  lemma GroupedCapped(words: seq<Word>, t: LineTuning, segments: seq<Segment>, cuts: seq<int>)
    requires t.maxWords >= 1 && Grouped(words, Unnamed(|words|), t, true, segments, cuts)
    ensures forall i :: 0 <= i < |segments| ==> Capped(t, segments[i])
  {
    hide IsLine;
    forall i | 0 <= i < |segments| ensures Capped(t, segments[i]) {
      assert IsLineSegment(words, Unnamed(|words|), t, true, segments[i], cuts[i], cuts[i + 1]);
      BoundedLineKeepsCaps(words, Unnamed(|words|), t, cuts[i], cuts[i + 1]);
    }
  }
}
