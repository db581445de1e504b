/** src/vemsa/pipeline/diarize.py, _merge_short_orphans: the in-place pass. */
module Orphans {
  import opened Base
  import opened Models
  import opened Text
  import opened Lines

  datatype OrphanTuning = OrphanTuning(maxWords: int, maxDuration: real)

  // ---- _orphan, _join_segments

  predicate Foreign(segment: Segment, other: Option<Segment>) {
    other.Some? ==> other.value.speaker != segment.speaker && other.value.words != []
  }

  predicate IsOrphan(segment: Segment, previous: Option<Segment>, following: Option<Segment>, t: OrphanTuning) {
    && segment.words != [] && |segment.words| <= t.maxWords
    && segment.end - segment.start <= t.maxDuration
    && (previous.Some? || following.Some?)
    && Foreign(segment, previous) && Foreign(segment, following)
  }

  function JoinSegments(first: Segment, second: Segment, speaker: Option<string>): Segment {
    PlainSegment(first.start, second.end, if speaker.Some? then speaker else second.speaker,
      first.text + " " + second.text, first.words + second.words)
  }

  function LastWord(segment: Segment): string
    requires segment.words != []
  {
    segment.words[|segment.words| - 1].word
  }

  /** The boundary between two segments sits mid-sentence. */
  predicate Glued(u: CharTable, first: Segment, second: Segment)
    requires first.words != [] && second.words != []
  {
    !EndsSentence(LastWord(first)) && ContinuesSentence(u, second.words[0].word)
  }

  // ---- the pass, as a function of what is merged so far and what is left

  function Last(done: seq<Segment>): Option<Segment> {
    if done == [] then None else Some(done[|done| - 1])
  }

  function Head(rest: seq<Segment>): Option<Segment> {
    if rest == [] then None else Some(rest[0])
  }

  /** What becomes of the next segment: it stays, joins the one after it, or the one before. */
  datatype Fate = Stays | JoinsNext | JoinsLast

  function FateOf(u: CharTable, t: OrphanTuning, segment: Segment, previous: Option<Segment>, following: Option<Segment>): Fate {
    if !IsOrphan(segment, previous, following, t) then Stays
    else if following.Some? && Glued(u, segment, following.value) then JoinsNext
    else if previous.Some? && Glued(u, previous.value, segment) && EndsSentence(LastWord(segment)) then JoinsLast
    else Stays
  }

  function Step(u: CharTable, t: OrphanTuning, done: seq<Segment>, rest: seq<Segment>): (next: (seq<Segment>, seq<Segment>))
    requires rest != []
    ensures |next.1| == |rest| - 1
  {
    match FateOf(u, t, rest[0], Last(done), Head(rest[1..]))
    case Stays => (done + [rest[0]], rest[1..])
    case JoinsNext => (done, [JoinSegments(rest[0], rest[1], None)] + rest[2..])
    case JoinsLast =>
      var n := |done| - 1;
      (done[n := JoinSegments(done[n], rest[0], done[n].speaker)], rest[1..])
  }

  function Merge(u: CharTable, t: OrphanTuning, done: seq<Segment>, rest: seq<Segment>): seq<Segment>
    decreases |rest|
  {
    if rest == [] then done
    else
      var next := Step(u, t, done, rest);
      Merge(u, t, next.0, next.1)
  }

  /** The pass as the code runs it: joined segments overwrite the next input entry, or the last
      result. */
  method MergeShortOrphans(u: CharTable, segments: array<Segment>, t: OrphanTuning) returns (merged: seq<Segment>)
    modifies segments
    ensures merged == Merge(u, t, [], old(segments[..]))
  {
    if segments.Length < 2 {
      return segments[..];
    }
    hide Merge, FateOf, JoinSegments, Step;
    merged := [];
    var index := 0;
    while index < segments.Length
      invariant 0 <= index <= segments.Length
      invariant Merge(u, t, merged, segments[index..]) == Merge(u, t, [], old(segments[..]))
    {
      var segment := segments[index];
      var previous := if merged == [] then None else Some(merged[|merged| - 1]);
      var following := if index + 1 < segments.Length then Some(segments[index + 1]) else None;
      ghost var rest := segments[index..];
      assert rest[1..] == segments[index + 1..];
      var fate := Decide(u, t, segment, previous, following);
      if fate.JoinsNext? {
        segments[index + 1] := JoinSegments(segment, following.value, None);
        assert segments[index + 1..] == [segments[index + 1]] + rest[2..];
      } else if fate.JoinsLast? {
        merged := merged[|merged| - 1 := JoinSegments(previous.value, segment, previous.value.speaker)];
      } else {
        merged := merged + [segment];
      }
      index := index + 1;
    }
  }

  /** The tests on one segment and its neighbours. */
  method Decide(u: CharTable, t: OrphanTuning, segment: Segment, previous: Option<Segment>, following: Option<Segment>)
    returns (fate: Fate)
    ensures fate == FateOf(u, t, segment, previous, following)
    ensures fate.JoinsNext? ==> following.Some?
    ensures fate.JoinsLast? ==> previous.Some?
  {
    if IsOrphan(segment, previous, following, t) {
      if following.Some? && !EndsSentence(LastWord(segment)) && ContinuesSentence(u, following.value.words[0].word) {
        return JoinsNext;
      }
      if previous.Some? && !EndsSentence(LastWord(previous.value)) && ContinuesSentence(u, segment.words[0].word)
         && EndsSentence(LastWord(segment)) {
        return JoinsLast;
      }
    }
    fate := Stays;
  }

  // ---- what the pass keeps

  /** A segment whose span and text are those of its own words. */
  ghost predicate OwnLine(segment: Segment) {
    segment.words != [] && segment == LineOf(segment.words, segment.speaker)
  }

  /** The segment keeps the voice of one member; all other members are small. */
  ghost predicate KeepsVoice(segment: Segment, members: seq<Segment>, t: OrphanTuning) {
    exists c :: 0 <= c < |members| && segment.speaker == members[c].speaker && OthersSmall(members, c, t)
  }

  ghost predicate OthersSmall(members: seq<Segment>, c: int, t: OrphanTuning) {
    forall d :: 0 <= d < |members| && d != c ==> |members[d].words| <= t.maxWords
  }

  ghost predicate AllGlued(u: CharTable, members: seq<Segment>) {
    && (forall d :: 0 <= d < |members| ==> members[d].words != [])
    && (forall d :: 1 <= d < |members| ==> Glued(u, members[d - 1], members[d]))
  }

  /** A result segment stands for consecutive input segments: it holds their words, every
      boundary it erases was mid-sentence, and only small segments lost their voice. */
  ghost predicate StandsFor(u: CharTable, t: OrphanTuning, segment: Segment, members: seq<Segment>) {
    && OwnLine(segment) && segment.speaker.Some?
    && members != [] && AllGlued(u, members)
    && segment.words == Flatten(WordLists(members))
    && KeepsVoice(segment, members, t)
  }

  ghost predicate AllStandFor(u: CharTable, t: OrphanTuning, segments: seq<Segment>, blocks: seq<seq<Segment>>) {
    && |segments| == |blocks|
    && forall i :: 0 <= i < |segments| ==> StandsFor(u, t, segments[i], blocks[i])
  }

  lemma StandsForItself(u: CharTable, t: OrphanTuning, segment: Segment)
    requires OwnLine(segment) && segment.speaker.Some?
    ensures StandsFor(u, t, segment, [segment])
  {
    assert WordLists([segment]) == [segment.words];
    FlattenSingle(segment.words);
    assert OthersSmall([segment], 0, t);
  }

  lemma SpelledAppend(a: seq<Word>, b: seq<Word>)
    ensures Spelled(a + b) == Spelled(a) + Spelled(b)
  {
  }

  lemma JoinedOwnLine(first: Segment, second: Segment, speaker: Option<string>)
    requires OwnLine(first) && OwnLine(second)
    ensures OwnLine(JoinSegments(first, second, speaker))
  {
    hide Join, Spelled;
    SpelledAppend(first.words, second.words);
    SpelledSome(first.words);
    SpelledSome(second.words);
    JoinAppend(Spelled(first.words), Spelled(second.words));
  }

  lemma SpelledSome(words: seq<Word>)
    requires words != []
    ensures Spelled(words) != []
  {
  }

  lemma {:induction false} MemberIsSmaller(members: seq<Segment>, d: int)
    requires 0 <= d < |members|
    ensures |members[d].words| <= |Flatten(WordLists(members))|
  {
    assert WordLists(members)[1..] == WordLists(members[1..]);
    if d > 0 {
      MemberIsSmaller(members[1..], d - 1);
    }
  }

  lemma WordListsAppend(a: seq<Segment>, b: seq<Segment>)
    ensures Flatten(WordLists(a + b)) == Flatten(WordLists(a)) + Flatten(WordLists(b))
  {
    MapAppend((s: Segment) => s.words, a, b);
    FlattenAppend(WordLists(a), WordLists(b));
  }

  lemma {:induction false} LastWords(members: seq<Segment>)
    requires members != [] && members[|members| - 1].words != []
    ensures var all := Flatten(WordLists(members));
      all != [] && all[|all| - 1].word == LastWord(members[|members| - 1])
  {
    var n := |members| - 1;
    assert members == members[..n] + [members[n]];
    WordListsSnoc(members[..n], members[n]);
  }

  lemma GluedBlocks(u: CharTable, a: seq<Segment>, b: seq<Segment>, first: Segment, second: Segment)
    requires a != [] && b != [] && AllGlued(u, a) && AllGlued(u, b)
    requires first.words == Flatten(WordLists(a)) != [] && second.words == Flatten(WordLists(b)) != []
    requires Glued(u, first, second)
    ensures AllGlued(u, a + b)
  {
    LastWords(a);
    hide EndsSentence, ContinuesSentence, Flatten;
    var all := a + b;
    forall d | 1 <= d < |all| ensures Glued(u, all[d - 1], all[d]) {
      if d < |a| {
        assert Glued(u, a[d - 1], a[d]);
      } else if d > |a| {
        assert Glued(u, b[d - |a| - 1], b[d - |a|]);
      }
    }
  }

  /** Joining a small segment to a neighbour it is glued to. */
  lemma JoinStandsFor(u: CharTable, t: OrphanTuning, first: Segment, a: seq<Segment>, second: Segment, b: seq<Segment>, speaker: Option<string>)
    requires StandsFor(u, t, first, a) && StandsFor(u, t, second, b) && Glued(u, first, second)
    requires (speaker.None? && |first.words| <= t.maxWords) || (speaker == first.speaker && |second.words| <= t.maxWords)
    ensures StandsFor(u, t, JoinSegments(first, second, speaker), a + b)
  {
    GluedBlocks(u, a, b, first, second);
    WordListsAppend(a, b);
    JoinedOwnLine(first, second, speaker);
    VoiceOfBoth(t, first, a, second, b, speaker);
  }

  lemma VoiceOfBoth(t: OrphanTuning, first: Segment, a: seq<Segment>, second: Segment, b: seq<Segment>, speaker: Option<string>)
    requires KeepsVoice(first, a, t) && KeepsVoice(second, b, t) && first.speaker.Some?
    requires first.words == Flatten(WordLists(a)) && second.words == Flatten(WordLists(b))
    requires (speaker.None? && |first.words| <= t.maxWords) || (speaker == first.speaker && |second.words| <= t.maxWords)
    ensures KeepsVoice(JoinSegments(first, second, speaker), a + b, t)
  {
    forall d | 0 <= d < |a| ensures |a[d].words| <= |first.words| {
      MemberIsSmaller(a, d);
    }
    forall d | 0 <= d < |b| ensures |b[d].words| <= |second.words| {
      MemberIsSmaller(b, d);
    }
    hide Flatten;
    if speaker.None? {
      var c :| 0 <= c < |b| && second.speaker == b[c].speaker && OthersSmall(b, c, t);
      assert OthersSmall(a + b, |a| + c, t);
    } else {
      var c :| 0 <= c < |a| && first.speaker == a[c].speaker && OthersSmall(a, c, t);
      assert OthersSmall(a + b, c, t);
    }
  }

  lemma StepStandsFor(u: CharTable, t: OrphanTuning, done: seq<Segment>, rest: seq<Segment>,
                      doneBlocks: seq<seq<Segment>>, restBlocks: seq<seq<Segment>>)
    returns (newDone: seq<seq<Segment>>, newRest: seq<seq<Segment>>)
    requires AllStandFor(u, t, done, doneBlocks) && AllStandFor(u, t, rest, restBlocks) && rest != []
    ensures var next := Step(u, t, done, rest);
      AllStandFor(u, t, next.0, newDone) && AllStandFor(u, t, next.1, newRest)
    ensures Flatten(newDone) + Flatten(newRest) == Flatten(doneBlocks) + Flatten(restBlocks)
  {
    hide StandsFor, Flatten, Glued, IsOrphan, EndsSentence;
    var n := |done| - 1;
    match FateOf(u, t, rest[0], Last(done), Head(rest[1..])) {
      case Stays =>
        newDone, newRest := doneBlocks + [restBlocks[0]], restBlocks[1..];
        FlattenSnoc(doneBlocks, restBlocks[0]);
        PassHead(doneBlocks, restBlocks);
      case JoinsNext =>
        OrphanIsSmall(rest[0], Last(done), Head(rest[1..]), t);
        JoinStandsFor(u, t, rest[0], restBlocks[0], rest[1], restBlocks[1], None);
        newDone, newRest := doneBlocks, [restBlocks[0] + restBlocks[1]] + restBlocks[2..];
        JoinHeads(restBlocks);
      case JoinsLast =>
        OrphanIsSmall(rest[0], Last(done), Head(rest[1..]), t);
        JoinStandsFor(u, t, done[n], doneBlocks[n], rest[0], restBlocks[0], done[n].speaker);
        newDone, newRest := doneBlocks[n := doneBlocks[n] + restBlocks[0]], restBlocks[1..];
        GrowLast(doneBlocks, restBlocks[0]);
        PassHead(doneBlocks, restBlocks);
    }
  }

  lemma OrphanIsSmall(segment: Segment, previous: Option<Segment>, following: Option<Segment>, t: OrphanTuning)
    requires IsOrphan(segment, previous, following, t)
    ensures |segment.words| <= t.maxWords
  {
  }

  /** The pass only ever merges consecutive segments across mid-sentence boundaries, only small
      segments change voice, and every word stays, in order. */
  lemma {:induction false} MergeStandsFor(u: CharTable, t: OrphanTuning, done: seq<Segment>, rest: seq<Segment>,
                                          doneBlocks: seq<seq<Segment>>, restBlocks: seq<seq<Segment>>)
    returns (blocks: seq<seq<Segment>>)
    requires AllStandFor(u, t, done, doneBlocks) && AllStandFor(u, t, rest, restBlocks)
    ensures AllStandFor(u, t, Merge(u, t, done, rest), blocks)
    ensures Flatten(blocks) == Flatten(doneBlocks) + Flatten(restBlocks)
    decreases |rest|
  {
    if rest == [] {
      return doneBlocks;
    }
    hide AllStandFor, Step;
    var newDone, newRest := StepStandsFor(u, t, done, rest, doneBlocks, restBlocks);
    var next := Step(u, t, done, rest);
    blocks := MergeStandsFor(u, t, next.0, next.1, newDone, newRest);
  }

  lemma JoinHeads<T>(xss: seq<seq<T>>)
    requires |xss| >= 2
    ensures Flatten([xss[0] + xss[1]] + xss[2..]) == Flatten(xss)
  {
    hide Flatten;
    FlattenCons(xss[0] + xss[1], xss[2..]);
    FlattenCons(xss[1], xss[2..]);
    FlattenCons(xss[0], [xss[1]] + xss[2..]);
    assert xss == [xss[0]] + ([xss[1]] + xss[2..]);
    Associative(xss[0], xss[1], Flatten(xss[2..]));
  }

  lemma PassHead<T>(done: seq<seq<T>>, xss: seq<seq<T>>)
    requires xss != []
    ensures (Flatten(done) + xss[0]) + Flatten(xss[1..]) == Flatten(done) + Flatten(xss)
  {
    hide Flatten;
    FlattenCons(xss[0], xss[1..]);
    assert xss == [xss[0]] + xss[1..];
    Associative(Flatten(done), xss[0], Flatten(xss[1..]));
  }

  lemma GrowLast<T>(xss: seq<seq<T>>, more: seq<T>)
    requires xss != []
    ensures Flatten(xss[|xss| - 1 := xss[|xss| - 1] + more]) == Flatten(xss) + more
  {
    hide Flatten;
    var n := |xss| - 1;
    FlattenSnoc(xss[..n], xss[n]);
    FlattenSnoc(xss[..n], xss[n] + more);
    assert xss == xss[..n] + [xss[n]];
    assert xss[n := xss[n] + more] == xss[..n] + [xss[n] + more];
    Associative(Flatten(xss[..n]), xss[n], more);
  }
}
