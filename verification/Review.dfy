/** src/vemsa/pipeline/speaker_review.py, apply_speaker_review. */
module Review {
  import opened Base
  import opened Models
  import opened Text
  import opened Overlaps

  // ---- _ids, _annotate

  predicate Touches(start: real, end: real, o: SpeechOverlap) {
    start < o.end && end > o.start && end > start
  }

  /** The ids of the overlaps a span falls into, in list order. */
  function Ids(start: real, end: real, overlaps: seq<SpeechOverlap>): seq<string> {
    if overlaps == [] then []
    else (if Touches(start, end, overlaps[0]) then [overlaps[0].id] else []) + Ids(start, end, overlaps[1..])
  }

  function WordIds(word: Word, overlaps: seq<SpeechOverlap>): seq<string> {
    Ids(word.start, word.end, overlaps)
  }

  function Annotate(segment: Segment, ids: seq<string>): Segment {
    segment.(
      attribution := Some(if ids != [] then Provisional
                          else if segment.speaker.Some? && segment.speaker.value != "" then Assigned
                          else Unassigned),
      overlapIds := ids)
  }

  /** The fallback for a segment whose words cannot be anchored: every overlap that touches
      the segment or one of its words. */
  function Affected(segment: Segment, overlaps: seq<SpeechOverlap>): seq<string> {
    var ids := Ids(segment.start, segment.end, overlaps) + Flatten(Map(w => WordIds(w, overlaps), segment.words));
    Listing(overlaps, ids)
  }

  /** The listed ids among `ids`, in list order. */
  function Listing(overlaps: seq<SpeechOverlap>, ids: seq<string>): seq<string> {
    if overlaps == [] then []
    else (if overlaps[0].id in ids then [overlaps[0].id] else []) + Listing(overlaps[1..], ids)
  }

  // ---- text anchors

  /** Words at increasing, non-overlapping places of the text. */
  ghost predicate Placed(text: string, words: seq<Word>, starts: seq<nat>, from: nat) {
    && |starts| == |words|
    && (forall i :: 0 <= i < |words| ==> words[i].word != "" && Occurs(text, words[i].word, starts[i]))
    && (|words| > 0 ==> from <= starts[0])
    && (forall i :: 1 <= i < |words| ==> starts[i - 1] + |words[i - 1].word| <= starts[i])
  }

  /** Whether each word, in turn, is found after the one before it. */
  predicate Anchored(text: string, words: seq<Word>, from: nat) {
    words == [] ||
    (words[0].word != "" &&
     var at := Find(text, words[0].word, from);
     at.Some? && Anchored(text, words[1..], at.value + |words[0].word|))
  }

  /** Searching left to right misses no placement: the words are anchored whenever they can be
      placed in order at all. */
  lemma {:induction false} GreedyAnchors(text: string, words: seq<Word>, starts: seq<nat>, from: nat)
    requires Placed(text, words, starts, from)
    ensures Anchored(text, words, from)
  {
    if words != [] {
      var at := Find(text, words[0].word, from);
      assert Occurs(text, words[0].word, starts[0]);
      assert at.Some? && at.value <= starts[0];
      GreedyAnchors(text, words[1..], starts[1..], at.value + |words[0].word|);
    }
  }

  // ---- the promise

  ghost predicate SameIds(part: Segment, overlaps: seq<SpeechOverlap>) {
    forall w :: w in part.words ==> WordIds(w, overlaps) == part.overlapIds
  }

  ghost predicate CoversIds(part: Segment, overlaps: seq<SpeechOverlap>) {
    forall w, id :: w in part.words && id in WordIds(w, overlaps) ==> id in part.overlapIds
  }

  function PartWords(parts: seq<Segment>): seq<seq<Word>> {
    Map((p: Segment) => p.words, parts)
  }

  /** What the review does to one segment. No word is lost or flagged too little; anchored
      segments are cut exactly where the flags change, and the cut text pieces add up to the
      original text, each still holding its words. */
  ghost predicate Reviewed(u: CharTable, segment: Segment, overlaps: seq<SpeechOverlap>, parts: seq<Segment>, pieces: seq<string>) {
    && Flatten(PartWords(parts)) == segment.words
    && (forall i :: 0 <= i < |parts| ==> CoversIds(parts[i], overlaps))
    && (forall i :: 0 <= i < |parts| ==>
          parts[i].speaker == segment.speaker && parts[i] == Annotate(parts[i], parts[i].overlapIds))
    && if segment.words == [] then parts == [Annotate(segment, Ids(segment.start, segment.end, overlaps))]
       else if !Anchored(segment.text, segment.words, 0) then parts == [Annotate(segment, Affected(segment, overlaps))]
       else
         && (forall i :: 0 <= i < |parts| ==> parts[i].words != [] && SameIds(parts[i], overlaps))
         && (forall i :: 1 <= i < |parts| ==> parts[i - 1].overlapIds != parts[i].overlapIds)
         && (|parts| == 1 ==> parts[0] == Annotate(segment, parts[0].overlapIds))
         && (|parts| > 1 ==> Pieces(u, segment.text, parts, pieces))
  }

  ghost predicate Pieces(u: CharTable, text: string, parts: seq<Segment>, pieces: seq<string>) {
    && |pieces| == |parts|
    && Flatten(pieces) == text
    && forall i :: 0 <= i < |parts| ==>
         && parts[i].text == Strip(u, pieces[i])
         && Anchored(pieces[i], parts[i].words, 0)
         && Bounds(parts[i])
         && (i > 0 ==> OpensWith(parts[i], pieces[i]))
  }

  /** A later part's text begins with its first word: what stands before it stays with the part before. */
  ghost predicate OpensWith(part: Segment, piece: string) {
    part.words != [] && part.words[0].word <= piece
  }

  /** The part spans from its first word start to its last word end. */
  ghost predicate Bounds(part: Segment) {
    && (forall w :: w in part.words ==> part.start <= w.start && w.end <= part.end)
    && (exists w :: w in part.words && w.start == part.start)
    && (exists w :: w in part.words && w.end == part.end)
  }

  function FirstStart(words: seq<Word>): real
    requires words != []
  {
    if |words| == 1 then words[0].start else Min(words[0].start, FirstStart(words[1..]))
  }

  function LastEnd(words: seq<Word>): real
    requires words != []
  {
    if |words| == 1 then words[0].end else Max(words[0].end, LastEnd(words[1..]))
  }

  lemma {:induction false} WordBounds(words: seq<Word>)
    requires words != []
    ensures forall w :: w in words ==> FirstStart(words) <= w.start && w.end <= LastEnd(words)
    ensures exists w :: w in words && w.start == FirstStart(words)
    ensures exists w :: w in words && w.end == LastEnd(words)
  {
    assert words[0] in words;
    if |words| > 1 {
      WordBounds(words[1..]);
      var a :| a in words[1..] && a.start == FirstStart(words[1..]);
      var b :| b in words[1..] && b.end == LastEnd(words[1..]);
      assert a in words && b in words;
    }
  }

  lemma {:induction false} IdsMember(start: real, end: real, overlaps: seq<SpeechOverlap>, ids: seq<string>)
    requires forall id :: id in Ids(start, end, overlaps) ==> id in ids
    ensures forall id :: id in Ids(start, end, overlaps) ==> id in Listing(overlaps, ids)
  {
    if overlaps != [] {
      IdsMember(start, end, overlaps[1..], ids);
    }
  }

  lemma {:induction false} FlattenMember<T>(xss: seq<seq<T>>, i: int, x: T)
    requires 0 <= i < |xss| && x in xss[i]
    ensures x in Flatten(xss)
  {
    if i > 0 {
      FlattenMember(xss[1..], i - 1, x);
    }
  }

  lemma AffectedCovers(segment: Segment, overlaps: seq<SpeechOverlap>)
    ensures CoversIds(Annotate(segment, Affected(segment, overlaps)), overlaps)
  {
    var all := Map(w => WordIds(w, overlaps), segment.words);
    var ids := Ids(segment.start, segment.end, overlaps) + Flatten(all);
    forall w, id | w in segment.words && id in WordIds(w, overlaps) ensures id in Affected(segment, overlaps) {
      var i :| 0 <= i < |segment.words| && segment.words[i] == w;
      forall other | other in WordIds(w, overlaps) ensures other in ids {
        FlattenMember(all, i, other);
      }
      IdsMember(w.start, w.end, overlaps, ids);
    }
  }

  // ---- _split_segment

  lemma PlacedNext(text: string, words: seq<Word>, starts: seq<nat>, k: int, at: nat, cursor: nat)
    requires 0 <= k < |words| && Placed(text, words[..k], starts, 0)
    requires cursor == if k == 0 then 0 else starts[k - 1] + |words[k - 1].word|
    requires words[k].word != "" && Occurs(text, words[k].word, at) && cursor <= at
    ensures Placed(text, words[..k + 1], starts + [at], 0)
  {
    var more, after := words[..k + 1], starts + [at];
    forall i | 0 <= i < |more| ensures more[i].word != "" && Occurs(text, more[i].word, after[i]) {
      assert i < k ==> more[i] == words[..k][i];
    }
  }

  lemma OccursInSlice(text: string, t: string, at: nat, lo: nat, hi: nat)
    requires Occurs(text, t, at) && lo <= at && at + |t| <= hi <= |text|
    ensures Occurs(text[lo..hi], t, at - lo)
  {
    SliceOfSlice(text, lo, hi, at - lo, at - lo + |t|);
  }

  /** A slice of placed words is placed in the matching slice of the text. */
  lemma PlacedSlice(text: string, words: seq<Word>, starts: seq<nat>, first: int, last: int, lo: nat, hi: nat)
    requires Placed(text, words, starts, 0) && 0 <= first < last <= |words|
    requires |starts| == |words| && lo <= starts[first] && hi == if last < |words| then starts[last] else |text|
    ensures lo <= hi <= |text|
    ensures Anchored(text[lo..hi], words[first..last], 0)
  {
    hide Occurs, Anchored, Placed;
    StartsGrow(text, words, starts);
    SlicePlaced(text, words, starts, first, last, lo, hi);
    GreedyAnchors(text[lo..hi], words[first..last], Shifted(starts, first, last, lo), 0);
  }

  function Shifted(starts: seq<nat>, first: int, last: int, lo: nat): (shifted: seq<nat>)
    requires 0 <= first <= last <= |starts|
  {
    seq(last - first, i requires 0 <= i < last - first => if starts[first + i] >= lo then starts[first + i] - lo else 0)
  }

  lemma SlicePlaced(text: string, words: seq<Word>, starts: seq<nat>, first: int, last: int, lo: nat, hi: nat)
    requires Placed(text, words, starts, 0) && 0 <= first < last <= |words|
    requires lo <= starts[first] && hi == if last < |words| then starts[last] else |text|
    ensures lo <= hi <= |text| && Placed(text[lo..hi], words[first..last], Shifted(starts, first, last, lo), 0)
  {
    hide Occurs;
    StartsGrow(text, words, starts);
    var part, shifted := words[first..last], Shifted(starts, first, last, lo);
    forall i | 0 <= i < |part| ensures part[i].word != "" && Occurs(text[lo..hi], part[i].word, shifted[i]) {
      assert starts[first] <= starts[first + i] && starts[first + i] + |words[first + i].word| <= hi;
      OccursInSlice(text, words[first + i].word, starts[first + i], lo, hi);
    }
    forall i | 1 <= i < |part| ensures shifted[i - 1] + |part[i - 1].word| <= shifted[i] {
      assert part[i - 1] == words[first + i - 1];
      assert starts[first] <= starts[first + i - 1];
    }
  }

  lemma StartsGrow(text: string, words: seq<Word>, starts: seq<nat>)
    requires Placed(text, words, starts, 0)
    ensures forall i, j :: 0 <= i < j < |words| ==> starts[i] + |words[i].word| <= starts[j]
    ensures forall i :: 0 <= i < |words| ==> starts[i] + |words[i].word| <= |text|
  {
    forall i, j | 0 <= i < j < |words| ensures starts[i] + |words[i].word| <= starts[j] {
      StartsGrowTo(text, words, starts, i, j);
    }
  }

  lemma {:induction false} StartsGrowTo(text: string, words: seq<Word>, starts: seq<nat>, i: int, j: int)
    requires Placed(text, words, starts, 0) && 0 <= i < j < |words|
    ensures starts[i] + |words[i].word| <= starts[j]
    decreases j - i
  {
    if i < j - 1 {
      StartsGrowTo(text, words, starts, i, j - 1);
    }
  }

  /** Each word's place in the text, or None when one cannot be found after the one before. */
  method FindAnchors(text: string, words: seq<Word>) returns (anchors: Option<seq<nat>>)
    ensures anchors.Some? <==> Anchored(text, words, 0)
    ensures anchors.Some? ==> Placed(text, words, anchors.value, 0)
  {
    hide Placed, Occurs;
    var starts: seq<nat> := [];
    var cursor: nat := 0;
    NothingPlaced(text);
    assert words[..0] == [] && words[0..] == words;
    for k := 0 to |words|
      invariant Placed(text, words[..k], starts, 0) && |starts| == k
      invariant cursor == if k == 0 then 0 else starts[k - 1] + |words[k - 1].word|
      invariant Anchored(text, words, 0) <==> Anchored(text, words[k..], cursor)
    {
      var word := words[k].word;
      var at := if word != "" then Find(text, word, cursor) else None;
      assert words[k..][0] == words[k] && words[k..][1..] == words[k + 1..];
      if at.None? {
        return None;
      }
      PlacedNext(text, words, starts, k, at.value, cursor);
      starts := starts + [at.value];
      cursor := at.value + |word|;
    }
    assert words[..|words|] == words;
    anchors := Some(starts);
  }

  lemma NothingPlaced(text: string)
    ensures Placed(text, [], [], 0)
  {
  }

  /** 0, every position where the ids change, and the end. */
  ghost predicate Cuts(wordIds: seq<seq<string>>, b: seq<int>) {
    && |b| >= 2 && b[0] == 0 && b[|b| - 1] == |wordIds|
    && (forall k :: 0 <= k < |b| ==> 0 <= b[k] <= |wordIds|)
    && (forall k :: 0 <= k < |b| - 1 ==> b[k] < b[k + 1] && Uniform(wordIds, b[k], b[k + 1]))
    && (forall k :: 1 <= k < |b| - 1 ==> ChangesAt(wordIds, b[k]))
  }

  ghost predicate Uniform(wordIds: seq<seq<string>>, from: int, to: int)
    requires 0 <= from <= to <= |wordIds|
  {
    forall i :: from <= i < to ==> wordIds[i] == wordIds[from]
  }

  ghost predicate ChangesAt(wordIds: seq<seq<string>>, i: int) {
    1 <= i < |wordIds| && wordIds[i] != wordIds[i - 1]
  }

  ghost predicate CutsBelow(wordIds: seq<seq<string>>, b: seq<int>, i: int) {
    && |b| >= 1 && b[0] == 0 && i <= |wordIds|
    && (forall k :: 0 <= k < |b| ==> 0 <= b[k] < i)
    && (forall k :: 0 <= k < |b| - 1 ==> b[k] < b[k + 1] && Uniform(wordIds, b[k], b[k + 1]))
    && (forall k :: 1 <= k < |b| ==> ChangesAt(wordIds, b[k]))
    && Uniform(wordIds, b[|b| - 1], i)
  }

  lemma CutHere(wordIds: seq<seq<string>>, b: seq<int>, i: int)
    requires i < |wordIds| && CutsBelow(wordIds, b, i) && wordIds[i] != wordIds[i - 1]
    ensures CutsBelow(wordIds, b + [i], i + 1)
  {
    var more := b + [i];
    forall k | 0 <= k < |more| - 1 ensures more[k] < more[k + 1] && Uniform(wordIds, more[k], more[k + 1]) {
      if k == |b| - 1 {
        assert more[k + 1] == i;
      } else {
        assert more[k + 1] == b[k + 1];
      }
    }
  }

  method Boundaries(wordIds: seq<seq<string>>) returns (b: seq<int>)
    requires wordIds != []
    ensures Cuts(wordIds, b)
  {
    b := [0];
    for i := 1 to |wordIds|
      invariant CutsBelow(wordIds, b, i)
    {
      if wordIds[i] != wordIds[i - 1] {
        CutHere(wordIds, b, i);
        b := b + [i];
      }
    }
    b := b + [|wordIds|];
  }

  /** Where the text of the part beginning at word `first` starts. */
  function TextFrom(text: string, starts: seq<nat>, first: int): nat
    requires 0 <= first <= |starts|
  {
    if first == |starts| then |text| else if first == 0 then 0 else starts[first]
  }

  ghost predicate PartOk(u: CharTable, segment: Segment, overlaps: seq<SpeechOverlap>, part: Segment, piece: string) {
    && part.speaker == segment.speaker && part == Annotate(part, part.overlapIds)
    && part.words != [] && SameIds(part, overlaps)
    && part.text == Strip(u, piece) && Anchored(piece, part.words, 0) && Bounds(part)
  }

  /** One part of a split segment: the words from `first` up to `last` and their text. */
  method CutPart(u: CharTable, segment: Segment, overlaps: seq<SpeechOverlap>, starts: seq<nat>, first: int, last: int)
    returns (part: Segment, ghost piece: string)
    requires 0 <= first < last <= |segment.words| && Placed(segment.text, segment.words, starts, 0)
    requires Uniform(Map(w => WordIds(w, overlaps), segment.words), first, last)
    ensures TextFrom(segment.text, starts, first) <= TextFrom(segment.text, starts, last) <= |segment.text|
    ensures piece == segment.text[TextFrom(segment.text, starts, first)..TextFrom(segment.text, starts, last)]
    ensures part.words == segment.words[first..last]
    ensures part.overlapIds == WordIds(segment.words[first], overlaps)
    ensures PartOk(u, segment, overlaps, part, piece) && (first > 0 ==> OpensWith(part, piece))
  {
    hide Anchored, WordIds, Bounds, Strip, Occurs, OpensWith;
    var words := segment.words[first..last];
    var textStart := if first > 0 then starts[first] else 0;
    var textEnd := if last < |starts| then starts[last] else |segment.text|;
    PlacedSlice(segment.text, segment.words, starts, first, last, textStart, textEnd);
    piece := segment.text[textStart..textEnd];
    part := segment.(
      start := FirstStart(words),
      end := LastEnd(words),
      text := Strip(u, segment.text[textStart..textEnd]),
      words := words);
    part := Annotate(part, WordIds(segment.words[first], overlaps));
    SlicesSame(segment.words, overlaps, first, last);
    PartBounds(part);
    if first > 0 {
      OpensThere(segment.text, segment.words, starts, first, last, textEnd, part);
    }
  }

  lemma OpensThere(text: string, words: seq<Word>, starts: seq<nat>, first: int, last: int, hi: nat, part: Segment)
    requires Placed(text, words, starts, 0) && 0 <= first < last <= |words| && part.words == words[first..last]
    requires hi == if last < |words| then starts[last] else |text|
    ensures starts[first] <= hi <= |text| && OpensWith(part, text[starts[first]..hi])
  {
    hide Occurs;
    StartsGrow(text, words, starts);
    SliceOpens(text, words[first].word, starts[first], hi);
  }

  lemma SliceOpens(text: string, t: string, at: nat, hi: nat)
    requires Occurs(text, t, at) && at + |t| <= hi <= |text|
    ensures t <= text[at..hi]
  {
    SliceOfSlice(text, at, hi, 0, |t|);
  }

  lemma PartBounds(part: Segment)
    requires part.words != [] && part.start == FirstStart(part.words) && part.end == LastEnd(part.words)
    ensures Bounds(part)
  {
    WordBounds(part.words);
  }

  lemma SlicesSame(words: seq<Word>, overlaps: seq<SpeechOverlap>, first: int, last: int)
    requires 0 <= first < last <= |words| && Uniform(Map(w => WordIds(w, overlaps), words), first, last)
    ensures forall w :: w in words[first..last] ==> WordIds(w, overlaps) == WordIds(words[first], overlaps)
  {
    var wordIds := Map(w => WordIds(w, overlaps), words);
    forall w | w in words[first..last] ensures WordIds(w, overlaps) == WordIds(words[first], overlaps) {
      var i :| first <= i < last && words[i] == w;
      assert wordIds[i] == wordIds[first];
    }
  }

  method SplitSegment(u: CharTable, segment: Segment, overlaps: seq<SpeechOverlap>)
    returns (parts: seq<Segment>, ghost pieces: seq<string>)
    ensures Reviewed(u, segment, overlaps, parts, pieces)
  {
    parts, pieces := [], [];
    if segment.words == [] {
      parts := [Annotate(segment, Ids(segment.start, segment.end, overlaps))];
      WholeSegment(parts[0]);
      return;
    }
    var anchors := FindAnchors(segment.text, segment.words);
    if anchors.None? {
      parts := [Annotate(segment, Affected(segment, overlaps))];
      AffectedCovers(segment, overlaps);
      WholeSegment(parts[0]);
      return;
    }
    var starts := anchors.value;
    var wordIds := Map(w => WordIds(w, overlaps), segment.words);
    var b := Boundaries(wordIds);
    if |b| == 2 {
      parts := [Annotate(segment, wordIds[0])];
      WholeIsReviewed(u, segment, overlaps, wordIds);
      return;
    }
    parts, pieces := CutParts(u, segment, overlaps, starts, b);
    SplitIsReviewed(u, segment, overlaps, parts, pieces);
  }

  lemma WholeIsReviewed(u: CharTable, segment: Segment, overlaps: seq<SpeechOverlap>, wordIds: seq<seq<string>>)
    requires segment.words != [] && Anchored(segment.text, segment.words, 0)
    requires wordIds == Map(w => WordIds(w, overlaps), segment.words) && Uniform(wordIds, 0, |wordIds|)
    ensures Reviewed(u, segment, overlaps, [Annotate(segment, wordIds[0])], [])
  {
    hide WordIds, Anchored, Flatten;
    WholeSegment(Annotate(segment, wordIds[0]));
    SlicesSame(segment.words, overlaps, 0, |segment.words|);
    assert segment.words[0..|segment.words|] == segment.words;
    assert SameIds(Annotate(segment, wordIds[0]), overlaps);
  }

  lemma SplitIsReviewed(u: CharTable, segment: Segment, overlaps: seq<SpeechOverlap>, parts: seq<Segment>, pieces: seq<string>)
    requires segment.words != [] && Anchored(segment.text, segment.words, 0)
    requires |parts| == |pieces| > 1
    requires Flatten(PartWords(parts)) == segment.words && Flatten(pieces) == segment.text
    requires forall i :: 0 <= i < |parts| ==> PartOk(u, segment, overlaps, parts[i], pieces[i]) && (i > 0 ==> OpensWith(parts[i], pieces[i]))
    requires forall i :: 1 <= i < |parts| ==> parts[i - 1].overlapIds != parts[i].overlapIds
    ensures Reviewed(u, segment, overlaps, parts, pieces)
  {
    hide Flatten, Annotate, WordIds, Bounds, Anchored, OpensWith;
    assert forall i :: 0 <= i < |parts| ==> SameIds(parts[i], overlaps);
  }

  /** The parts cut so far: words and text are consumed up to the same cut. */
  ghost predicate CutSoFar(u: CharTable, segment: Segment, overlaps: seq<SpeechOverlap>, starts: seq<nat>, b: seq<int>,
                           parts: seq<Segment>, pieces: seq<string>)
    requires |starts| == |segment.words| && |parts| < |b| && forall k :: 0 <= k < |b| ==> 0 <= b[k] <= |segment.words|
  {
    var k := |parts|;
    && |pieces| == k && TextFrom(segment.text, starts, b[k]) <= |segment.text|
    && Flatten(PartWords(parts)) == segment.words[..b[k]]
    && Flatten(pieces) == segment.text[..TextFrom(segment.text, starts, b[k])]
    && forall i :: 0 <= i < k ==>
         && PartOk(u, segment, overlaps, parts[i], pieces[i]) && (i > 0 ==> OpensWith(parts[i], pieces[i]))
         && b[i] < |segment.words| && parts[i].overlapIds == WordIds(segment.words[b[i]], overlaps)
  }

  lemma CutMore(u: CharTable, segment: Segment, overlaps: seq<SpeechOverlap>, starts: seq<nat>, b: seq<int>,
                parts: seq<Segment>, pieces: seq<string>, part: Segment, piece: string)
    requires |starts| == |segment.words| && |parts| + 1 < |b| && forall k :: 0 <= k < |b| ==> 0 <= b[k] <= |segment.words|
    requires CutSoFar(u, segment, overlaps, starts, b, parts, pieces)
    requires var from, to := b[|parts|], b[|parts| + 1];
      && from < to && TextFrom(segment.text, starts, from) <= TextFrom(segment.text, starts, to) <= |segment.text|
      && piece == segment.text[TextFrom(segment.text, starts, from)..TextFrom(segment.text, starts, to)]
      && part.words == segment.words[from..to]
      && part.overlapIds == WordIds(segment.words[from], overlaps)
    requires PartOk(u, segment, overlaps, part, piece) && (|parts| > 0 ==> OpensWith(part, piece))
    ensures CutSoFar(u, segment, overlaps, starts, b, parts + [part], pieces + [piece])
  {
    hide Flatten, PartOk, WordIds, OpensWith;
    FlattenSnoc(PartWords(parts), part.words);
    PartWordsSnoc(parts, part);
    FlattenSnoc(pieces, piece);
    var from, to := b[|parts|], b[|parts| + 1];
    assert segment.words[..to] == segment.words[..from] + part.words;
    assert segment.text[..TextFrom(segment.text, starts, to)] == segment.text[..TextFrom(segment.text, starts, from)] + piece;
  }

  lemma NothingCut(u: CharTable, segment: Segment, overlaps: seq<SpeechOverlap>, starts: seq<nat>, b: seq<int>)
    requires |starts| == |segment.words| > 0 && |b| > 0 && b[0] == 0
    requires forall k :: 0 <= k < |b| ==> 0 <= b[k] <= |segment.words|
    ensures CutSoFar(u, segment, overlaps, starts, b, [], [])
  {
    assert segment.words[..0] == [] && segment.text[..0] == "";
  }

  method CutParts(u: CharTable, segment: Segment, overlaps: seq<SpeechOverlap>, starts: seq<nat>, b: seq<int>)
    returns (parts: seq<Segment>, ghost pieces: seq<string>)
    requires Placed(segment.text, segment.words, starts, 0)
    requires |starts| == |segment.words| && Cuts(Map(w => WordIds(w, overlaps), segment.words), b)
    ensures |parts| == |pieces| == |b| - 1
    ensures Flatten(PartWords(parts)) == segment.words && Flatten(pieces) == segment.text
    ensures forall i :: 0 <= i < |parts| ==> PartOk(u, segment, overlaps, parts[i], pieces[i]) && (i > 0 ==> OpensWith(parts[i], pieces[i]))
    ensures forall i :: 1 <= i < |parts| ==> parts[i - 1].overlapIds != parts[i].overlapIds
  {
    hide Flatten, PartOk, Placed, WordIds, OpensWith;
    parts, pieces := [], [];
    CutsInside(segment.words, overlaps, b);
    NothingCut(u, segment, overlaps, starts, b);
    for k := 0 to |b| - 1
      invariant |parts| == k && CutSoFar(u, segment, overlaps, starts, b, parts, pieces)
    {
      assert Uniform(Map(w => WordIds(w, overlaps), segment.words), b[k], b[k + 1]);
      assert k > 0 ==> b[k - 1] < b[k - 1 + 1];
      var part, piece := CutPart(u, segment, overlaps, starts, b[k], b[k + 1]);
      CutMore(u, segment, overlaps, starts, b, parts, pieces, part, piece);
      parts, pieces := parts + [part], pieces + [piece];
    }
    assert segment.text[..|segment.text|] == segment.text && segment.words[..|segment.words|] == segment.words;
  }

  /** The cuts lie inside the words, and consecutive parts begin with different ids. */
  lemma CutsInside(words: seq<Word>, overlaps: seq<SpeechOverlap>, b: seq<int>)
    requires Cuts(Map(w => WordIds(w, overlaps), words), b)
    ensures words != []
    ensures forall k :: 1 <= k < |b| - 1 ==> WordIds(words[b[k - 1]], overlaps) != WordIds(words[b[k]], overlaps)
  {
    var wordIds := Map(w => WordIds(w, overlaps), words);
    assert b[0] < b[0 + 1];
    forall k | 1 <= k < |b| - 1 ensures WordIds(words[b[k - 1]], overlaps) != WordIds(words[b[k]], overlaps) {
      assert Uniform(wordIds, b[k - 1], b[k - 1 + 1]) && ChangesAt(wordIds, b[k]);
      assert wordIds[b[k] - 1] == wordIds[b[k - 1]];
    }
  }

  lemma PartWordsSnoc(parts: seq<Segment>, part: Segment)
    ensures PartWords(parts + [part]) == PartWords(parts) + [part.words]
  {
  }

  lemma WholeSegment(part: Segment)
    ensures Flatten(PartWords([part])) == part.words
  {
    assert PartWords([part]) == [part.words];
    FlattenSingle(part.words);
  }

  // ---- apply_speaker_review

  /** bisect_right on a sorted list: how many of its first elements do not exceed x. */
  function BisectRight(xs: seq<real>, x: real): (n: nat)
    ensures n <= |xs|
    ensures forall i :: 0 <= i < n ==> xs[i] <= x
    ensures n < |xs| ==> xs[n] > x
  {
    if xs == [] || xs[0] > x then 0 else 1 + BisectRight(xs[1..], x)
  }

  /** The window of the overlap list a segment is compared with: nothing before it ends after
      the segment's span begins, nothing after it begins before the span ends. */
  ghost predicate Candidates(overlaps: seq<SpeechOverlap>, start: real, end: real, lo: int, hi: int) {
    && 0 <= lo <= hi <= |overlaps|
    && (forall i :: 0 <= i < lo ==> overlaps[i].end <= start)
    && (forall i :: hi <= i < |overlaps| ==> end <= overlaps[i].start)
  }

  lemma {:induction false} IdsAppend(start: real, end: real, a: seq<SpeechOverlap>, b: seq<SpeechOverlap>)
    ensures Ids(start, end, a + b) == Ids(start, end, a) + Ids(start, end, b)
  {
    if a == [] {
      assert a + b == b;
    } else {
      var first := if Touches(start, end, a[0]) then [a[0].id] else [];
      assert (a + b)[0] == a[0] && (a + b)[1..] == a[1..] + b;
      assert Ids(start, end, a + b) == first + Ids(start, end, a[1..] + b);
      assert Ids(start, end, a) == first + Ids(start, end, a[1..]);
      IdsAppend(start, end, a[1..], b);
      Associative(first, Ids(start, end, a[1..]), Ids(start, end, b));
    }
  }

  lemma {:induction false} NoIds(start: real, end: real, overlaps: seq<SpeechOverlap>)
    requires forall i :: 0 <= i < |overlaps| ==> overlaps[i].end <= start || end <= overlaps[i].start
    ensures Ids(start, end, overlaps) == []
  {
    if overlaps != [] {
      NoIds(start, end, overlaps[1..]);
    }
  }

  /** The bisected window gives every span inside the segment the same ids as the whole list. */
  lemma WindowKeepsIds(overlaps: seq<SpeechOverlap>, from: real, to: real, lo: int, hi: int, start: real, end: real)
    requires Candidates(overlaps, from, to, lo, hi) && from <= start && end <= to
    ensures Ids(start, end, overlaps[lo..hi]) == Ids(start, end, overlaps)
  {
    var a, b, c := overlaps[..lo], overlaps[lo..hi], overlaps[hi..];
    assert overlaps == a + b + c;
    IdsAppend(start, end, a, b);
    IdsAppend(start, end, a + b, c);
    NoIds(start, end, a);
    NoIds(start, end, c);
  }

  lemma {:induction false} ListingAppend(ids: seq<string>, a: seq<SpeechOverlap>, b: seq<SpeechOverlap>)
    ensures Listing(a + b, ids) == Listing(a, ids) + Listing(b, ids)
  {
    if a == [] {
      assert a + b == b;
    } else {
      var first := if a[0].id in ids then [a[0].id] else [];
      assert (a + b)[0] == a[0] && (a + b)[1..] == a[1..] + b;
      assert Listing(a + b, ids) == first + Listing(a[1..] + b, ids);
      assert Listing(a, ids) == first + Listing(a[1..], ids);
      ListingAppend(ids, a[1..], b);
      Associative(first, Listing(a[1..], ids), Listing(b, ids));
    }
  }

  lemma {:induction false} NotListed(ids: seq<string>, overlaps: seq<SpeechOverlap>)
    requires forall i :: 0 <= i < |overlaps| ==> overlaps[i].id !in ids
    ensures Listing(overlaps, ids) == []
  {
    if overlaps != [] {
      NotListed(ids, overlaps[1..]);
    }
  }

  lemma {:induction false} IdsFrom(start: real, end: real, overlaps: seq<SpeechOverlap>)
    ensures forall id :: id in Ids(start, end, overlaps) ==> exists i :: 0 <= i < |overlaps| && overlaps[i].id == id
  {
    if overlaps != [] {
      IdsFrom(start, end, overlaps[1..]);
      forall id | id in Ids(start, end, overlaps[1..]) ensures exists i :: 0 <= i < |overlaps| && overlaps[i].id == id {
        var i :| 0 <= i < |overlaps| - 1 && overlaps[1..][i].id == id;
        assert overlaps[i + 1].id == id;
      }
    }
  }

  lemma {:induction false} FlattenFrom<T>(xss: seq<seq<T>>, x: T)
    requires x in Flatten(xss)
    ensures exists i :: 0 <= i < |xss| && x in xss[i]
  {
    if x !in xss[0] {
      FlattenFrom(xss[1..], x);
      var i :| 0 <= i < |xss| - 1 && x in xss[1..][i];
      assert x in xss[i + 1];
    }
  }

  /** So does the fallback for a segment that cannot be anchored. */
  lemma WindowKeepsAffected(segment: Segment, overlaps: seq<SpeechOverlap>, from: real, to: real, lo: int, hi: int)
    requires Contract(overlaps) && Candidates(overlaps, from, to, lo, hi)
    requires from <= segment.start && segment.end <= to
    requires forall w :: w in segment.words ==> from <= w.start && w.end <= to
    ensures Affected(segment, overlaps[lo..hi]) == Affected(segment, overlaps)
  {
    var window := overlaps[lo..hi];
    forall w | w in segment.words ensures WordIds(w, window) == WordIds(w, overlaps) {
      WindowKeepsIds(overlaps, from, to, lo, hi, w.start, w.end);
    }
    WindowKeepsIds(overlaps, from, to, lo, hi, segment.start, segment.end);
    var wordIds := Map(w => WordIds(w, window), segment.words);
    assert wordIds == Map(w => WordIds(w, overlaps), segment.words);
    var ids := Ids(segment.start, segment.end, window) + Flatten(wordIds);
    forall id | id in ids ensures exists i :: lo <= i < hi && overlaps[i].id == id {
      IdsFrom(segment.start, segment.end, window);
      if id !in Ids(segment.start, segment.end, window) {
        FlattenFrom(wordIds, id);
        var k :| 0 <= k < |wordIds| && id in wordIds[k];
        IdsFrom(segment.words[k].start, segment.words[k].end, window);
      }
      var i :| 0 <= i < |window| && window[i].id == id;
      assert overlaps[lo + i].id == id;
    }
    ListingOutside(overlaps, lo, hi, ids);
  }

  lemma ListingOutside(overlaps: seq<SpeechOverlap>, lo: int, hi: int, ids: seq<string>)
    requires Contract(overlaps) && 0 <= lo <= hi <= |overlaps|
    requires forall id :: id in ids ==> exists i :: lo <= i < hi && overlaps[i].id == id
    ensures Listing(overlaps[lo..hi], ids) == Listing(overlaps, ids)
  {
    var a, b, c := overlaps[..lo], overlaps[lo..hi], overlaps[hi..];
    assert overlaps == a + b + c;
    ListingAppend(ids, a, b);
    ListingAppend(ids, a + b, c);
    NotListed(ids, a);
    NotListed(ids, c);
  }

  /** What holds against the window holds against the whole list of overlaps. */
  lemma ReviewedByAll(u: CharTable, segment: Segment, overlaps: seq<SpeechOverlap>, lo: int, hi: int, from: real, to: real,
                      parts: seq<Segment>, pieces: seq<string>)
    requires Contract(overlaps) && Candidates(overlaps, from, to, lo, hi)
    requires from <= segment.start && segment.end <= to
    requires forall w :: w in segment.words ==> from <= w.start && w.end <= to
    requires Reviewed(u, segment, overlaps[lo..hi], parts, pieces)
    ensures Reviewed(u, segment, overlaps, parts, pieces)
  {
    var window := overlaps[lo..hi];
    forall w | w in segment.words ensures WordIds(w, window) == WordIds(w, overlaps) {
      WindowKeepsIds(overlaps, from, to, lo, hi, w.start, w.end);
    }
    WindowKeepsIds(overlaps, from, to, lo, hi, segment.start, segment.end);
    WindowKeepsAffected(segment, overlaps, from, to, lo, hi);
    forall i, w | 0 <= i < |parts| && w in parts[i].words ensures w in segment.words {
      FlattenMember(PartWords(parts), i, w);
    }
    hide Flatten, WordIds, Ids, Anchored, Annotate, Affected, Pieces;
    forall i | 0 <= i < |parts|
      ensures CoversIds(parts[i], overlaps)
      ensures SameIds(parts[i], window) ==> SameIds(parts[i], overlaps)
    {
      assert CoversIds(parts[i], window);
    }
  }

  /** The whole pass: every segment is replaced by its reviewed parts, in order. */
  method ApplyReview(u: CharTable, segments: seq<Segment>, overlaps: seq<SpeechOverlap>)
    returns (out: seq<Segment>, ghost partsOf: seq<seq<Segment>>, ghost piecesOf: seq<seq<string>>)
    requires Contract(overlaps)
    ensures |partsOf| == |piecesOf| == |segments| && out == Flatten(partsOf)
    ensures forall i :: 0 <= i < |segments| ==> Reviewed(u, segments[i], overlaps, partsOf[i], piecesOf[i])
  {
    hide Flatten, Reviewed;
    out, partsOf, piecesOf := [], [], [];
    NoParts();
    var ends := Map((o: SpeechOverlap) => o.end, overlaps);
    for k := 0 to |segments|
      invariant |partsOf| == |piecesOf| == k && out == Flatten(partsOf)
      invariant forall i :: 0 <= i < k ==> Reviewed(u, segments[i], overlaps, partsOf[i], piecesOf[i])
    {
      var parts;
      ghost var pieces;
      parts, pieces := ReviewSegment(u, segments[k], overlaps, ends);
      FlattenSnoc(partsOf, parts);
      out, partsOf, piecesOf := out + parts, partsOf + [parts], piecesOf + [pieces];
    }
  }

  /** One segment against the overlaps near it, found by bisection. */
  method ReviewSegment(u: CharTable, segment: Segment, overlaps: seq<SpeechOverlap>, ends: seq<real>)
    returns (parts: seq<Segment>, ghost pieces: seq<string>)
    requires Contract(overlaps) && ends == Map((o: SpeechOverlap) => o.end, overlaps)
    ensures Reviewed(u, segment, overlaps, parts, pieces)
  {
    hide Flatten, Reviewed, Contract, Candidates;
    var start := if segment.words == [] then segment.start else Min(segment.start, FirstStart(segment.words));
    var end := if segment.words == [] then segment.end else Max(segment.end, LastEnd(segment.words));
    if segment.words != [] {
      WordBounds(segment.words);
    }
    var candidates;
    ghost var first, index;
    candidates, first, index := OverlapsNear(overlaps, ends, start, end);
    parts, pieces := SplitSegment(u, segment, candidates);
    ReviewedByAll(u, segment, overlaps, first, index, start, end, parts, pieces);
  }

  method OverlapsNear(overlaps: seq<SpeechOverlap>, ends: seq<real>, start: real, end: real)
    returns (candidates: seq<SpeechOverlap>, ghost first: int, ghost index: int)
    requires Contract(overlaps) && ends == Map((o: SpeechOverlap) => o.end, overlaps)
    ensures Candidates(overlaps, start, end, first, index) && candidates == overlaps[first..index]
  {
    hide Contract, Candidates;
    candidates := [];
    var at := BisectRight(ends, start);
    first := at;
    while at < |overlaps| && overlaps[at].start < end
      invariant first <= at <= |overlaps|
      invariant candidates == overlaps[first..at]
    {
      candidates := candidates + [overlaps[at]];
      at := at + 1;
    }
    index := at;
    Bisected(overlaps, start, end, first, index);
  }

  lemma NoParts()
    ensures Flatten<Segment>([]) == []
  {
  }

  lemma Bisected(overlaps: seq<SpeechOverlap>, start: real, end: real, first: int, index: int)
    requires Contract(overlaps) && 0 <= first <= index <= |overlaps|
    requires first == BisectRight(Map((o: SpeechOverlap) => o.end, overlaps), start)
    requires index == |overlaps| || overlaps[index].start >= end
    ensures Candidates(overlaps, start, end, first, index)
  {
    var ends := Map((o: SpeechOverlap) => o.end, overlaps);
    forall i | 0 <= i < first ensures overlaps[i].end <= start {
      assert ends[i] == overlaps[i].end;
    }
    forall i | index < i < |overlaps| ensures end <= overlaps[i].start {
      assert overlaps[index].end <= overlaps[i].start;
    }
  }
}
