/** src/vemsa/pipeline/speaker_review.py: which words are flagged, told by instants. */
module Flags {
  import opened Base
  import opened Models
  import opened Text
  import opened Overlaps
  import opened Review

  /** At time t both the span and the overlap are going on. */
  predicate Meet(start: real, end: real, o: SpeechOverlap, t: real) {
    start <= t < end && o.start <= t < o.end
  }

  /** The id is that of an overlap some instant of the span lies in. */
  ghost predicate FlaggedBy(start: real, end: real, overlaps: seq<SpeechOverlap>, id: string) {
    exists k, t :: 0 <= k < |overlaps| && overlaps[k].id == id && Meet(start, end, overlaps[k], t)
  }

  ghost predicate Listed(overlaps: seq<SpeechOverlap>, id: string) {
    exists i :: 0 <= i < |overlaps| && overlaps[i].id == id
  }

  ghost predicate Before(overlaps: seq<SpeechOverlap>, x: string, y: string) {
    exists j, k :: 0 <= j < k < |overlaps| && overlaps[j].id == x && overlaps[k].id == y
  }

  /** The ids stand in the order of the overlaps, none twice. */
  ghost predicate InListOrder(ids: seq<string>, overlaps: seq<SpeechOverlap>) {
    forall a, b :: 0 <= a < b < |ids| ==> Before(overlaps, ids[a], ids[b])
  }

  /** A part flagged at all is provisional; else it is assigned exactly when it has a speaker. */
  ghost predicate Attributed(part: Segment) {
    && (part.attribution == Some(Provisional) <==> part.overlapIds != [])
    && (part.attribution == Some(Assigned) <==> part.overlapIds == [] && part.speaker.Some? && part.speaker.value != "")
    && (part.attribution == Some(Unassigned) <==> part.overlapIds == [] && (part.speaker.None? || part.speaker.value == ""))
  }

  /** What the flags of one segment's parts say; a segment that stays whole keeps everything else. */
  ghost predicate RightlyFlagged(segment: Segment, overlaps: seq<SpeechOverlap>, parts: seq<Segment>) {
    && (|parts| == 1 ==> parts[0] == segment.(attribution := parts[0].attribution, overlapIds := parts[0].overlapIds))
    && (forall i :: 0 <= i < |parts| ==> Attributed(parts[i]) && InListOrder(parts[i].overlapIds, overlaps))
    && (forall i, w, k, t :: 0 <= i < |parts| && w in parts[i].words && 0 <= k < |overlaps| && Meet(w.start, w.end, overlaps[k], t)
         ==> overlaps[k].id in parts[i].overlapIds)
    && if segment.words == [] then
         |parts| == 1 && forall id :: id in parts[0].overlapIds <==> FlaggedBy(segment.start, segment.end, overlaps, id)
       else if Anchored(segment.text, segment.words, 0) then
         forall i, w, id :: 0 <= i < |parts| && w in parts[i].words ==>
           (id in parts[i].overlapIds <==> FlaggedBy(w.start, w.end, overlaps, id))
       else
         |parts| == 1 && forall id :: id in parts[0].overlapIds <==>
           FlaggedBy(segment.start, segment.end, overlaps, id) || exists w :: w in segment.words && FlaggedBy(w.start, w.end, overlaps, id)
  }

  // ---- the code's interval test, as an instant both have

  lemma TouchesMeet(start: real, end: real, o: SpeechOverlap)
    requires o.start < o.end
    ensures Touches(start, end, o) <==> exists t :: Meet(start, end, o, t)
  {
    if Touches(start, end, o) {
      assert Meet(start, end, o, if start < o.start then o.start else start);
    }
  }

  ghost predicate Positive(overlaps: seq<SpeechOverlap>) {
    forall k :: 0 <= k < |overlaps| ==> overlaps[k].start < overlaps[k].end
  }

  lemma {:induction false} IdsAreFlags(start: real, end: real, overlaps: seq<SpeechOverlap>, id: string)
    requires Positive(overlaps)
    ensures id in Ids(start, end, overlaps) <==> FlaggedBy(start, end, overlaps, id)
  {
    if overlaps != [] {
      var first, rest := overlaps[0], overlaps[1..];
      TouchesMeet(start, end, first);
      IdsAreFlags(start, end, rest, id);
      hide Touches, Meet;
      if FlaggedBy(start, end, rest, id) {
        var k, t :| 0 <= k < |rest| && rest[k].id == id && Meet(start, end, rest[k], t);
        assert overlaps[k + 1].id == id && Meet(start, end, overlaps[k + 1], t);
      }
      if FlaggedBy(start, end, overlaps, id) {
        var k, t :| 0 <= k < |overlaps| && overlaps[k].id == id && Meet(start, end, overlaps[k], t);
        if k > 0 {
          assert rest[k - 1].id == id && Meet(start, end, rest[k - 1], t);
        }
      }
    }
  }

  lemma {:induction false} IdsInOrder(start: real, end: real, overlaps: seq<SpeechOverlap>)
    requires Positive(overlaps)
    ensures InListOrder(Ids(start, end, overlaps), overlaps)
  {
    if overlaps != [] {
      IdsInOrder(start, end, overlaps[1..]);
      IdsFrom(start, end, overlaps[1..]);
      OrderGrows(if Touches(start, end, overlaps[0]) then [overlaps[0].id] else [], Ids(start, end, overlaps[1..]), overlaps);
    }
  }

  lemma OrderGrows(first: seq<string>, ids: seq<string>, overlaps: seq<SpeechOverlap>)
    requires overlaps != [] && (first == [] || first == [overlaps[0].id])
    requires InListOrder(ids, overlaps[1..])
    requires forall id :: id in ids ==> Listed(overlaps[1..], id)
    ensures InListOrder(first + ids, overlaps)
  {
    hide Before, Listed;
    var all, rest := first + ids, overlaps[1..];
    forall a, b | 0 <= a < b < |all| ensures Before(overlaps, all[a], all[b]) {
      assert all[b] == ids[b - |first|] && ids[b - |first|] in ids;
      if a < |first| {
        HeadBefore(overlaps, all[b]);
      } else {
        assert Before(rest, ids[a - |first|], ids[b - |first|]);
        TailBefore(overlaps, ids[a - |first|], ids[b - |first|]);
      }
    }
  }

  lemma HeadBefore(overlaps: seq<SpeechOverlap>, y: string)
    requires overlaps != [] && Listed(overlaps[1..], y)
    ensures Before(overlaps, overlaps[0].id, y)
  {
    var i :| 0 <= i < |overlaps[1..]| && overlaps[1..][i].id == y;
    assert overlaps[i + 1].id == y;
  }

  lemma TailBefore(overlaps: seq<SpeechOverlap>, x: string, y: string)
    requires overlaps != [] && Before(overlaps[1..], x, y)
    ensures Before(overlaps, x, y)
  {
    var rest := overlaps[1..];
    var j, k :| 0 <= j < k < |rest| && rest[j].id == x && rest[k].id == y;
    assert overlaps[j + 1].id == x && overlaps[k + 1].id == y;
  }

  lemma {:induction false} ListingInOrder(overlaps: seq<SpeechOverlap>, ids: seq<string>)
    ensures InListOrder(Listing(overlaps, ids), overlaps)
    ensures forall id :: id in Listing(overlaps, ids) ==> Listed(overlaps, id)
  {
    if overlaps != [] {
      var rest := overlaps[1..];
      ListingInOrder(rest, ids);
      OrderGrows(if overlaps[0].id in ids then [overlaps[0].id] else [], Listing(rest, ids), overlaps);
      forall id | id in Listing(rest, ids) ensures Listed(overlaps, id) {
        var i :| 0 <= i < |rest| && rest[i].id == id;
        assert overlaps[i + 1].id == id;
      }
    }
  }

  lemma {:induction false} ListingIff(overlaps: seq<SpeechOverlap>, ids: seq<string>, id: string)
    ensures id in Listing(overlaps, ids) ==> id in ids
    ensures id in ids && Listed(overlaps, id) ==> id in Listing(overlaps, ids)
  {
    if overlaps != [] {
      ListingIff(overlaps[1..], ids, id);
      if k :| 0 <= k < |overlaps| && overlaps[k].id == id && k > 0 {
        assert overlaps[1..][k - 1].id == id;
      }
    }
  }

  /** The fallback's ids: those of the segment's own span and those of its words. */
  lemma AffectedAreFlags(segment: Segment, overlaps: seq<SpeechOverlap>, id: string)
    requires Positive(overlaps)
    ensures id in Affected(segment, overlaps) <==>
      FlaggedBy(segment.start, segment.end, overlaps, id) || exists w :: w in segment.words && FlaggedBy(w.start, w.end, overlaps, id)
  {
    hide Ids, Listing, Flatten, Meet;
    var all := Map(w => WordIds(w, overlaps), segment.words);
    var ids := Ids(segment.start, segment.end, overlaps) + Flatten(all);
    IdsAreFlags(segment.start, segment.end, overlaps, id);
    ListingIff(overlaps, ids, id);
    if id in Flatten(all) {
      FlattenFrom(all, id);
      var i :| 0 <= i < |all| && id in all[i];
      IdsAreFlags(segment.words[i].start, segment.words[i].end, overlaps, id);
      assert segment.words[i] in segment.words;
    }
    if w :| w in segment.words && FlaggedBy(w.start, w.end, overlaps, id) {
      IdsAreFlags(w.start, w.end, overlaps, id);
      var i :| 0 <= i < |segment.words| && segment.words[i] == w;
      FlattenMember(all, i, id);
    }
  }

  // ---- the promise

  lemma Annotated(part: Segment)
    requires part == Annotate(part, part.overlapIds)
    ensures Attributed(part)
  {
  }

  /** What the review makes of a segment is flagged exactly where somebody else is heard at the same time. */
  lemma ReviewFlagsRightly(u: CharTable, segment: Segment, overlaps: seq<SpeechOverlap>, parts: seq<Segment>, pieces: seq<string>)
    requires Contract(overlaps) && Reviewed(u, segment, overlaps, parts, pieces)
    ensures RightlyFlagged(segment, overlaps, parts)
  {
    hide Ids, Affected, Anchored, Annotate, Meet, Touches, FlaggedBy, InListOrder, Attributed, Pieces, Flatten;
    assert Positive(overlaps);
    forall i | 0 <= i < |parts| ensures Attributed(parts[i]) {
      Annotated(parts[i]);
    }
    forall start, end, id ensures id in Ids(start, end, overlaps) <==> FlaggedBy(start, end, overlaps, id) {
      IdsAreFlags(start, end, overlaps, id);
    }
    forall i, w, k, t | 0 <= i < |parts| && w in parts[i].words && 0 <= k < |overlaps| && Meet(w.start, w.end, overlaps[k], t)
      ensures overlaps[k].id in parts[i].overlapIds
    {
      MeetFlags(w.start, w.end, overlaps, k, t);
      assert CoversIds(parts[i], overlaps);
    }
    if segment.words == [] {
      IdsInOrder(segment.start, segment.end, overlaps);
      AnnotatedIds(segment, Ids(segment.start, segment.end, overlaps));
    } else if Anchored(segment.text, segment.words, 0) {
      if |parts| == 1 {
        AnnotatedIds(segment, parts[0].overlapIds);
      }
      forall i | 0 <= i < |parts| ensures InListOrder(parts[i].overlapIds, overlaps) {
        var w := parts[i].words[0];
        assert w in parts[i].words;
        IdsInOrder(w.start, w.end, overlaps);
      }
    } else {
      AffectedInOrder(segment, overlaps);
      AnnotatedIds(segment, Affected(segment, overlaps));
      forall id ensures id in Affected(segment, overlaps) <==>
        FlaggedBy(segment.start, segment.end, overlaps, id) || exists w :: w in segment.words && FlaggedBy(w.start, w.end, overlaps, id)
      {
        AffectedAreFlags(segment, overlaps, id);
      }
    }
  }

  lemma MeetFlags(start: real, end: real, overlaps: seq<SpeechOverlap>, k: int, t: real)
    requires 0 <= k < |overlaps| && Meet(start, end, overlaps[k], t)
    ensures FlaggedBy(start, end, overlaps, overlaps[k].id)
  {
  }

  lemma AnnotatedIds(segment: Segment, ids: seq<string>)
    ensures var part := Annotate(segment, ids);
      part.overlapIds == ids && part == segment.(attribution := part.attribution, overlapIds := ids)
  {
  }

  lemma AffectedInOrder(segment: Segment, overlaps: seq<SpeechOverlap>)
    ensures InListOrder(Affected(segment, overlaps), overlaps)
  {
    hide Listing, Ids;
    ListingInOrder(overlaps, Ids(segment.start, segment.end, overlaps) + Flatten(Map(w => WordIds(w, overlaps), segment.words)));
  }
}
