/** src/vemsa/pipeline/diarize.py, relabel_turns: what a cluster is called afterwards. */
module Agreement {
  import opened Base
  import opened Models
  import opened Tallies
  import opened Decimal
  import opened Renaming

  // ---- told of turns and reference segments alone

  /** How long the turn runs inside the segment. */
  function Common(turn: Turn, segment: Segment): real {
    var from, to := if turn.start < segment.start then segment.start else turn.start, if turn.end < segment.end then turn.end else segment.end;
    if from < to then to - from else 0.0
  }

  function Saying(turn: Turn, name: string): Segment -> real {
    (segment: Segment) => if segment.speaker == Some(name) then Common(turn, segment) else 0.0
  }

  function SayingAny(turn: Turn): Segment -> real {
    (segment: Segment) => if segment.speaker.Some? && segment.speaker != Some("") then Common(turn, segment) else 0.0
  }

  function TurnsWith(reference: seq<Segment>, cluster: string, name: string): Turn -> real {
    (turn: Turn) => if turn.speaker == cluster then Sum(Saying(turn, name), reference) else 0.0
  }

  function TurnsWithAny(reference: seq<Segment>, cluster: string): Turn -> real {
    (turn: Turn) => if turn.speaker == cluster then Sum(SayingAny(turn), reference) else 0.0
  }

  function Lasting(cluster: string): Turn -> real {
    (turn: Turn) => if turn.speaker == cluster then turn.end - turn.start else 0.0
  }

  /** How long the cluster is heard while the caller has this speaker talking. */
  function Shared(turns: seq<Turn>, reference: seq<Segment>, cluster: string, name: string): real {
    Sum(TurnsWith(reference, cluster, name), turns)
  }

  function SharedWithAny(turns: seq<Turn>, reference: seq<Segment>, cluster: string): real {
    Sum(TurnsWithAny(reference, cluster), turns)
  }

  /** a comes before b, letter by letter. */
  ghost predicate SortsBefore(a: string, b: string) {
    exists k :: 0 <= k <= |a| && k < |b| && a[..k] == b[..k] && (k == |a| || a[k] < b[k])
  }

  /** The cluster shares more time with this speaker than with any other, of equals with the one sorting last, and
      at least the floor's share of what it shares with anybody. */
  ghost predicate AgreesWith(turns: seq<Turn>, reference: seq<Segment>, minShare: real, cluster: string, name: string) {
    && name != "" && Shared(turns, reference, cluster, name) > 0.0
    && (forall other :: other != "" && other != name ==>
      || Shared(turns, reference, cluster, other) < Shared(turns, reference, cluster, name)
      || (Shared(turns, reference, cluster, other) == Shared(turns, reference, cluster, name) && SortsBefore(other, name)))
    && Shared(turns, reference, cluster, name) >= minShare * SharedWithAny(turns, reference, cluster)
  }

  // ---- the rule says the same

  lemma OverlapIsCommonTime(turn: Turn, segment: Segment)
    ensures Renaming.Overlap(turn, segment) == Common(turn, segment)
    ensures CommonTime(turn.start, turn.end, segment.start, segment.end, Common(turn, segment))
  {
    CommonTimeIs(turn.start, turn.end, segment.start, segment.end, Common(turn, segment));
  }

  lemma {:induction false} BeforeIff(a: string, b: string)
    ensures Before(a, b) <==> SortsBefore(a, b)
  {
    if a != "" && b != "" && a[0] == b[0] {
      BeforeIff(a[1..], b[1..]);
      if k :| 0 <= k <= |a[1..]| && k < |b[1..]| && a[1..][..k] == b[1..][..k] && (k == |a[1..]| || a[1..][k] < b[1..][k]) {
        assert a[..k + 1] == [a[0]] + a[1..][..k] && b[..k + 1] == [b[0]] + b[1..][..k];
      }
      if k :| 0 <= k <= |a| && k < |b| && a[..k] == b[..k] && (k == |a| || a[k] < b[k]) {
        assert k > 0 && a[1..][..k - 1] == a[..k][1..] && b[1..][..k - 1] == b[..k][1..];
      }
    } else if b != "" && (a == "" || a[0] < b[0]) {
      assert a[..0] == b[..0];
    } else if SortsBefore(a, b) {
      FirstLetters(a, b);
    }
  }

  lemma FirstLetters(a: string, b: string)
    requires SortsBefore(a, b)
    ensures b != "" && (a == "" || a[0] <= b[0])
  {
    var k :| 0 <= k <= |a| && k < |b| && a[..k] == b[..k] && (k == |a| || a[k] < b[k]);
    if k > 0 {
      assert a[0] == a[..k][0] == b[..k][0] == b[0];
    }
  }

  lemma SharesAgree(turns: seq<Turn>, reference: seq<Segment>, cluster: string, name: string)
    requires name != ""
    ensures Share(turns, reference, cluster, name) == Shared(turns, reference, cluster, name) >= 0.0
  {
    forall turn: Turn
      ensures OfCluster(reference, cluster, name)(turn) == TurnsWith(reference, cluster, name)(turn) >= 0.0
    {
      forall segment: Segment ensures UnderLabel(turn, name)(segment) == Saying(turn, name)(segment) >= 0.0 {
        OverlapIsCommonTime(turn, segment);
      }
      SumCongruent(UnderLabel(turn, name), Saying(turn, name), reference);
      SumNotNegative(Saying(turn, name), reference);
    }
    SumCongruent(OfCluster(reference, cluster, name), TurnsWith(reference, cluster, name), turns);
    SumNotNegative(TurnsWith(reference, cluster, name), turns);
  }

  lemma AnySharesAgree(turns: seq<Turn>, reference: seq<Segment>, cluster: string)
    ensures LabelledTime(turns, reference, cluster) == SharedWithAny(turns, reference, cluster)
  {
    forall turn: Turn ensures AllOfCluster(reference, cluster)(turn) == TurnsWithAny(reference, cluster)(turn) {
      forall segment: Segment ensures UnderAnyLabel(turn)(segment) == SayingAny(turn)(segment) {
        OverlapIsCommonTime(turn, segment);
      }
      SumCongruent(UnderAnyLabel(turn), SayingAny(turn), reference);
    }
    SumCongruent(AllOfCluster(reference, cluster), TurnsWithAny(reference, cluster), turns);
  }

  lemma NamelessShareNothing(turns: seq<Turn>, reference: seq<Segment>, cluster: string)
    ensures Share(turns, reference, cluster, "") == 0.0
  {
    NoShareNoLabel(turns, reference, cluster, "");
  }

  lemma TakesIff(turns: seq<Turn>, reference: seq<Segment>, minShare: real, cluster: string, name: string)
    ensures Takes(turns, reference, minShare, cluster, name) <==> AgreesWith(turns, reference, minShare, cluster, name)
  {
    hide Share, Shared, LabelledTime, SharedWithAny, Before, SortsBefore;
    AnySharesAgree(turns, reference, cluster);
    NamelessShareNothing(turns, reference, cluster);
    forall other | other != "" ensures Share(turns, reference, cluster, other) == Shared(turns, reference, cluster, other) >= 0.0 {
      SharesAgree(turns, reference, cluster, other);
    }
    forall other ensures Before(other, name) <==> SortsBefore(other, name) {
      BeforeIff(other, name);
    }
  }

  /** A cluster is called what the caller calls the speaker it agrees with, and by nobody's name when it agrees
      with none. */
  lemma NamedAfterTheOneItAgreesWith(turns: seq<Turn>, reference: seq<Segment>, minShare: real, waiting: seq<string>,
                                     mapping: map<string, string>, cluster: string)
    requires IsMapping(turns, reference, minShare, waiting, mapping) && cluster in mapping
    ensures forall i :: 0 <= i < |reference| && reference[i].speaker.Some? && reference[i].speaker.value != "" ==>
      (mapping[cluster] == reference[i].speaker.value <==> AgreesWith(turns, reference, minShare, cluster, reference[i].speaker.value))
    ensures forall name :: AgreesWith(turns, reference, minShare, cluster, name) ==> mapping[cluster] == name
  {
    hide Takes, AgreesWith, Unmatched;
    forall name ensures Takes(turns, reference, minShare, cluster, name) <==> AgreesWith(turns, reference, minShare, cluster, name) {
      TakesIff(turns, reference, minShare, cluster, name);
    }
    forall i | 0 <= i < |reference| && reference[i].speaker.Some? && reference[i].speaker.value != ""
      ensures mapping[cluster] == reference[i].speaker.value <==> AgreesWith(turns, reference, minShare, cluster, reference[i].speaker.value)
    {
      TakesALabelIff(turns, reference, minShare, waiting, mapping, cluster, reference[i].speaker.value);
    }
  }

  // ---- the fresh names

  /** SPEAKER_ and the number, in two digits and more only if it takes more. */
  ghost predicate Fresh(name: string, n: nat) {
    Numbered(name, "SPEAKER_", 2, n)
  }

  lemma FreshNameIs(n: nat)
    ensures Fresh(FreshName(n), n) && FreshName(n) != ""
  {
    PaddedIsNumbered("SPEAKER_", n, 2);
  }

  /** The longer talker first, of equals the name sorting first. */
  ghost predicate TalksMore(turns: seq<Turn>, a: string, b: string) {
    || Sum(Lasting(a), turns) > Sum(Lasting(b), turns)
    || (Sum(Lasting(a), turns) == Sum(Lasting(b), turns) && SortsBefore(a, b))
  }

  ghost predicate CallersName(reference: seq<Segment>, name: string) {
    exists i :: 0 <= i < |reference| && reference[i].speaker == Some(name)
  }

  lemma CallersNameIff(reference: seq<Segment>, name: string)
    requires name != ""
    ensures CallersName(reference, name) <==> name in CallerLabels(reference)
  {
  }

  /** Some earlier one of the waiting has this name. */
  ghost predicate GivenBefore(waiting: seq<string>, mapping: map<string, string>, k: int, name: string) {
    exists j :: 0 <= j < k && j < |waiting| && waiting[j] in mapping && mapping[waiting[j]] == name
  }

  /** The name with this number is the caller's, or has been given already. */
  ghost predicate NumberGone(reference: seq<Segment>, waiting: seq<string>, mapping: map<string, string>, k: int, m: nat) {
    exists name :: Fresh(name, m) && (CallersName(reference, name) || GivenBefore(waiting, mapping, k, name))
  }

  /** The clusters that agree with nobody wait, the one talking longest first; each in turn gets the lowest number
      that neither the caller nor one before it has. */
  lemma WaitingAreNumbered(turns: seq<Turn>, reference: seq<Segment>, minShare: real, waiting: seq<string>,
                           mapping: map<string, string>, k: int) returns (n: nat)
    requires IsMapping(turns, reference, minShare, waiting, mapping) && 0 <= k < |waiting|
    ensures waiting[k] in mapping && Fresh(mapping[waiting[k]], n) && !CallersName(reference, mapping[waiting[k]])
    ensures forall m: nat :: m < n ==> NumberGone(reference, waiting, mapping, k, m)
    ensures forall j :: 0 <= j < k ==> TalksMore(turns, waiting[j], waiting[k])
  {
    hide FreshName, Takes, Clusters, CallerLabels, Fresh;
    var labels := CallerLabels(reference);
    n := FreshIndex(labels, k);
    FreshNameIs(n);
    FreshAreFree(labels, k);
    CallersNameIff(reference, FreshName(n));
    forall m: nat | m < n ensures NumberGone(reference, waiting, mapping, k, m) {
      FreshNameIs(m);
      CallersNameIff(reference, FreshName(m));
      if IsGiven(labels, k, m) {
        var j: nat :| j < k && FreshIndex(labels, j) == m;
        assert mapping[waiting[j]] == FreshName(m);
      }
    }
    forall j | 0 <= j < k ensures TalksMore(turns, waiting[j], waiting[k]) {
      EarlierTalksMore(turns, waiting[j], waiting[k]);
    }
  }

  ghost predicate IsGiven(labels: set<string>, k: nat, m: nat) {
    exists j: nat :: j < k && FreshIndex(labels, j) == m
  }

  lemma {:induction false} FreshAreFree(labels: set<string>, k: nat)
    ensures FreshName(FreshIndex(labels, k)) !in labels
    ensures forall m: nat :: m < FreshIndex(labels, k) ==> FreshName(m) in labels || IsGiven(labels, k, m)
  {
    hide FreshName, NextFree, FreshIndex;
    if k == 0 {
      FirstIndex(labels);
    } else {
      var last: nat := k - 1;
      FreshAreFree(labels, last);
      FreshIndexNext(labels, k);
      assert IsGiven(labels, k, FreshIndex(labels, last));
      forall m: nat | IsGiven(labels, last, m) ensures IsGiven(labels, k, m) {
        var j: nat :| j < last && FreshIndex(labels, j) == m;
        assert j < k;
      }
    }
  }

  lemma FirstIndex(labels: set<string>)
    ensures FreshIndex(labels, 0) == NextFree(labels, 0)
  {
    hide NextFree;
  }

  lemma EarlierTalksMore(turns: seq<Turn>, a: string, b: string)
    requires Earlier(turns, a, b)
    ensures TalksMore(turns, a, b)
  {
    hide Before, SortsBefore, Sum;
    SumCongruent(LengthIn(a), Lasting(a), turns);
    SumCongruent(LengthIn(b), Lasting(b), turns);
    BeforeIff(a, b);
  }
}
