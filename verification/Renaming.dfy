/** src/vemsa/pipeline/diarize.py, relabel_turns: the rule for names. */
module Renaming {
  import opened Base
  import opened Models
  import opened Tallies
  import Decimal

  // ---- the order of strings

  /** `a < b` as Python compares strings. */
  predicate Before(a: string, b: string) {
    b != "" && (a == "" || a[0] < b[0] || (a[0] == b[0] && Before(a[1..], b[1..])))
  }

  lemma {:induction false} BeforeIsTotal(a: string, b: string)
    ensures a == b || Before(a, b) || Before(b, a)
  {
    if a != "" && b != "" && a[0] == b[0] {
      BeforeIsTotal(a[1..], b[1..]);
      assert a == [a[0]] + a[1..] && b == [b[0]] + b[1..];
    }
  }

  lemma {:induction false} BeforeIsTransitive(a: string, b: string, c: string)
    requires Before(a, b) && Before(b, c)
    ensures Before(a, c)
  {
    if a != "" && a[0] == b[0] == c[0] {
      BeforeIsTransitive(a[1..], b[1..], c[1..]);
    }
  }

  lemma {:induction false} BeforeIsStrict(a: string)
    ensures !Before(a, a)
  {
    if a != "" {
      BeforeIsStrict(a[1..]);
    }
  }

  // ---- what the clusters and the caller's labels share

  predicate HasLabel(segment: Segment) {
    segment.speaker.Some? && segment.speaker.value != ""
  }

  const Labelled: Segment -> bool := (segment: Segment) => HasLabel(segment)

  predicate IsLabel(segment: Segment, name: string) {
    HasLabel(segment) && segment.speaker.value == name
  }

  function Overlap(turn: Turn, segment: Segment): real {
    Max(0.0, Min(turn.end, segment.end) - Max(turn.start, segment.start))
  }

  function UnderLabel(turn: Turn, name: string): Segment -> real {
    (segment: Segment) => if IsLabel(segment, name) then Overlap(turn, segment) else 0.0
  }

  function UnderAnyLabel(turn: Turn): Segment -> real {
    (segment: Segment) => if HasLabel(segment) then Overlap(turn, segment) else 0.0
  }

  function OfCluster(reference: seq<Segment>, cluster: string, name: string): Turn -> real {
    (turn: Turn) => if turn.speaker == cluster then Sum(UnderLabel(turn, name), reference) else 0.0
  }

  function AllOfCluster(reference: seq<Segment>, cluster: string): Turn -> real {
    (turn: Turn) => if turn.speaker == cluster then Sum(UnderAnyLabel(turn), reference) else 0.0
  }

  function LengthIn(cluster: string): Turn -> real {
    (turn: Turn) => if turn.speaker == cluster then turn.end - turn.start else 0.0
  }

  /** A cluster's overlap with the speech the caller gave one label. */
  function Share(turns: seq<Turn>, reference: seq<Segment>, cluster: string, name: string): real {
    Sum(OfCluster(reference, cluster, name), turns)
  }

  /** A cluster's overlap with labelled speech. */
  function LabelledTime(turns: seq<Turn>, reference: seq<Segment>, cluster: string): real {
    Sum(AllOfCluster(reference, cluster), turns)
  }

  function SpeakingTime(turns: seq<Turn>, cluster: string): real {
    Sum(LengthIn(cluster), turns)
  }

  function Clusters(turns: seq<Turn>): set<string> {
    set i | 0 <= i < |turns| :: turns[i].speaker
  }

  function CallerLabels(reference: seq<Segment>): set<string> {
    set i | 0 <= i < |reference| && HasLabel(reference[i]) :: reference[i].speaker.value
  }

  // ---- the rule

  /** Of the labels the cluster overlaps, the one with the largest share; the later name on a tie. */
  ghost predicate LargestLabel(turns: seq<Turn>, reference: seq<Segment>, cluster: string, name: string) {
    && Share(turns, reference, cluster, name) > 0.0
    && forall other :: other != name && Share(turns, reference, cluster, other) > 0.0 ==>
      || Share(turns, reference, cluster, other) < Share(turns, reference, cluster, name)
      || (Share(turns, reference, cluster, other) == Share(turns, reference, cluster, name) && Before(other, name))
  }

  ghost predicate Takes(turns: seq<Turn>, reference: seq<Segment>, minShare: real, cluster: string, name: string) {
    && LargestLabel(turns, reference, cluster, name)
    && Share(turns, reference, cluster, name) >= minShare * LabelledTime(turns, reference, cluster)
  }

  ghost predicate Unmatched(turns: seq<Turn>, reference: seq<Segment>, minShare: real, cluster: string) {
    cluster in Clusters(turns) && forall name :: !Takes(turns, reference, minShare, cluster, name)
  }

  /** `sorted(..., key=lambda name: (-speaking_time[name], name))` */
  predicate Earlier(turns: seq<Turn>, a: string, b: string) {
    || SpeakingTime(turns, a) > SpeakingTime(turns, b)
    || (SpeakingTime(turns, a) == SpeakingTime(turns, b) && Before(a, b))
  }

  ghost predicate InOrder(turns: seq<Turn>, names: seq<string>) {
    forall i, j :: 0 <= i < j < |names| ==> Earlier(turns, names[i], names[j])
  }

  function FreshName(n: nat): string {
    "SPEAKER_" + Decimal.Padded(n, 2)
  }

  lemma FreshNamesDiffer(m: nat, n: nat)
    requires FreshName(m) == FreshName(n)
    ensures m == n
  {
    assert FreshName(m)[8..] == Decimal.Padded(m, 2) && FreshName(n)[8..] == Decimal.Padded(n, 2);
    Decimal.PaddedInjective(m, n, 2);
  }

  /** The least number from `n` on whose name is not taken. It exists: every refused number uses up
      one of the taken names. */
  function NextFree(taken: set<string>, n: nat): (free: nat)
    ensures n <= free && FreshName(free) !in taken
    ensures forall i :: n <= i < free ==> FreshName(i) in taken
    decreases |taken|
  {
    if FreshName(n) !in taken then n
    else
      var free := NextFree(taken - {FreshName(n)}, n + 1);
      assert FreshName(free) !in taken by {
        if FreshName(free) == FreshName(n) { FreshNamesDiffer(free, n); }
      }
      free
  }

  /** The number of the k-th fresh name. */
  function FreshIndex(labels: set<string>, k: nat): nat {
    if k == 0 then NextFree(labels, 0) else NextFree(labels, FreshIndex(labels, k - 1) + 1)
  }

  /** Clusters with a clear label take it; the others get fresh names, longest-speaking first. */
  ghost predicate IsMapping(turns: seq<Turn>, reference: seq<Segment>, minShare: real, waiting: seq<string>, mapping: map<string, string>) {
    && mapping.Keys == Clusters(turns)
    && (forall cluster, name :: cluster in mapping && Takes(turns, reference, minShare, cluster, name) ==> mapping[cluster] == name)
    && InOrder(turns, waiting)
    && (forall cluster :: cluster in waiting <==> Unmatched(turns, reference, minShare, cluster))
    && (forall k :: 0 <= k < |waiting| ==> waiting[k] in mapping && mapping[waiting[k]] == FreshName(FreshIndex(CallerLabels(reference), k)))
  }

  // ---- what the rule gives

  lemma {:induction false} FreshIndexGrows(labels: set<string>, i: nat, j: nat)
    requires i < j
    ensures FreshIndex(labels, i) < FreshIndex(labels, j)
  {
    hide FreshIndex;
    FreshIndexNext(labels, j);
    if i < j - 1 {
      FreshIndexGrows(labels, i, j - 1);
    }
  }

  lemma FreshIndexNext(labels: set<string>, k: nat)
    requires k > 0
    ensures FreshIndex(labels, k) == NextFree(labels, FreshIndex(labels, k - 1) + 1)
    ensures FreshIndex(labels, k) > FreshIndex(labels, k - 1)
  {
    hide NextFree;
  }

  lemma TakesAtMostOne(turns: seq<Turn>, reference: seq<Segment>, minShare: real, cluster: string, a: string, b: string)
    requires Takes(turns, reference, minShare, cluster, a) && Takes(turns, reference, minShare, cluster, b)
    ensures a == b
  {
    hide Share;
    if a != b && Before(a, b) && Before(b, a) {
      BeforeIsTransitive(a, b, a);
      BeforeIsStrict(a);
    }
  }

  lemma {:induction false} NoShareNoLabel(turns: seq<Turn>, reference: seq<Segment>, cluster: string, name: string)
    requires name !in CallerLabels(reference)
    ensures Share(turns, reference, cluster, name) == 0.0
  {
    forall turn: Turn ensures Sum(UnderLabel(turn, name), reference) == 0.0 {
      NothingUnder(turn, reference, name);
    }
    AllZero(OfCluster(reference, cluster, name), turns);
  }

  lemma {:induction false} NothingUnder(turn: Turn, reference: seq<Segment>, name: string)
    requires name !in CallerLabels(reference)
    ensures Sum(UnderLabel(turn, name), reference) == 0.0
  {
    forall i | 0 <= i < |reference| ensures !IsLabel(reference[i], name) {
      assert HasLabel(reference[i]) ==> reference[i].speaker.value in CallerLabels(reference);
    }
    AllZero(UnderLabel(turn, name), reference);
  }

  lemma {:induction false} AllZero<T>(f: T -> real, xs: seq<T>)
    requires forall x :: x in xs ==> f(x) == 0.0
    ensures Sum(f, xs) == 0.0
  {
    if xs != [] {
      AllZero(f, xs[..|xs| - 1]);
    }
  }

  /** A cluster takes a caller label exactly when its largest label meets the floor. */
  lemma TakesALabelIff(turns: seq<Turn>, reference: seq<Segment>, minShare: real, waiting: seq<string>, mapping: map<string, string>,
                       cluster: string, name: string)
    requires IsMapping(turns, reference, minShare, waiting, mapping) && cluster in mapping && name in CallerLabels(reference)
    ensures mapping[cluster] == name <==> Takes(turns, reference, minShare, cluster, name)
  {
    hide Takes, CallerLabels, Clusters;
    if Unmatched(turns, reference, minShare, cluster) {
      var k :| 0 <= k < |waiting| && waiting[k] == cluster;
      assert mapping[cluster] == FreshName(FreshIndex(CallerLabels(reference), k));
      assert FreshName(FreshIndex(CallerLabels(reference), k)) !in CallerLabels(reference);
    }
  }

  /** Two clusters share a name only when both took the same caller label; a fresh name is nobody
      else's and no caller's. */
  lemma SharedNamesAreCallerLabels(turns: seq<Turn>, reference: seq<Segment>, minShare: real, waiting: seq<string>,
                                   mapping: map<string, string>, a: string, b: string)
    requires IsMapping(turns, reference, minShare, waiting, mapping) && a in mapping && b in mapping && a != b
    requires mapping[a] == mapping[b]
    ensures Takes(turns, reference, minShare, a, mapping[a]) && Takes(turns, reference, minShare, b, mapping[b])
    ensures mapping[a] in CallerLabels(reference)
  {
    hide Clusters, CallerLabels, Takes, NextFree, FreshName;
    NameOf(turns, reference, minShare, waiting, mapping, a);
    NameOf(turns, reference, minShare, waiting, mapping, b);
    if Unmatched(turns, reference, minShare, a) && Unmatched(turns, reference, minShare, b) {
      var i :| 0 <= i < |waiting| && waiting[i] == a;
      var j :| 0 <= j < |waiting| && waiting[j] == b;
      WaitingNamesDiffer(CallerLabels(reference), i, j);
    }
  }

  lemma WaitingNamesDiffer(labels: set<string>, i: nat, j: nat)
    requires i != j
    ensures FreshName(FreshIndex(labels, i)) != FreshName(FreshIndex(labels, j))
  {
    hide FreshIndex, FreshName;
    if i < j { FreshIndexGrows(labels, i, j); } else { FreshIndexGrows(labels, j, i); }
    if FreshName(FreshIndex(labels, i)) == FreshName(FreshIndex(labels, j)) {
      FreshNamesDiffer(FreshIndex(labels, i), FreshIndex(labels, j));
    }
  }

  /** A name is the caller label the cluster takes, or no caller label at all. */
  lemma NameOf(turns: seq<Turn>, reference: seq<Segment>, minShare: real, waiting: seq<string>, mapping: map<string, string>, cluster: string)
    requires IsMapping(turns, reference, minShare, waiting, mapping) && cluster in mapping
    ensures if Unmatched(turns, reference, minShare, cluster) then mapping[cluster] !in CallerLabels(reference)
      else mapping[cluster] in CallerLabels(reference) && Takes(turns, reference, minShare, cluster, mapping[cluster])
  {
    hide Clusters, CallerLabels, Share;
    if Unmatched(turns, reference, minShare, cluster) {
      var k :| 0 <= k < |waiting| && waiting[k] == cluster;
    } else {
      var name :| Takes(turns, reference, minShare, cluster, name);
      if name !in CallerLabels(reference) {
        NoShareNoLabel(turns, reference, cluster, name);
      }
    }
  }

  // ---- the order of turns and reference segments does not matter

  lemma SameShares(turns: seq<Turn>, reference: seq<Segment>, turns': seq<Turn>, reference': seq<Segment>, cluster: string)
    requires multiset(turns) == multiset(turns') && multiset(reference) == multiset(reference')
    ensures forall name :: Share(turns, reference, cluster, name) == Share(turns', reference', cluster, name)
    ensures LabelledTime(turns, reference, cluster) == LabelledTime(turns', reference', cluster)
    ensures SpeakingTime(turns, cluster) == SpeakingTime(turns', cluster)
  {
    hide Sum;
    forall name ensures Share(turns, reference, cluster, name) == Share(turns', reference', cluster, name) {
      forall turn: Turn ensures Sum(UnderLabel(turn, name), reference) == Sum(UnderLabel(turn, name), reference') {
        SumIgnoresOrder(UnderLabel(turn, name), reference, reference');
      }
      SumIgnoresOrder(OfCluster(reference, cluster, name), turns, turns');
      SumCongruent(OfCluster(reference, cluster, name), OfCluster(reference', cluster, name), turns');
    }
    forall turn: Turn ensures Sum(UnderAnyLabel(turn), reference) == Sum(UnderAnyLabel(turn), reference') {
      SumIgnoresOrder(UnderAnyLabel(turn), reference, reference');
    }
    SumIgnoresOrder(AllOfCluster(reference, cluster), turns, turns');
    SumCongruent(AllOfCluster(reference, cluster), AllOfCluster(reference', cluster), turns');
    SumIgnoresOrder(LengthIn(cluster), turns, turns');
  }

  lemma SameNames(turns: seq<Turn>, reference: seq<Segment>, turns': seq<Turn>, reference': seq<Segment>)
    requires multiset(turns) == multiset(turns') && multiset(reference) == multiset(reference')
    ensures Clusters(turns) <= Clusters(turns') && CallerLabels(reference) <= CallerLabels(reference')
  {
    forall cluster | cluster in Clusters(turns) ensures cluster in Clusters(turns') {
      var i :| 0 <= i < |turns| && turns[i].speaker == cluster;
      assert turns[i] in multiset(turns');
    }
    forall name | name in CallerLabels(reference) ensures name in CallerLabels(reference') {
      var i :| 0 <= i < |reference| && HasLabel(reference[i]) && reference[i].speaker.value == name;
      assert reference[i] in multiset(reference');
    }
  }

  lemma EarlierIsAsymmetric(turns: seq<Turn>, a: string, b: string)
    requires Earlier(turns, a, b)
    ensures !Earlier(turns, b, a)
  {
    if Before(a, b) && Before(b, a) {
      BeforeIsTransitive(a, b, a);
      BeforeIsStrict(a);
    }
  }

  /** There is one order of the waiting clusters. */
  lemma {:induction false} OneOrder(turns: seq<Turn>, a: seq<string>, b: seq<string>)
    requires InOrder(turns, a) && InOrder(turns, b)
    requires forall name :: name in a <==> name in b
    ensures a == b
  {
    HeadIsMember(a);
    HeadIsMember(b);
    if a != [] {
      hide Earlier;
      assert a[0] in b && b[0] in a;
      var i :| 0 <= i < |b| && b[i] == a[0];
      var j :| 0 <= j < |a| && a[j] == b[0];
      if a[0] != b[0] {
        EarlierIsAsymmetric(turns, a[0], b[0]);
      }
      TailNames(turns, a);
      TailNames(turns, b);
      OneOrder(turns, a[1..], b[1..]);
      assert a == [a[0]] + a[1..] && b == [b[0]] + b[1..];
    }
  }

  lemma HeadIsMember(a: seq<string>)
    ensures a == [] || a[0] in a
  {
  }

  lemma TailNames(turns: seq<Turn>, a: seq<string>)
    requires a != [] && InOrder(turns, a)
    ensures forall name :: name in a[1..] <==> name in a && name != a[0]
  {
    if a[0] in a[1..] {
      var i :| 1 <= i < |a| && a[i] == a[0];
      EarlierIsAsymmetric(turns, a[0], a[i]);
    }
  }

  lemma SameRule(turns: seq<Turn>, reference: seq<Segment>, turns': seq<Turn>, reference': seq<Segment>, minShare: real, cluster: string)
    requires multiset(turns) == multiset(turns') && multiset(reference) == multiset(reference')
    ensures forall name :: Takes(turns, reference, minShare, cluster, name) <==> Takes(turns', reference', minShare, cluster, name)
    ensures Unmatched(turns, reference, minShare, cluster) <==> Unmatched(turns', reference', minShare, cluster)
  {
    hide Share, LabelledTime, Clusters;
    SameShares(turns, reference, turns', reference', cluster);
    SameNames(turns, reference, turns', reference');
    SameNames(turns', reference', turns, reference);
  }

  /** The mapping is a function of what was said and labelled, not of the order it is listed in. */
  lemma MappingIgnoresOrder(turns: seq<Turn>, reference: seq<Segment>, turns': seq<Turn>, reference': seq<Segment>, minShare: real,
                            waiting: seq<string>, mapping: map<string, string>, waiting': seq<string>, mapping': map<string, string>)
    requires multiset(turns) == multiset(turns') && multiset(reference) == multiset(reference')
    requires IsMapping(turns, reference, minShare, waiting, mapping)
    requires IsMapping(turns', reference', minShare, waiting', mapping')
    ensures mapping == mapping'
  {
    hide Takes, Unmatched, SpeakingTime, Clusters, CallerLabels, FreshIndex, FreshName;
    SameNames(turns, reference, turns', reference');
    SameNames(turns', reference', turns, reference);
    assert Clusters(turns) == Clusters(turns') && CallerLabels(reference) == CallerLabels(reference');
    forall cluster
      ensures forall name :: Takes(turns, reference, minShare, cluster, name) <==> Takes(turns', reference', minShare, cluster, name)
      ensures Unmatched(turns, reference, minShare, cluster) <==> Unmatched(turns', reference', minShare, cluster)
      ensures SpeakingTime(turns, cluster) == SpeakingTime(turns', cluster)
    {
      SameRule(turns, reference, turns', reference', minShare, cluster);
      SameShares(turns, reference, turns', reference', cluster);
    }
    assert InOrder(turns, waiting');
    OneOrder(turns, waiting, waiting');
    forall cluster | cluster in mapping ensures mapping[cluster] == mapping'[cluster] {
      MatchedOrWaiting(turns, reference, minShare, cluster);
      if Unmatched(turns, reference, minShare, cluster) {
        var k :| 0 <= k < |waiting| && waiting[k] == cluster;
        assert waiting'[k] == cluster;
      } else {
        var name :| Takes(turns, reference, minShare, cluster, name);
        assert cluster in mapping' && Takes(turns', reference', minShare, cluster, name);
      }
    }
  }

  lemma MatchedOrWaiting(turns: seq<Turn>, reference: seq<Segment>, minShare: real, cluster: string)
    requires cluster in Clusters(turns)
    ensures Unmatched(turns, reference, minShare, cluster) || exists name :: Takes(turns, reference, minShare, cluster, name)
  {
  }
}
