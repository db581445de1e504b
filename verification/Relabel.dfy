/** src/vemsa/pipeline/diarize.py, relabel_turns: the loops that carry the renaming out. */
module Relabel {
  import opened Base
  import opened Models
  import opened Tallies
  import opened Renaming

  // ---- the sums

  function SpanEntries(turn: Turn, spans: seq<Segment>): seq<Entry<string>>
    requires AllLabelled(spans)
  {
    if spans == [] then []
    else
      var n := |spans| - 1;
      SpanEntries(turn, spans[..n])
        + if Overlap(turn, spans[n]) > 0.0 then [Entry(spans[n].speaker.value, Overlap(turn, spans[n]))] else []
  }

  function ClusterEntries(turns: seq<Turn>, spans: seq<Segment>, cluster: string): seq<Entry<string>>
    requires AllLabelled(spans)
  {
    if turns == [] then []
    else
      var n := |turns| - 1;
      ClusterEntries(turns[..n], spans, cluster)
        + if turns[n].speaker == cluster then SpanEntries(turns[n], spans) else []
  }

  predicate AllLabelled(spans: seq<Segment>) {
    forall i :: 0 <= i < |spans| ==> HasLabel(spans[i])
  }

  function Lengths(turns: seq<Turn>): seq<Entry<string>> {
    Map((turn: Turn) => Entry(turn.speaker, turn.end - turn.start), turns)
  }

  /** The two dicts after some turns: speaking time per cluster, and per cluster its overlap per label. */
  ghost predicate Summed(turns: seq<Turn>, spans: seq<Segment>, speaking: Tally<string>, overlaps: map<string, Tally<string>>)
    requires AllLabelled(spans)
  {
    && speaking == TallyOf(Lengths(turns))
    && overlaps.Keys == Clusters(turns)
    && forall cluster :: cluster in overlaps ==> overlaps[cluster] == TallyOf(ClusterEntries(turns, spans, cluster))
  }

  method AddSpans(turn: Turn, spans: seq<Segment>, before: Tally<string>, ghost entries: seq<Entry<string>>) returns (shares: Tally<string>)
    requires AllLabelled(spans) && before == TallyOf(entries)
    ensures shares == TallyOf(entries + SpanEntries(turn, spans))
  {
    shares := before;
    assert entries + [] == entries;
    for i := 0 to |spans|
      invariant shares == TallyOf(entries + SpanEntries(turn, spans[..i]))
    {
      var overlap := Overlap(turn, spans[i]);
      assert spans[..i + 1][..i] == spans[..i];
      ghost var sofar := SpanEntries(turn, spans[..i]);
      if overlap > 0.0 {
        var entry := Entry(spans[i].speaker.value, overlap);
        TallySnoc(entries + sofar, entry);
        assert entries + (sofar + [entry]) == (entries + sofar) + [entry];
        shares := Add(shares, spans[i].speaker.value, overlap);
      } else {
        assert sofar + [] == sofar;
      }
    }
    assert spans[..|spans|] == spans;
  }

  lemma {:induction false} SummedStep(turns: seq<Turn>, turn: Turn, spans: seq<Segment>, speaking: Tally<string>, overlaps: map<string, Tally<string>>,
                   shares: Tally<string>)
    requires AllLabelled(spans) && Summed(turns, spans, speaking, overlaps)
    requires shares == TallyOf(ClusterEntries(turns, spans, turn.speaker) + SpanEntries(turn, spans))
    ensures Summed(turns + [turn], spans, Add(speaking, turn.speaker, turn.end - turn.start), overlaps[turn.speaker := shares])
  {
    hide Clusters, SpanEntries, ClusterEntries, TallyOf;
    ClustersSnoc(turns, turn);
    TallySnoc(Lengths(turns), Entry(turn.speaker, turn.end - turn.start));
    assert Lengths(turns + [turn]) == Lengths(turns) + [Entry(turn.speaker, turn.end - turn.start)];
    forall cluster
      ensures ClusterEntries(turns + [turn], spans, cluster)
        == if turn.speaker == cluster then ClusterEntries(turns, spans, cluster) + SpanEntries(turn, spans)
           else ClusterEntries(turns, spans, cluster)
    {
      ClusterEntriesSnoc(turns, turn, spans, cluster);
    }
  }

  lemma {:induction false} ClusterEntriesSnoc(turns: seq<Turn>, turn: Turn, spans: seq<Segment>, cluster: string)
    requires AllLabelled(spans)
    ensures ClusterEntries(turns + [turn], spans, cluster)
      == if turn.speaker == cluster then ClusterEntries(turns, spans, cluster) + SpanEntries(turn, spans)
         else ClusterEntries(turns, spans, cluster)
  {
    assert (turns + [turn])[..|turns|] == turns;
  }

  lemma ClustersSnoc(turns: seq<Turn>, turn: Turn)
    ensures Clusters(turns + [turn]) == Clusters(turns) + {turn.speaker}
  {
    var all := turns + [turn];
    assert forall i :: 0 <= i < |turns| ==> all[i] == turns[i];
    assert all[|turns|] == turn;
    forall name | name in Clusters(turns) ensures name in Clusters(all) {
      var i :| 0 <= i < |turns| && turns[i].speaker == name;
      assert all[i].speaker == name;
    }
  }

  lemma {:induction false} UnknownClusterHasNoEntries(turns: seq<Turn>, spans: seq<Segment>, cluster: string)
    requires AllLabelled(spans) && cluster !in Clusters(turns)
    ensures ClusterEntries(turns, spans, cluster) == []
  {
    if turns != [] {
      var n := |turns| - 1;
      assert turns[n].speaker in Clusters(turns);
      forall i | 0 <= i < n ensures turns[..n][i].speaker != cluster {
        assert turns[i].speaker in Clusters(turns);
      }
      UnknownClusterHasNoEntries(turns[..n], spans, cluster);
    }
  }

  method SumUp(turns: seq<Turn>, spans: seq<Segment>) returns (speaking: Tally<string>, overlaps: map<string, Tally<string>>)
    requires AllLabelled(spans)
    ensures Summed(turns, spans, speaking, overlaps)
  {
    speaking, overlaps := Tally([], map[]), map[];
    for i := 0 to |turns|
      invariant Summed(turns[..i], spans, speaking, overlaps)
    {
      var turn := turns[i];
      if turn.speaker !in overlaps {
        UnknownClusterHasNoEntries(turns[..i], spans, turn.speaker);
      }
      var before := if turn.speaker in overlaps then overlaps[turn.speaker] else Tally([], map[]);
      var shares := AddSpans(turn, spans, before, ClusterEntries(turns[..i], spans, turn.speaker));
      SummedStep(turns[..i], turn, spans, speaking, overlaps, shares);
      assert turns[..i + 1] == turns[..i] + [turn];
      speaking := Add(speaking, turn.speaker, turn.end - turn.start);
      overlaps := overlaps[turn.speaker := shares];
    }
    assert turns[..|turns|] == turns;
  }

  // ---- what the sums mean

  lemma {:induction false} SpanEntriesTotal(turn: Turn, spans: seq<Segment>, name: string)
    requires AllLabelled(spans)
    ensures TotalOf(SpanEntries(turn, spans), name) == Sum(UnderLabel(turn, name), spans)
    ensures Sum(AmountOf(), SpanEntries(turn, spans)) == Sum(UnderAnyLabel(turn), spans)
    ensures forall e :: e in SpanEntries(turn, spans) ==> e.amount > 0.0
  {
    if spans != [] {
      var n := |spans| - 1;
      SpanEntriesTotal(turn, spans[..n], name);
      var entry := Entry(spans[n].speaker.value, Overlap(turn, spans[n]));
      SumSnoc(Under(name), SpanEntries(turn, spans[..n]), entry);
      SumSnoc(AmountOf(), SpanEntries(turn, spans[..n]), entry);
      assert SpanEntries(turn, spans[..n]) + [] == SpanEntries(turn, spans[..n]);
    }
  }

  lemma {:induction false} ClusterEntriesTotal(turns: seq<Turn>, spans: seq<Segment>, cluster: string, name: string)
    requires AllLabelled(spans)
    ensures TotalOf(ClusterEntries(turns, spans, cluster), name) == Share(turns, spans, cluster, name)
    ensures Sum(AmountOf(), ClusterEntries(turns, spans, cluster)) == LabelledTime(turns, spans, cluster)
    ensures forall e :: e in ClusterEntries(turns, spans, cluster) ==> e.amount > 0.0
  {
    hide SpanEntries;
    if turns != [] {
      var n := |turns| - 1;
      var before, more := ClusterEntries(turns[..n], spans, cluster), SpanEntries(turns[n], spans);
      ClusterEntriesTotal(turns[..n], spans, cluster, name);
      SpanEntriesTotal(turns[n], spans, name);
      SumAppend(Under(name), before, more);
      SumAppend(AmountOf(), before, more);
      assert before + [] == before;
    }
  }

  lemma {:induction false} LengthsTotal(turns: seq<Turn>, cluster: string)
    ensures TotalOf(Lengths(turns), cluster) == SpeakingTime(turns, cluster)
  {
    if turns != [] {
      var n := |turns| - 1;
      LengthsTotal(turns[..n], cluster);
      assert Lengths(turns)[..n] == Lengths(turns[..n]);
    }
  }

  lemma {:induction false} SumOfFiltered<T(!new)>(f: T -> real, p: T -> bool, xs: seq<T>)
    requires forall x :: !p(x) ==> f(x) == 0.0
    ensures Sum(f, Filter(p, xs)) == Sum(f, xs)
  {
    if xs != [] {
      hide Sum, Filter;
      var n := |xs| - 1;
      var front, x := xs[..n], xs[n];
      assert xs == front + [x];
      SumOfFiltered(f, p, front);
      FilterSnoc(p, front, x);
      SumSnoc(f, front, x);
      SumSnoc(f, Filter(p, front), x);
      assert Filter(p, front) + [] == Filter(p, front);
    }
  }

  /** Leaving the unlabelled reference segments out changes no sum. */
  lemma OnlyLabelledCount(turns: seq<Turn>, reference: seq<Segment>, cluster: string, name: string)
    ensures Share(turns, Filter(Labelled, reference), cluster, name) == Share(turns, reference, cluster, name)
    ensures LabelledTime(turns, Filter(Labelled, reference), cluster) == LabelledTime(turns, reference, cluster)
  {
    hide Sum, Filter;
    var spans := Filter(Labelled, reference);
    forall turn: Turn
      ensures Sum(UnderLabel(turn, name), spans) == Sum(UnderLabel(turn, name), reference)
      ensures Sum(UnderAnyLabel(turn), spans) == Sum(UnderAnyLabel(turn), reference)
    {
      SumOfFiltered(UnderLabel(turn, name), Labelled, reference);
      SumOfFiltered(UnderAnyLabel(turn), Labelled, reference);
    }
    SumCongruent(OfCluster(spans, cluster, name), OfCluster(reference, cluster, name), turns);
    SumCongruent(AllOfCluster(spans, cluster), AllOfCluster(reference, cluster), turns);
  }

  /** The dict of one cluster: the labels it overlaps, each with its share. */
  ghost predicate SharesOf(turns: seq<Turn>, reference: seq<Segment>, cluster: string, shares: Tally<string>) {
    && (forall name :: name in shares.keys <==> name in shares.sums)
    && (forall name :: name in shares.sums <==> Share(turns, reference, cluster, name) > 0.0)
    && (forall name :: name in shares.sums ==> shares.sums[name] == Share(turns, reference, cluster, name))
    && SumOfKeys(shares) == LabelledTime(turns, reference, cluster)
  }

  lemma SharesAreSums(turns: seq<Turn>, reference: seq<Segment>, spans: seq<Segment>, cluster: string)
    requires spans == Filter(Labelled, reference) && AllLabelled(spans)
    ensures SharesOf(turns, reference, cluster, TallyOf(ClusterEntries(turns, spans, cluster)))
  {
    hide ClusterEntries, Share, LabelledTime, TallyOf, TotalOf, SumOfKeys;
    var entries := ClusterEntries(turns, spans, cluster);
    TallyIsTotals(entries);
    SumsAddUp(entries);
    ClusterEntriesTotal(turns, spans, cluster, "");
    OnlyLabelledCount(turns, reference, cluster, "");
    forall name
      ensures TotalOf(entries, name) == Share(turns, reference, cluster, name)
      ensures Entered(entries, name) <==> Share(turns, reference, cluster, name) > 0.0
    {
      ClusterEntriesTotal(turns, spans, cluster, name);
      OnlyLabelledCount(turns, reference, cluster, name);
      PositiveWhenEntered(entries, name);
    }
  }

  lemma PositiveWhenEntered(entries: seq<Entry<string>>, name: string)
    requires forall e :: e in entries ==> e.amount > 0.0
    ensures Entered(entries, name) <==> TotalOf(entries, name) > 0.0
  {
    if Entered(entries, name) {
      var i :| 0 <= i < |entries| && entries[i].key == name;
      SumAtLeast(Under(name), entries, i);
    } else {
      NotEntered(entries, name);
    }
  }

  // ---- max(shares, key=lambda label: (shares[label], label))

  predicate Better(shares: Tally<string>, a: string, b: string) {
    Get(shares)(a) > Get(shares)(b) || (Get(shares)(a) == Get(shares)(b) && Before(b, a))
  }

  method BestLabel(shares: Tally<string>) returns (best: Option<string>)
    ensures best.None? <==> shares.keys == []
    ensures best.Some? ==> best.value in shares.keys
    ensures best.Some? ==> forall name :: name in shares.keys ==> name == best.value || Better(shares, best.value, name)
  {
    hide Before;
    best := None;
    for i := 0 to |shares.keys|
      invariant best.None? <==> i == 0
      invariant best.Some? ==> best.value in shares.keys
      invariant best.Some? ==> forall j :: 0 <= j < i ==> shares.keys[j] == best.value || Better(shares, best.value, shares.keys[j])
    {
      var name := shares.keys[i];
      if best.None? || Better(shares, name, best.value) {
        if best.Some? {
          forall j | 0 <= j < i ensures Better(shares, name, shares.keys[j]) {
            BetterIsTransitive(shares, name, best.value, shares.keys[j]);
          }
        }
        best := Some(name);
      } else {
        BeforeIsTotal(name, best.value);
      }
    }
  }

  lemma BetterIsTransitive(shares: Tally<string>, a: string, b: string, c: string)
    requires Better(shares, a, b) && (c == b || Better(shares, b, c))
    ensures Better(shares, a, c)
  {
    hide Before;
    if Before(c, b) && Before(b, a) {
      BeforeIsTransitive(c, b, a);
    }
  }

  /** The label a cluster takes, if any. */
  method LabelFor(shares: Tally<string>, minShare: real, ghost turns: seq<Turn>, ghost reference: seq<Segment>, ghost cluster: string)
    returns (name: Option<string>)
    requires SharesOf(turns, reference, cluster, shares)
    ensures name.Some? ==> Takes(turns, reference, minShare, cluster, name.value)
    ensures name.None? ==> forall other :: !Takes(turns, reference, minShare, cluster, other)
  {
    hide Share, LabelledTime, Before, SumOfKeys;
    var best := BestLabel(shares);
    if best.Some? {
      assert LargestLabel(turns, reference, cluster, best.value);
      forall other | LargestLabel(turns, reference, cluster, other) ensures other == best.value {
        if other != best.value && Before(other, best.value) && Before(best.value, other) {
          BeforeIsTransitive(other, best.value, other);
          BeforeIsStrict(other);
        }
      }
    }
    if best.Some? && Get(shares)(best.value) >= minShare * SumOfKeys(shares) {
      name := best;
    } else {
      name := None;
      assert shares.keys == [] ==> forall other :: other !in shares.keys;
    }
  }

  // ---- sorted(speaking_time, key=lambda name: (-speaking_time[name], name))

  predicate Ahead(speaking: Tally<string>, a: string, b: string) {
    Get(speaking)(a) > Get(speaking)(b) || (Get(speaking)(a) == Get(speaking)(b) && Before(a, b))
  }

  ghost predicate AllAhead(speaking: Tally<string>, names: seq<string>) {
    forall i, j :: 0 <= i < j < |names| ==> Ahead(speaking, names[i], names[j])
  }

  function InsertName(speaking: Tally<string>, name: string, sorted: seq<string>): seq<string> {
    if sorted == [] || Ahead(speaking, name, sorted[0]) then [name] + sorted
    else [sorted[0]] + InsertName(speaking, name, sorted[1..])
  }

  function SortNames(speaking: Tally<string>, names: seq<string>): seq<string> {
    if names == [] then [] else InsertName(speaking, names[0], SortNames(speaking, names[1..]))
  }

  lemma AheadIsTransitive(speaking: Tally<string>, a: string, b: string, c: string)
    requires Ahead(speaking, a, b) && Ahead(speaking, b, c)
    ensures Ahead(speaking, a, c)
  {
    hide Before;
    if Before(a, b) && Before(b, c) {
      BeforeIsTransitive(a, b, c);
    }
  }

  lemma {:induction false} InsertNameSorts(speaking: Tally<string>, name: string, sorted: seq<string>)
    requires AllAhead(speaking, sorted) && name !in sorted
    ensures AllAhead(speaking, InsertName(speaking, name, sorted))
    ensures forall other :: other in InsertName(speaking, name, sorted) <==> other == name || other in sorted
  {
    hide Ahead;
    if sorted == [] {
    } else if Ahead(speaking, name, sorted[0]) {
      forall j | 0 < j < |sorted| ensures Ahead(speaking, name, sorted[j]) {
        AheadIsTransitive(speaking, name, sorted[0], sorted[j]);
      }
    } else {
      OneIsAhead(speaking, name, sorted[0]);
      var rest := InsertName(speaking, name, sorted[1..]);
      InsertNameSorts(speaking, name, sorted[1..]);
      forall j | 0 <= j < |rest| ensures Ahead(speaking, sorted[0], rest[j]) {
        assert rest[j] in rest;
      }
      assert sorted == [sorted[0]] + sorted[1..];
    }
  }

  lemma OneIsAhead(speaking: Tally<string>, a: string, b: string)
    requires a != b
    ensures Ahead(speaking, a, b) || Ahead(speaking, b, a)
  {
    BeforeIsTotal(a, b);
  }

  lemma {:induction false} SortNamesSorts(speaking: Tally<string>, names: seq<string>)
    requires forall i, j :: 0 <= i < j < |names| ==> names[i] != names[j]
    ensures AllAhead(speaking, SortNames(speaking, names))
    ensures forall name :: name in SortNames(speaking, names) <==> name in names
  {
    if names != [] {
      SortNamesSorts(speaking, names[1..]);
      InsertNameSorts(speaking, names[0], SortNames(speaking, names[1..]));
      assert names == [names[0]] + names[1..];
    }
  }

  /** The clusters, longest-speaking first. */
  method SortClusters(speaking: Tally<string>, ghost turns: seq<Turn>) returns (order: seq<string>)
    requires speaking == TallyOf(Lengths(turns))
    ensures InOrder(turns, order)
    ensures forall name :: name in order <==> name in Clusters(turns)
  {
    hide Sum, Before, TallyOf, SortNames;
    order := SortNames(speaking, speaking.keys);
    TallyIsTotals(Lengths(turns));
    SortNamesSorts(speaking, speaking.keys);
    forall name ensures name in speaking.sums <==> name in Clusters(turns) {
    }
    forall i | 0 <= i < |order| ensures Get(speaking)(order[i]) == SpeakingTime(turns, order[i]) {
      assert order[i] in order;
      LengthsTotal(turns, order[i]);
    }
  }

  // ---- the mapping

  /** After the first `i` clusters: the matched ones are named, the others wait in order. */
  ghost predicate Sifted(turns: seq<Turn>, reference: seq<Segment>, minShare: real, order: seq<string>, i: nat,
                         mapping: map<string, string>, unmatched: seq<string>)
    requires i <= |order|
  {
    && (forall cluster :: cluster in mapping <==> cluster in order[..i] && !Unmatched(turns, reference, minShare, cluster))
    && (forall cluster :: cluster in mapping ==> Takes(turns, reference, minShare, cluster, mapping[cluster]))
    && (forall cluster :: cluster in unmatched <==> cluster in order[..i] && Unmatched(turns, reference, minShare, cluster))
    && InOrder(turns, unmatched)
  }

  lemma SiftOne(turns: seq<Turn>, reference: seq<Segment>, minShare: real, order: seq<string>, i: nat,
                mapping: map<string, string>, unmatched: seq<string>, name: Option<string>)
    requires i < |order| && order[i] in Clusters(turns) && InOrder(turns, order)
    requires Sifted(turns, reference, minShare, order, i, mapping, unmatched)
    requires name.Some? ==> Takes(turns, reference, minShare, order[i], name.value)
    requires name.None? ==> forall other :: !Takes(turns, reference, minShare, order[i], other)
    ensures if name.Some? then Sifted(turns, reference, minShare, order, i + 1, mapping[order[i] := name.value], unmatched)
      else Sifted(turns, reference, minShare, order, i + 1, mapping, unmatched + [order[i]])
  {
    hide Takes, Earlier, Clusters;
    var cluster := order[i];
    assert order[..i + 1] == order[..i] + [cluster];
    assert Unmatched(turns, reference, minShare, cluster) <==> name.None?;
    forall k | 0 <= k < |unmatched| ensures Earlier(turns, unmatched[k], cluster) {
      assert unmatched[k] in order[..i];
      var j :| 0 <= j < i && order[j] == unmatched[k];
    }
  }

  method MatchClusters(order: seq<string>, overlaps: map<string, Tally<string>>, minShare: real,
                       ghost turns: seq<Turn>, ghost reference: seq<Segment>)
    returns (mapping: map<string, string>, unmatched: seq<string>)
    requires InOrder(turns, order) && overlaps.Keys == Clusters(turns)
    requires forall name :: name in order <==> name in Clusters(turns)
    requires forall cluster :: cluster in overlaps ==> SharesOf(turns, reference, cluster, overlaps[cluster])
    ensures Sifted(turns, reference, minShare, order, |order|, mapping, unmatched)
  {
    hide Sifted, SharesOf, Takes, Clusters, InOrder;
    mapping, unmatched := map[], [];
    NothingSifted(turns, reference, minShare, order);
    for i := 0 to |order|
      invariant Sifted(turns, reference, minShare, order, i, mapping, unmatched)
    {
      var cluster := order[i];
      assert cluster in order;
      var name := LabelFor(overlaps[cluster], minShare, turns, reference, cluster);
      SiftOne(turns, reference, minShare, order, i, mapping, unmatched, name);
      if name.Some? {
        mapping := mapping[cluster := name.value];
      } else {
        unmatched := unmatched + [cluster];
      }
    }
  }

  lemma NothingSifted(turns: seq<Turn>, reference: seq<Segment>, minShare: real, order: seq<string>)
    ensures Sifted(turns, reference, minShare, order, 0, map[], [])
  {
  }

  /** The search for fresh names never goes back, and still finds each time the next free one. */
  method NameTheRest(labels: set<string>, unmatched: seq<string>) returns (given: map<string, string>)
    requires forall i, j :: 0 <= i < j < |unmatched| ==> unmatched[i] != unmatched[j]
    ensures forall cluster :: cluster in given <==> cluster in unmatched
    ensures forall k :: 0 <= k < |unmatched| ==> given[unmatched[k]] == FreshName(FreshIndex(labels, k))
  {
    hide FreshName, FreshIndex;
    given := map[];
    var taken, index := labels, 0;
    FirstFresh(labels);
    for k := 0 to |unmatched|
      invariant forall cluster :: cluster in given <==> cluster in unmatched[..k]
      invariant forall j :: 0 <= j < k ==> unmatched[j] in given && given[unmatched[j]] == FreshName(FreshIndex(labels, j))
      invariant labels <= taken && index == (if k == 0 then 0 else FreshIndex(labels, k - 1))
      invariant k > 0 ==> FreshName(index) in taken
      invariant OnlyLabelsFrom(labels, taken, k, index)
    {
      index := FindFree(labels, taken, k, index);
      OneMoreTaken(labels, taken, k, index);
      given := given[unmatched[k] := FreshName(index)];
      taken := taken + {FreshName(index)};
    }
  }

  /** Past the last name given out, only the caller's labels are in the way. */
  ghost predicate OnlyLabelsFrom(labels: set<string>, taken: set<string>, k: nat, index: nat) {
    forall n :: Fresher(k, index, n) && FreshName(n) in taken ==> FreshName(n) in labels
  }

  method FindFree(labels: set<string>, taken: set<string>, ghost k: nat, start: nat) returns (index: nat)
    requires labels <= taken && start == (if k == 0 then 0 else FreshIndex(labels, k - 1))
    requires k > 0 ==> FreshName(start) in taken
    requires OnlyLabelsFrom(labels, taken, k, start)
    ensures index == FreshIndex(labels, k)
  {
    hide FreshName, FreshIndex;
    ghost var target := FreshIndex(labels, k);
    FirstFresh(labels);
    if k > 0 {
      FreshIndexNext(labels, k);
    }
    assert Fresher(k, start, target) && FreshName(target) !in taken;
    index := start;
    while FreshName(index) in taken
      invariant start <= index <= target
      decreases target - index
    {
      index := index + 1;
    }
  }

  lemma OneMoreTaken(labels: set<string>, taken: set<string>, k: nat, index: nat)
    requires index == FreshIndex(labels, k)
    requires OnlyLabelsFrom(labels, taken, k, if k == 0 then 0 else FreshIndex(labels, k - 1))
    ensures OnlyLabelsFrom(labels, taken + {FreshName(index)}, k + 1, index)
  {
    hide FreshName, FreshIndex;
    FirstFresh(labels);
    if k > 0 {
      FreshIndexNext(labels, k);
    }
    forall n | Fresher(k + 1, index, n) && FreshName(n) in taken + {FreshName(index)} ensures FreshName(n) in labels {
      if FreshName(n) == FreshName(index) {
        FreshNamesDiffer(n, index);
      }
      assert Fresher(k, if k == 0 then 0 else FreshIndex(labels, k - 1), n);
    }
  }

  predicate Fresher(k: nat, index: nat, n: nat) {
    if k == 0 then n >= index else n > index
  }

  lemma FirstFresh(labels: set<string>)
    ensures FreshIndex(labels, 0) == NextFree(labels, 0)
  {
  }

  lemma SiftedNamesAreLabels(turns: seq<Turn>, reference: seq<Segment>, minShare: real, order: seq<string>,
                             mapping: map<string, string>, unmatched: seq<string>)
    requires Sifted(turns, reference, minShare, order, |order|, mapping, unmatched)
    ensures mapping.Values <= CallerLabels(reference)
  {
    hide Share, CallerLabels;
    forall name | name in mapping.Values ensures name in CallerLabels(reference) {
      var cluster :| cluster in mapping && mapping[cluster] == name;
      if name !in CallerLabels(reference) {
        NoShareNoLabel(turns, reference, cluster, name);
      }
    }
  }

  lemma SiftedIsMapping(turns: seq<Turn>, reference: seq<Segment>, minShare: real, order: seq<string>,
                        mapping: map<string, string>, unmatched: seq<string>, given: map<string, string>)
    requires forall name :: name in order <==> name in Clusters(turns)
    requires Sifted(turns, reference, minShare, order, |order|, mapping, unmatched)
    requires forall cluster :: cluster in given <==> cluster in unmatched
    requires forall k :: 0 <= k < |unmatched| ==> given[unmatched[k]] == FreshName(FreshIndex(CallerLabels(reference), k))
    ensures IsMapping(turns, reference, minShare, unmatched, mapping + given)
    ensures (mapping + given).Keys == Clusters(turns)
  {
    hide Takes, Clusters, CallerLabels, FreshIndex, FreshName, InOrder;
    assert order[..|order|] == order;
    forall cluster, name | cluster in mapping + given && Takes(turns, reference, minShare, cluster, name)
      ensures (mapping + given)[cluster] == name
    {
      TakesAtMostOne(turns, reference, minShare, cluster, name, mapping[cluster]);
    }
    assert forall k :: 0 <= k < |unmatched| ==> unmatched[k] in given;
    assert (mapping + given).Keys == Clusters(turns);
  }

  // ---- relabel_turns

  ghost predicate Renames(turns: seq<Turn>, mapping: map<string, string>, renamed: seq<Turn>) {
    && |renamed| == |turns|
    && forall i :: 0 <= i < |turns| ==>
      turns[i].speaker in mapping && renamed[i] == Turn(turns[i].start, turns[i].end, mapping[turns[i].speaker])
  }

  method RelabelTurns(turns: seq<Turn>, reference: seq<Segment>, minShare: real)
    returns (renamed: seq<Turn>, ghost waiting: seq<string>, ghost mapping: map<string, string>)
    ensures CallerLabels(reference) == {} || turns == [] ==> renamed == turns
    ensures CallerLabels(reference) != {} && turns != [] ==>
      IsMapping(turns, reference, minShare, waiting, mapping) && Renames(turns, mapping, renamed)
  {
    hide IsMapping, CallerLabels;
    var spans := Filter(Labelled, reference);
    LabelledSpans(reference, spans);
    if spans == [] || turns == [] {
      return turns, [], map[];
    }
    var names;
    names, waiting := MapClusters(turns, reference, spans, minShare);
    mapping := names;
    renamed := [];
    for i := 0 to |turns|
      invariant |renamed| == i
      invariant forall j :: 0 <= j < i ==>
        turns[j].speaker in names && renamed[j] == Turn(turns[j].start, turns[j].end, names[turns[j].speaker])
    {
      assert turns[i].speaker in Clusters(turns);
      renamed := renamed + [Turn(turns[i].start, turns[i].end, names[turns[i].speaker])];
    }
  }

  method MapClusters(turns: seq<Turn>, ghost reference: seq<Segment>, spans: seq<Segment>, minShare: real)
    returns (mapping: map<string, string>, ghost waiting: seq<string>)
    requires spans == Filter(Labelled, reference) && AllLabelled(spans) && CallerLabels(reference) == CallerLabels(spans)
    ensures IsMapping(turns, reference, minShare, waiting, mapping) && mapping.Keys == Clusters(turns)
  {
    hide Summed, SharesOf, Sifted, IsMapping, FreshIndex, FreshName, InOrder, CallerLabels, Clusters;
    var speaking, overlaps := SumUp(turns, spans);
    SumsAreShares(turns, reference, spans, speaking, overlaps);
    var order := SortClusters(speaking, turns);
    var named, unmatched := MatchClusters(order, overlaps, minShare, turns, reference);
    SiftedNamesAreLabels(turns, reference, minShare, order, named, unmatched);
    assert CallerLabels(spans) + named.Values == CallerLabels(reference);
    WaitingAreDistinct(turns, reference, minShare, order, named, unmatched);
    var given := NameTheRest(CallerLabels(spans) + named.Values, unmatched);
    SiftedIsMapping(turns, reference, minShare, order, named, unmatched, given);
    mapping, waiting := named + given, unmatched;
  }

  lemma {:induction false} LabelledSpans(reference: seq<Segment>, spans: seq<Segment>)
    requires spans == Filter(Labelled, reference)
    ensures AllLabelled(spans)
    ensures CallerLabels(reference) == CallerLabels(spans)
    ensures spans == [] <==> CallerLabels(reference) == {}
  {
    FilterMembers(Labelled, reference);
    forall i | 0 <= i < |spans| ensures HasLabel(spans[i]) && spans[i].speaker.value in CallerLabels(reference) {
      assert spans[i] in spans;
    }
    forall i | 0 <= i < |reference| && HasLabel(reference[i]) ensures reference[i].speaker.value in CallerLabels(spans) {
      assert reference[i] in spans;
      var k :| 0 <= k < |spans| && spans[k] == reference[i];
    }
    assert CallerLabels(reference) == CallerLabels(spans);
    if spans != [] {
      assert spans[0].speaker.value in CallerLabels(spans);
    }
  }

  lemma SumsAreShares(turns: seq<Turn>, reference: seq<Segment>, spans: seq<Segment>, speaking: Tally<string>,
                      overlaps: map<string, Tally<string>>)
    requires spans == Filter(Labelled, reference) && AllLabelled(spans) && Summed(turns, spans, speaking, overlaps)
    ensures speaking == TallyOf(Lengths(turns)) && overlaps.Keys == Clusters(turns)
    ensures forall cluster :: cluster in overlaps ==> SharesOf(turns, reference, cluster, overlaps[cluster])
  {
    hide SharesOf, ClusterEntries;
    forall cluster | cluster in overlaps ensures SharesOf(turns, reference, cluster, overlaps[cluster]) {
      SharesAreSums(turns, reference, spans, cluster);
    }
  }

  lemma WaitingAreDistinct(turns: seq<Turn>, reference: seq<Segment>, minShare: real, order: seq<string>,
                           mapping: map<string, string>, names: seq<string>)
    requires Sifted(turns, reference, minShare, order, |order|, mapping, names)
    ensures forall i, j :: 0 <= i < j < |names| ==> names[i] != names[j]
  {
    hide Earlier, Takes, Unmatched;
    forall i, j | 0 <= i < j < |names| ensures names[i] != names[j] {
      EarlierIsAsymmetric(turns, names[i], names[j]);
    }
  }
}
