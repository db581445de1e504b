/** A dict of running sums in insertion order, as the pipeline keeps them for speakers:
    `totals[key] = totals.get(key, 0.0) + amount`. Adding up entries one by one gives every key the
    plain sum of its entries, whatever the order, and lists the keys by their first entry. */
module Tallies {
  import opened Base

  datatype Tally<K> = Tally(keys: seq<K>, sums: map<K, real>)

  datatype Entry<K> = Entry(key: K, amount: real)

  function Add<K(==)>(tally: Tally<K>, key: K, amount: real): Tally<K> {
    if key in tally.sums then Tally(tally.keys, tally.sums[key := tally.sums[key] + amount])
    else Tally(tally.keys + [key], tally.sums[key := amount])
  }

  function Get<K(==)>(tally: Tally<K>): K -> real {
    (key: K) => if key in tally.sums then tally.sums[key] else 0.0
  }

  function TallyOf<K(==)>(entries: seq<Entry<K>>): Tally<K> {
    if entries == [] then Tally([], map[])
    else
      var n := |entries| - 1;
      Add(TallyOf(entries[..n]), entries[n].key, entries[n].amount)
  }

  // ---- what a tally means

  function Sum<T>(f: T -> real, xs: seq<T>): real {
    if xs == [] then 0.0 else Sum(f, xs[..|xs| - 1]) + f(xs[|xs| - 1])
  }

  function Under<K(==)>(key: K): Entry<K> -> real {
    (entry: Entry<K>) => if entry.key == key then entry.amount else 0.0
  }

  /** The amounts entered under one key. */
  function TotalOf<K(==)>(entries: seq<Entry<K>>, key: K): real {
    Sum(Under(key), entries)
  }

  ghost predicate Entered<K>(entries: seq<Entry<K>>, key: K) {
    exists i :: 0 <= i < |entries| && entries[i].key == key
  }

  /** The keys are those entered, once each, and every sum is the key's total. */
  ghost predicate Totals<K(!new)>(entries: seq<Entry<K>>, tally: Tally<K>) {
    && (forall i, j :: 0 <= i < j < |tally.keys| ==> tally.keys[i] != tally.keys[j])
    && (forall key :: key in tally.keys <==> key in tally.sums)
    && (forall key :: key in tally.sums <==> Entered(entries, key))
    && (forall key :: key in tally.sums ==> tally.sums[key] == TotalOf(entries, key))
  }

  lemma EnteredSnoc<K>(entries: seq<Entry<K>>, entry: Entry<K>, key: K)
    ensures Entered(entries + [entry], key) <==> Entered(entries, key) || key == entry.key
  {
    var all := entries + [entry];
    assert all[|entries|] == entry;
    if Entered(entries, key) {
      var i :| 0 <= i < |entries| && entries[i].key == key;
      assert all[i].key == key;
    }
  }

  lemma SumSnoc<T>(f: T -> real, xs: seq<T>, x: T)
    ensures Sum(f, xs + [x]) == Sum(f, xs) + f(x)
  {
    assert (xs + [x])[..|xs|] == xs;
  }

  lemma TallySnoc<K>(entries: seq<Entry<K>>, entry: Entry<K>)
    ensures TallyOf(entries + [entry]) == Add(TallyOf(entries), entry.key, entry.amount)
  {
    assert (entries + [entry])[..|entries|] == entries;
  }

  lemma {:induction false} NotEntered<K>(entries: seq<Entry<K>>, key: K)
    requires !Entered(entries, key)
    ensures TotalOf(entries, key) == 0.0
  {
    if entries != [] {
      var n := |entries| - 1;
      assert entries[n].key != key;
      assert forall i :: 0 <= i < n ==> entries[..n][i] == entries[i];
      NotEntered(entries[..n], key);
    }
  }

  lemma {:induction false} TallyIsTotals<K(!new)>(entries: seq<Entry<K>>)
    ensures Totals(entries, TallyOf(entries))
  {
    if entries != [] {
      var n := |entries| - 1;
      var before, entry := entries[..n], entries[n];
      TallyIsTotals(before);
      assert entries == before + [entry];
      forall key
        ensures Entered(entries, key) <==> Entered(before, key) || key == entry.key
        ensures TotalOf(entries, key) == TotalOf(before, key) + if entry.key == key then entry.amount else 0.0
      {
        EnteredSnoc(before, entry, key);
      }
      if !Entered(before, entry.key) {
        NotEntered(before, entry.key);
      }
    }
  }

  // ---- the order does not matter to a sum

  lemma {:induction false} SumAppend<T>(f: T -> real, a: seq<T>, b: seq<T>)
    ensures Sum(f, a + b) == Sum(f, a) + Sum(f, b)
  {
    if b == [] {
      assert a + b == a;
    } else {
      var n := |b| - 1;
      assert (a + b)[..|a| + n] == a + b[..n];
      SumAppend(f, a, b[..n]);
    }
  }

  lemma SumWithout<T>(f: T -> real, b: seq<T>, i: int)
    requires 0 <= i < |b|
    ensures Sum(f, b) == Sum(f, b[..i] + b[i + 1..]) + f(b[i])
    ensures multiset(b[..i] + b[i + 1..]) == multiset(b) - multiset{b[i]}
  {
    hide Sum;
    assert b == (b[..i] + [b[i]]) + b[i + 1..];
    SumAppend(f, b[..i] + [b[i]], b[i + 1..]);
    SumAppend(f, b[..i], b[i + 1..]);
    SumSnoc(f, b[..i], b[i]);
  }

  /** Two lists of the same elements have the same sum. */
  lemma {:induction false} SumIgnoresOrder<T>(f: T -> real, a: seq<T>, b: seq<T>)
    requires multiset(a) == multiset(b)
    ensures Sum(f, a) == Sum(f, b)
    decreases |a|
  {
    hide Sum;
    if a == [] {
      assert multiset(b) == multiset{};
      assert b == [];
    } else {
      var n := |a| - 1;
      var before, last := a[..n], a[n];
      assert a == before + [last];
      assert last in multiset(b);
      var i :| 0 <= i < |b| && b[i] == last;
      SumWithout(f, b, i);
      SumSnoc(f, before, last);
      SumIgnoresOrder(f, before, b[..i] + b[i + 1..]);
    }
  }

  lemma {:induction false} SumCongruent<T>(f: T -> real, g: T -> real, xs: seq<T>)
    requires forall x :: x in xs ==> f(x) == g(x)
    ensures Sum(f, xs) == Sum(g, xs)
  {
    if xs != [] {
      SumCongruent(f, g, xs[..|xs| - 1]);
    }
  }

  lemma {:induction false} SumNotNegative<T>(f: T -> real, xs: seq<T>)
    requires forall x :: x in xs ==> f(x) >= 0.0
    ensures Sum(f, xs) >= 0.0
  {
    if xs != [] {
      SumNotNegative(f, xs[..|xs| - 1]);
    }
  }

  lemma {:induction false} SumAtLeast<T>(f: T -> real, xs: seq<T>, i: int)
    requires 0 <= i < |xs| && forall x :: x in xs ==> f(x) >= 0.0
    ensures Sum(f, xs) >= f(xs[i])
  {
    var n := |xs| - 1;
    if i < n {
      SumAtLeast(f, xs[..n], i);
    } else {
      SumNotNegative(f, xs[..n]);
    }
  }

  // ---- sum(tally.values())

  function SumOfKeys<K(==)>(tally: Tally<K>): real {
    Sum(Get(tally), tally.keys)
  }

  function AmountOf<K>(): Entry<K> -> real {
    (entry: Entry<K>) => entry.amount
  }

  lemma AddToKeys<K>(tally: Tally<K>, key: K, amount: real)
    requires forall i, j :: 0 <= i < j < |tally.keys| ==> tally.keys[i] != tally.keys[j]
    requires forall k :: k in tally.keys <==> k in tally.sums
    ensures SumOfKeys(Add(tally, key, amount)) == SumOfKeys(tally) + amount
  {
    hide Sum;
    var before, after := Get(tally), Get(Add(tally, key, amount));
    if key in tally.sums {
      var i :| 0 <= i < |tally.keys| && tally.keys[i] == key;
      var others := tally.keys[..i] + tally.keys[i + 1..];
      SumWithout(before, tally.keys, i);
      SumWithout(after, tally.keys, i);
      SumCongruent(before, after, others);
    } else {
      SumSnoc(after, tally.keys, key);
      SumCongruent(before, after, tally.keys);
    }
  }

  /** The sums add up to everything that was entered. */
  lemma {:induction false} SumsAddUp<K(!new)>(entries: seq<Entry<K>>)
    ensures SumOfKeys(TallyOf(entries)) == Sum(AmountOf(), entries)
  {
    if entries != [] {
      var n := |entries| - 1;
      SumsAddUp(entries[..n]);
      TallyIsTotals(entries[..n]);
      AddToKeys(TallyOf(entries[..n]), entries[n].key, entries[n].amount);
    }
  }
}
