/** Small vocabulary shared by every module: option and result types, sequences filtered, mapped and
    flattened, exact arithmetic on timestamps, and the stable sort behind every `sorted` call, with
    what Python promises of it: the same elements in order, those of equal keys as they came. */
module Base {
  datatype Option<+T> = None | Some(value: T)

  datatype Result<+T, +E> = Ok(value: T) | Err(error: E)

  function Min(a: real, b: real): real {
    if b < a then b else a
  }

  function Max(a: real, b: real): real {
    if b > a then b else a
  }

  function Abs(a: real): real {
    if a < 0.0 then -a else a
  }

  // ---- sequences

  function Flatten<T>(xss: seq<seq<T>>): seq<T> {
    if xss == [] then [] else xss[0] + Flatten(xss[1..])
  }

  function Map<S, T>(f: S -> T, xs: seq<S>): (ys: seq<T>)
    ensures |ys| == |xs|
    ensures forall i :: 0 <= i < |xs| ==> ys[i] == f(xs[i])
  {
    seq(|xs|, i requires 0 <= i < |xs| => f(xs[i]))
  }

  lemma MapAppend<S, T>(f: S -> T, a: seq<S>, b: seq<S>)
    ensures Map(f, a + b) == Map(f, a) + Map(f, b)
  {
  }

  lemma MapSlice<S, T>(f: S -> T, a: seq<S>, i: int, j: int)
    requires 0 <= i <= j <= |a|
    ensures Map(f, a[i..j]) == Map(f, a)[i..j]
  {
  }

  function Filter<T>(p: T -> bool, xs: seq<T>): seq<T> {
    if xs == [] then []
    else (if p(xs[0]) then [xs[0]] else []) + Filter(p, xs[1..])
  }

  lemma Associative<T>(a: seq<T>, b: seq<T>, c: seq<T>)
    ensures a + (b + c) == (a + b) + c
  {
  }

  lemma SliceOfSlice<T>(s: seq<T>, lo: int, hi: int, i: int, j: int)
    requires 0 <= lo <= hi <= |s| && 0 <= i <= j <= hi - lo
    ensures s[lo..hi][i..j] == s[lo + i..lo + j]
  {
    var a, b := s[lo..hi][i..j], s[lo + i..lo + j];
    forall k | 0 <= k < |a| ensures a[k] == b[k] {
      assert a[k] == s[lo..hi][i + k];
    }
  }

  lemma FlattenCons<T>(xs: seq<T>, xss: seq<seq<T>>)
    ensures Flatten([xs] + xss) == xs + Flatten(xss)
  {
    assert ([xs] + xss)[1..] == xss;
  }

  lemma {:induction false} FlattenAppend<T>(xss: seq<seq<T>>, yss: seq<seq<T>>)
    ensures Flatten(xss + yss) == Flatten(xss) + Flatten(yss)
  {
    if xss == [] {
      assert xss + yss == yss;
    } else {
      hide Flatten;
      var xs, rest := xss[0], xss[1..];
      FlattenAppend(rest, yss);
      FlattenCons(xs, rest);
      FlattenCons(xs, rest + yss);
      assert xss == [xs] + rest;
      Associative([xs], rest, yss);
      Associative(xs, Flatten(rest), Flatten(yss));
    }
  }

  lemma FlattenSingle<T>(xs: seq<T>)
    ensures Flatten([xs]) == xs
  {
    assert [xs][1..] == [];
  }

  /** Appending one more list at the end of a list of lists. */
  lemma FlattenSnoc<T>(xss: seq<seq<T>>, xs: seq<T>)
    ensures Flatten(xss + [xs]) == Flatten(xss) + xs
  {
    FlattenAppend(xss, [xs]);
    FlattenSingle(xs);
  }

  lemma FlattenSplit<T>(xss: seq<seq<T>>, k: int)
    requires 0 <= k <= |xss|
    ensures Flatten(xss) == Flatten(xss[..k]) + Flatten(xss[k..])
  {
    hide Flatten;
    var a, b := xss[..k], xss[k..];
    assert xss == a + b;
    FlattenAppend(a, b);
  }

  lemma FlattenNext<T>(xss: seq<seq<T>>, g: int)
    requires 0 <= g < |xss|
    ensures Flatten(xss[..g + 1]) == Flatten(xss[..g]) + xss[g]
  {
    hide Flatten;
    var a := xss[..g];
    assert xss[..g + 1] == a + [xss[g]];
    FlattenSnoc(a, xss[g]);
  }

  /** The lists before position `g`, the one there, and the ones after it. */
  lemma FlattenAt<T>(xss: seq<seq<T>>, g: int)
    requires 0 <= g < |xss|
    ensures Flatten(xss[..g + 1]) == Flatten(xss[..g]) + xss[g]
    ensures Flatten(xss) == Flatten(xss[..g + 1]) + Flatten(xss[g + 1..])
  {
    hide Flatten;
    FlattenNext(xss, g);
    FlattenSplit(xss, g + 1);
  }

  /** Appending one more element to the last of the lists. */
  lemma FlattenExtendLast<T>(xss: seq<seq<T>>, x: T)
    requires xss != []
    ensures Flatten(xss[|xss| - 1 := xss[|xss| - 1] + [x]]) == Flatten(xss) + [x]
  {
    var n := |xss| - 1;
    FlattenSnoc(xss[..n], xss[n]);
    FlattenSnoc(xss[..n], xss[n] + [x]);
    assert xss == xss[..n] + [xss[n]];
    assert xss[n := xss[n] + [x]] == xss[..n] + [xss[n] + [x]];
  }

  lemma FilterCons<T>(p: T -> bool, x: T, xs: seq<T>)
    ensures Filter(p, [x] + xs) == (if p(x) then [x] else []) + Filter(p, xs)
  {
    assert ([x] + xs)[1..] == xs;
  }

  lemma {:induction false} FilterAppend<T>(p: T -> bool, xs: seq<T>, ys: seq<T>)
    ensures Filter(p, xs + ys) == Filter(p, xs) + Filter(p, ys)
  {
    if xs == [] {
      assert xs + ys == ys;
    } else {
      hide Filter;
      var x, rest := xs[0], xs[1..];
      FilterAppend(p, rest, ys);
      FilterCons(p, x, rest);
      FilterCons(p, x, rest + ys);
      assert xs == [x] + rest;
      Associative([x], rest, ys);
      Associative(if p(x) then [x] else [], Filter(p, rest), Filter(p, ys));
    }
  }

  lemma FilterSnoc<T>(p: T -> bool, xs: seq<T>, x: T)
    ensures Filter(p, xs + [x]) == Filter(p, xs) + (if p(x) then [x] else [])
  {
    FilterAppend(p, xs, [x]);
    assert [x][1..] == [];
  }

  lemma {:induction false} FilterMembers<T>(p: T -> bool, xs: seq<T>)
    ensures forall x :: x in Filter(p, xs) <==> x in xs && p(x)
  {
    if xs != [] {
      FilterMembers(p, xs[1..]);
      forall x ensures x in Filter(p, xs) <==> x in xs && p(x) {
        assert x in xs <==> x == xs[0] || x in xs[1..];
      }
    }
  }

  // ---- the stable sort behind `sorted(..., key=...)`

  ghost predicate SortedBy<T>(key: T -> real, xs: seq<T>) {
    forall i, j :: 0 <= i < j < |xs| ==> key(xs[i]) <= key(xs[j])
  }

  /** `x` goes before the first element whose key is not smaller: elements with
      equal keys keep the order they were inserted from, last to first. */
  function Insert<T>(key: T -> real, x: T, xs: seq<T>): seq<T> {
    if xs == [] || key(x) <= key(xs[0]) then [x] + xs
    else [xs[0]] + Insert(key, x, xs[1..])
  }

  function StableSort<T>(key: T -> real, xs: seq<T>): seq<T> {
    if xs == [] then [] else Insert(key, xs[0], StableSort(key, xs[1..]))
  }

  lemma {:induction false} InsertPermutes<T>(key: T -> real, x: T, xs: seq<T>)
    ensures multiset(Insert(key, x, xs)) == multiset{x} + multiset(xs)
  {
    if xs == [] || key(x) <= key(xs[0]) {
    } else {
      InsertPermutes(key, x, xs[1..]);
      assert xs == [xs[0]] + xs[1..];
    }
  }

  lemma {:induction false} InsertSorts<T>(key: T -> real, x: T, xs: seq<T>)
    requires SortedBy(key, xs)
    ensures SortedBy(key, Insert(key, x, xs))
  {
    if xs == [] || key(x) <= key(xs[0]) {
    } else {
      InsertSorts(key, x, xs[1..]);
      InsertPermutes(key, x, xs[1..]);
      var rest := Insert(key, x, xs[1..]);
      forall j | 0 <= j < |rest| ensures key(xs[0]) <= key(rest[j]) {
        assert rest[j] in multiset(rest);
        assert rest[j] == x || rest[j] in xs[1..];
      }
    }
  }

  /** What `sorted` promises: an ordered rearrangement. */
  lemma {:induction false} StableSortSorts<T>(key: T -> real, xs: seq<T>)
    ensures SortedBy(key, StableSort(key, xs))
    ensures multiset(StableSort(key, xs)) == multiset(xs)
    ensures |StableSort(key, xs)| == |xs|
  {
    if xs != [] {
      StableSortSorts(key, xs[1..]);
      InsertSorts(key, xs[0], StableSort(key, xs[1..]));
      InsertPermutes(key, xs[0], StableSort(key, xs[1..]));
      assert xs == [xs[0]] + xs[1..];
    }
    assert |multiset(StableSort(key, xs))| == |StableSort(key, xs)|;
    assert |multiset(xs)| == |xs|;
  }

  lemma {:induction false} InsertIsStable<T>(key: T -> real, x: T, xs: seq<T>, k: real)
    requires SortedBy(key, xs)
    ensures Filter(y => key(y) == k, Insert(key, x, xs))
         == (if key(x) == k then [x] else []) + Filter(y => key(y) == k, xs)
  {
    var p := y => key(y) == k;
    if xs == [] || key(x) <= key(xs[0]) {
      assert ([x] + xs)[1..] == xs;
    } else {
      InsertIsStable(key, x, xs[1..], k);
      assert ([xs[0]] + Insert(key, x, xs[1..]))[1..] == Insert(key, x, xs[1..]);
      if key(x) == k {
        assert Filter(p, xs) == Filter(p, xs[1..]);
      }
    }
  }

  function WithKey<T>(key: T -> real, xs: seq<T>, k: real): seq<T> {
    Filter(y => key(y) == k, xs)
  }

  /** Elements with one key come out in the order they went in. */
  lemma {:induction false} StableSortIsStable<T>(key: T -> real, xs: seq<T>, k: real)
    ensures WithKey(key, StableSort(key, xs), k) == WithKey(key, xs, k)
  {
    if xs != [] {
      StableSortIsStable(key, xs[1..], k);
      StableSortSorts(key, xs[1..]);
      InsertIsStable(key, xs[0], StableSort(key, xs[1..]), k);
    }
  }

  /** What Python promises of sorted(): the same elements by increasing key, those of one key in their
      old order. */
  ghost predicate StablySorted<T>(key: T -> real, xs: seq<T>, ys: seq<T>) {
    && multiset(ys) == multiset(xs) && SortedBy(key, ys)
    && forall k :: WithKey(key, ys, k) == WithKey(key, xs, k)
  }

  lemma {:induction false} StableSortIsSorted<T>(key: T -> real, xs: seq<T>)
    ensures StablySorted(key, xs, StableSort(key, xs))
  {
    StableSortSorts(key, xs);
    forall k ensures WithKey(key, StableSort(key, xs), k) == WithKey(key, xs, k) {
      StableSortIsStable(key, xs, k);
    }
  }

  /** Sorting what is already in order changes nothing. */
  lemma {:induction false} StableSortOfSorted<T>(key: T -> real, xs: seq<T>)
    requires SortedBy(key, xs)
    ensures StableSort(key, xs) == xs
  {
    if xs != [] {
      StableSortOfSorted(key, xs[1..]);
    }
  }

  // ---- sorted() of distinct numbers

  const Itself: real -> real := (t: real) => t

  lemma SortsStrictly(keys: seq<real>, times: seq<real>)
    requires forall i, j :: 0 <= i < j < |keys| ==> keys[i] != keys[j]
    requires times == StableSort(Itself, keys)
    ensures forall i, j :: 0 <= i < j < |times| ==> times[i] < times[j]
    ensures forall t :: t in times <==> t in keys
  {
    StableSortSorts(Itself, keys);
    forall t ensures t in times <==> t in keys {
      assert t in multiset(times) <==> t in multiset(keys);
    }
    forall i, j | 0 <= i < j < |times| ensures times[i] < times[j] {
      assert Itself(times[i]) <= Itself(times[j]);
      OccursOnce(keys, times[i]);
      if times[i] == times[j] {
        OccursTwice(times, i, j);
      }
    }
  }

  lemma OccursTwice(times: seq<real>, i: int, j: int)
    requires 0 <= i < j < |times| && times[i] == times[j]
    ensures multiset(times)[times[i]] >= 2
  {
    var a, b := times[..j], times[j..];
    assert times == a + b;
    assert a[i] in multiset(a) && b[0] in multiset(b);
    assert multiset(times) == multiset(a) + multiset(b);
  }

  lemma {:induction false} OccursOnce(keys: seq<real>, t: real)
    requires forall i, j :: 0 <= i < j < |keys| ==> keys[i] != keys[j]
    ensures multiset(keys)[t] <= 1
  {
    if keys != [] {
      OccursOnce(keys[1..], t);
      assert keys == [keys[0]] + keys[1..];
    }
  }

  // ---- max(..., key=...) and min(..., key=...): the first best element

  function FirstMax<T>(xs: seq<T>, key: T -> real): (best: T)
    requires xs != []
    ensures best in xs
    ensures forall x :: x in xs ==> key(x) <= key(best)
  {
    if |xs| == 1 then xs[0]
    else
      var rest := FirstMax(xs[1..], key);
      if key(rest) > key(xs[0]) then rest else xs[0]
  }

  function FirstMin<T>(xs: seq<T>, key: T -> real): (best: T)
    requires xs != []
    ensures best in xs
    ensures forall x :: x in xs ==> key(best) <= key(x)
  {
    if |xs| == 1 then xs[0]
    else
      var rest := FirstMin(xs[1..], key);
      if key(rest) < key(xs[0]) then rest else xs[0]
  }

  /** The one at i is the first of the largest. */
  ghost predicate FirstLargest<T>(xs: seq<T>, key: T -> real, i: int) {
    && 0 <= i < |xs|
    && (forall j :: 0 <= j < |xs| ==> key(xs[j]) <= key(xs[i])) && (forall j :: 0 <= j < i ==> key(xs[j]) < key(xs[i]))
  }

  ghost predicate FirstSmallest<T>(xs: seq<T>, key: T -> real, i: int) {
    && 0 <= i < |xs|
    && (forall j :: 0 <= j < |xs| ==> key(xs[i]) <= key(xs[j])) && (forall j :: 0 <= j < i ==> key(xs[i]) < key(xs[j]))
  }

  lemma {:induction false} FirstMaxIsFirst<T>(xs: seq<T>, key: T -> real) returns (i: int)
    requires xs != []
    ensures FirstLargest(xs, key, i) && xs[i] == FirstMax(xs, key)
  {
    if |xs| == 1 {
      return 0;
    }
    var k := FirstMaxIsFirst(xs[1..], key);
    i := if key(xs[k + 1]) > key(xs[0]) then k + 1 else 0;
  }

  lemma {:induction false} FirstMinIsFirst<T>(xs: seq<T>, key: T -> real) returns (i: int)
    requires xs != []
    ensures FirstSmallest(xs, key, i) && xs[i] == FirstMin(xs, key)
  {
    if |xs| == 1 {
      return 0;
    }
    var k := FirstMinIsFirst(xs[1..], key);
    i := if key(xs[k + 1]) < key(xs[0]) then k + 1 else 0;
  }

  // ---- the time two spans have in common

  ghost predicate InBoth(a: real, b: real, c: real, d: real, from: real, to: real) {
    a <= from && to <= b && c <= from && to <= d
  }

  /** x is the length of the longest stretch inside both [a, b] and [c, d], or 0 when they do not meet. */
  ghost predicate CommonTime(a: real, b: real, c: real, d: real, x: real) {
    && x >= 0.0 && (x > 0.0 ==> exists from, to :: InBoth(a, b, c, d, from, to) && to - from == x)
    && (forall from, to :: from < to && InBoth(a, b, c, d, from, to) ==> to - from <= x)
  }

  lemma CommonTimeIs(a: real, b: real, c: real, d: real, x: real)
    requires x == Max(0.0, Min(b, d) - Max(a, c))
    ensures CommonTime(a, b, c, d, x)
  {
    if x > 0.0 {
      assert InBoth(a, b, c, d, Max(a, c), Min(b, d));
    }
    forall from, to | from < to && InBoth(a, b, c, d, from, to) ensures to - from <= x {
    }
  }
}
