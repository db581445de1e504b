/** A label sequence as maximal runs: where each run begins and what it is called. */
module Runs {

  /** `cuts` holds the start of every run and, last, the length of the sequence. */
  datatype Runs = Runs(cuts: seq<int>, names: seq<string>)

  ghost predicate Holds(labels: seq<string>, from: int, to: int, name: string) {
    0 <= from <= to <= |labels| && forall p :: from <= p < to ==> labels[p] == name
  }

  /** Strictly increasing cuts from 0 to `length`, one run between each two. */
  ghost predicate Fits(runs: Runs, length: int) {
    && |runs.cuts| == |runs.names| + 1
    && runs.cuts[0] == 0 && runs.cuts[|runs.names|] == length
    && (forall j, k :: 0 <= j < k < |runs.cuts| ==> runs.cuts[j] < runs.cuts[k])
  }

  ghost predicate Represents(labels: seq<string>, runs: Runs) {
    && Fits(runs, |labels|)
    && (forall k :: 0 <= k < |runs.names| ==> Holds(labels, runs.cuts[k], runs.cuts[k + 1], runs.names[k]))
    && (forall k :: 1 <= k < |runs.names| ==> runs.names[k - 1] != runs.names[k])
  }

  /** The maximal runs of a sequence. */
  ghost function RunsOf(labels: seq<string>): (runs: Runs)
    ensures Represents(labels, runs)
  {
    if labels == [] then Runs([0], [])
    else
      var n := |labels| - 1;
      var before := RunsOf(labels[..n]);
      AddLabel(labels, before);
      WithLabel(before, labels[n])
  }

  /** The runs after one more label. */
  ghost function WithLabel(runs: Runs, name: string): Runs
    requires |runs.cuts| == |runs.names| + 1
  {
    var m := |runs.names|;
    if m > 0 && runs.names[m - 1] == name then Runs(runs.cuts[m := runs.cuts[m] + 1], runs.names)
    else Runs(runs.cuts + [runs.cuts[m] + 1], runs.names + [name])
  }

  lemma AddLabel(labels: seq<string>, before: Runs)
    requires labels != [] && Represents(labels[..|labels| - 1], before)
    ensures Represents(labels, WithLabel(before, labels[|labels| - 1]))
  {
    var n, m := |labels| - 1, |before.names|;
    var after := WithLabel(before, labels[n]);
    forall k | 0 <= k < |after.names| ensures Holds(labels, after.cuts[k], after.cuts[k + 1], after.names[k]) {
      if k < m {
        assert Holds(labels[..n], before.cuts[k], before.cuts[k + 1], before.names[k]);
      }
    }
  }

  lemma NamedAt(labels: seq<string>, runs: Runs, k: int)
    requires Represents(labels, runs) && 0 <= k < |runs.names|
    ensures 0 <= runs.cuts[k] < runs.cuts[k + 1] <= |labels|
    ensures forall p :: runs.cuts[k] <= p < runs.cuts[k + 1] ==> labels[p] == runs.names[k]
  {
    assert Holds(labels, runs.cuts[k], runs.cuts[k + 1], runs.names[k]);
  }

  /** The run a position lies in. */
  ghost function RunAt(runs: Runs, p: int): (k: int)
    requires |runs.cuts| >= 2 && runs.cuts[0] <= p < runs.cuts[|runs.cuts| - 1]
    ensures 0 <= k < |runs.cuts| - 1 && runs.cuts[k] <= p < runs.cuts[k + 1]
    decreases |runs.cuts|
  {
    var m := |runs.cuts| - 2;
    if runs.cuts[m] <= p then m
    else RunAt(Runs(runs.cuts[..m + 1], []), p)
  }

  /** A position starts a run exactly when its label differs from the one before. */
  lemma ChangeIsCut(labels: seq<string>, runs: Runs, p: int)
    requires Represents(labels, runs) && 0 < p < |labels|
    ensures labels[p - 1] != labels[p] <==> p in runs.cuts
  {
    var k := RunAt(runs, p);
    NamedAt(labels, runs, k);
    if runs.cuts[k] == p {
      NamedAt(labels, runs, k - 1);
    } else {
      forall j | 0 <= j < |runs.cuts| ensures runs.cuts[j] != p {
        assert j < k || j == k || j == k + 1 || k + 1 < j;
      }
    }
  }

  /** A sequence has only one decomposition into maximal runs. */
  lemma RunsAreUnique(labels: seq<string>, a: Runs, b: Runs)
    requires Represents(labels, a) && Represents(labels, b)
    ensures a == b
  {
    if |a.cuts| < |b.cuts| {
      assert b.cuts[|a.names|] < b.cuts[|b.names|];
    } else if |b.cuts| < |a.cuts| {
      assert a.cuts[|b.names|] < a.cuts[|a.names|];
    }
    forall k | 0 <= k < |a.cuts| && k < |b.cuts| ensures a.cuts[k] == b.cuts[k] {
      SameCut(labels, a, b, k);
    }
    assert a.cuts == b.cuts;
    forall k | 0 <= k < |a.names| ensures a.names[k] == b.names[k] {
      assert a.cuts[k] == b.cuts[k];
      var p := a.cuts[k];
      NamedAt(labels, a, k);
      NamedAt(labels, b, k);
      assert labels[p] == a.names[k] && labels[p] == b.names[k];
    }
  }

  lemma {:induction false} SameCut(labels: seq<string>, a: Runs, b: Runs, k: int)
    requires Represents(labels, a) && Represents(labels, b) && 0 <= k < |a.cuts| && k < |b.cuts|
    ensures a.cuts[k] == b.cuts[k]
  {
    if k > 0 {
      SameCut(labels, a, b, k - 1);
      NotBefore(labels, a, b, k);
      NotBefore(labels, b, a, k);
    }
  }

  lemma NotBefore(labels: seq<string>, a: Runs, b: Runs, k: int)
    requires Represents(labels, a) && Represents(labels, b) && 0 < k < |a.cuts| && k < |b.cuts|
    requires a.cuts[k - 1] == b.cuts[k - 1]
    ensures a.cuts[k] >= b.cuts[k]
  {
    var p := a.cuts[k];
    if p < |labels| {
      assert p == a.cuts[k] && p in a.cuts;
      ChangeIsCut(labels, a, p);
      ChangeIsCut(labels, b, p);
      var j :| 0 <= j < |b.cuts| && b.cuts[j] == p;
      assert b.cuts[k - 1] < b.cuts[j];
      assert j < k ==> j <= k - 1;
    } else {
      assert b.cuts[k] <= |labels|;
    }
  }
}
