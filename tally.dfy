/**
 * Counting occurrences, as `format_bird_tags` and the detector's `tag_count`
 * do with a dictionary: each distinct value once, in the order of its first
 * occurrence, with the number of times it occurs.
 */
module Tally {

  /** The number of times `x` occurs in `xs`. */
  function Count<T(==)>(xs: seq<T>, x: T): nat
    decreases |xs|
  {
    if |xs| == 0 then 0
    else Count(xs[..|xs| - 1], x) + (if xs[|xs| - 1] == x then 1 else 0)
  }

  /** The distinct values of `xs` in order of first occurrence: a dictionary's key order. */
  function Distinct<T(==)>(xs: seq<T>): seq<T>
    decreases |xs|
  {
    if |xs| == 0 then []
    else
      var init := Distinct(xs[..|xs| - 1]);
      if xs[|xs| - 1] in xs[..|xs| - 1] then init else init + [xs[|xs| - 1]]
  }

  /** The dictionary a counting loop builds: each value mapped to its count so far. */
  function Counts<T(==)>(xs: seq<T>): map<T, nat>
    decreases |xs|
  {
    if |xs| == 0 then map[]
    else
      var m := Counts(xs[..|xs| - 1]);
      var x := xs[|xs| - 1];
      m[x := (if x in m then m[x] else 0) + 1]
  }

  predicate NoDuplicates<T(==)>(xs: seq<T>) {
    forall i, j :: 0 <= i < j < |xs| ==> xs[i] != xs[j]
  }

  /** `Distinct` lists exactly the values of `xs`, each once. */
  lemma {:induction false} DistinctSpec<T>(xs: seq<T>)
    ensures NoDuplicates(Distinct(xs))
    ensures forall x :: x in Distinct(xs) <==> x in xs
    decreases |xs|
  {
    if |xs| > 0 {
      var init := xs[..|xs| - 1];
      DistinctSpec(init);
      assert xs == init + [xs[|xs| - 1]];
    }
  }

  lemma DistinctMember<T>(xs: seq<T>, i: nat)
    requires i < |Distinct(xs)|
    ensures exists p :: 0 <= p < |xs| && xs[p] == Distinct(xs)[i]
  {
    DistinctSpec(xs);
    assert Distinct(xs)[i] in Distinct(xs);
  }

  /** Each value that occurs is listed at the index of its first occurrence's rank. */
  lemma {:induction false} DistinctFirstOccurrence<T>(xs: seq<T>, i: nat, j: nat)
    requires i < j < |Distinct(xs)|
    ensures exists p, q :: (0 <= p < q < |xs| && xs[p] == Distinct(xs)[i] && xs[q] == Distinct(xs)[j]
                            && Distinct(xs)[j] !in xs[..q])
    decreases |xs|
  {
    var init := xs[..|xs| - 1];
    var last := xs[|xs| - 1];
    DistinctSpec(init);
    if last in init {
      DistinctFirstOccurrence(init, i, j);
      var p, q :| 0 <= p < q < |init| && init[p] == Distinct(xs)[i] && init[q] == Distinct(xs)[j]
        && Distinct(xs)[j] !in init[..q];
      assert xs[..q] == init[..q];
      assert xs[p] == init[p] && xs[q] == init[q];
    } else if j < |Distinct(init)| {
      DistinctFirstOccurrence(init, i, j);
      var p, q :| 0 <= p < q < |init| && init[p] == Distinct(xs)[i] && init[q] == Distinct(xs)[j]
        && Distinct(xs)[j] !in init[..q];
      assert xs[..q] == init[..q];
      assert xs[p] == init[p] && xs[q] == init[q];
    } else {
      assert Distinct(xs)[j] == last;
      var d := Distinct(init)[i];
      assert d == Distinct(xs)[i];
      DistinctMember(init, i);
      var p :| 0 <= p < |init| && init[p] == d;
      assert xs[p] == d;
      assert xs[..|xs| - 1] == init;
    }
  }

  /** The counting dictionary has the values of `xs` as keys and their counts as values. */
  lemma {:induction false} CountsSpec<T>(xs: seq<T>)
    ensures forall x :: x in Counts(xs) <==> x in xs
    ensures forall x :: x in Counts(xs) ==> Counts(xs)[x] == Count(xs, x)
    decreases |xs|
  {
    if |xs| > 0 {
      var init := xs[..|xs| - 1];
      CountsSpec(init);
      assert xs == init + [xs[|xs| - 1]];
      forall x | x !in init ensures Count(init, x) == 0 {
        CountAbsent(init, x);
      }
    }
  }

  lemma {:induction false} CountAbsent<T>(xs: seq<T>, x: T)
    requires x !in xs
    ensures Count(xs, x) == 0
    decreases |xs|
  {
    if |xs| > 0 {
      assert xs[..|xs| - 1] <= xs;
      CountAbsent(xs[..|xs| - 1], x);
    }
  }

  /** A value occurs a positive number of times exactly when it is in the list. */
  lemma {:induction false} CountPositive<T>(xs: seq<T>, x: T)
    ensures Count(xs, x) > 0 <==> x in xs
    decreases |xs|
  {
    if |xs| > 0 {
      var init := xs[..|xs| - 1];
      CountPositive(init, x);
      assert xs == init + [xs[|xs| - 1]];
    }
  }

  /** In a list without duplicates a value occurs once if it is there at all. */
  lemma {:induction false} CountNoDuplicates<T>(ds: seq<T>, x: T)
    requires NoDuplicates(ds)
    ensures Count(ds, x) == if x in ds then 1 else 0
    decreases |ds|
  {
    if |ds| > 0 {
      var init := ds[..|ds| - 1];
      assert NoDuplicates(init);
      CountNoDuplicates(init, x);
      assert ds == init + [ds[|ds| - 1]];
      if ds[|ds| - 1] == x {
        assert x !in init;
      }
    }
  }

  /** The sum of the counts of the values `ds` in `xs`. */
  function SumCounts<T(==)>(ds: seq<T>, xs: seq<T>): nat
    decreases |ds|
  {
    if |ds| == 0 then 0 else SumCounts(ds[..|ds| - 1], xs) + Count(xs, ds[|ds| - 1])
  }

  /** Counting in `xs + [y]` adds, over all of `ds`, the number of times `y` is in `ds`. */
  lemma {:induction false} SumCountsSnoc<T>(ds: seq<T>, xs: seq<T>, y: T)
    ensures SumCounts(ds, xs + [y]) == SumCounts(ds, xs) + Count(ds, y)
    decreases |ds|
  {
    if |ds| > 0 {
      SumCountsSnoc(ds[..|ds| - 1], xs, y);
      assert (xs + [y])[..|xs + [y]| - 1] == xs;
    }
  }

  /** The counts of the distinct values add up to the length: every occurrence is counted once. */
  lemma {:induction false} CountsAddUp<T>(xs: seq<T>)
    ensures SumCounts(Distinct(xs), xs) == |xs|
    decreases |xs|
  {
    if |xs| > 0 {
      var init := xs[..|xs| - 1];
      var y := xs[|xs| - 1];
      assert xs == init + [y];
      CountsAddUp(init);
      DistinctSpec(init);
      SumCountsSnoc(Distinct(init), init, y);
      CountNoDuplicates(Distinct(init), y);
      if y !in init {
        CountAbsent(init, y);
        assert Distinct(xs) == Distinct(init) + [y];
        assert (Distinct(init) + [y])[..|Distinct(init)|] == Distinct(init);
      }
    }
  }
}
