/**
 * The d3-array helpers vendored in the bundle: `max`, `mean` and the
 * `bisector` binary searches (with the default `ascending` comparator).
 *
 * A JavaScript array element is one of three kinds here: `null` (which the
 * helpers treat like `undefined`), `NaN`, or a number.
 */
module D3Array {
  import opened Wrappers

  datatype Datum = Null | NaN | Num(value: real)

  /** No element of `values` is a number. */
  predicate NoNumbers(values: seq<Datum>)
  {
    forall i :: 0 <= i < |values| ==> !values[i].Num?
  }

  /** `m` bounds every number of `values` from above. */
  predicate Bounds(values: seq<Datum>, m: real)
  {
    forall i :: 0 <= i < |values| && values[i].Num? ==> values[i].value <= m
  }

  /**
   * max (without an accessor): it skips elements until the first comparable
   * one (neither null nor NaN), then keeps the running maximum of the numbers
   * after it. Undefined when no element is a number.
   */
  method Max(values: seq<Datum>) returns (r: Option<real>)
    ensures r.None? <==> NoNumbers(values)
    ensures r.Some? ==> Num(r.value) in values && Bounds(values, r.value)
  {
    var n := |values|;
    var i := 0;
    r := None;
    while i < n
      invariant 0 <= i <= n
      invariant r.None? ==> NoNumbers(values[..i])
      invariant r.Some? ==> i == n && Num(r.value) in values && Bounds(values, r.value)
    {
      if values[i].Num? {
        var max := values[i].value;
        ghost var at := i;
        i := i + 1;
        while i < n
          invariant at < i <= n
          invariant values[at] == Num(max) || Num(max) in values[at + 1..i]
          invariant Bounds(values[..i], max)
        {
          if values[i].Num? && values[i].value > max {
            max := values[i].value;
          }
          i := i + 1;
        }
        assert values[..i] == values;
        r := Some(max);
      } else {
        i := i + 1;
      }
    }
    assert values[..i] == values;
  }

  /** The sum of the numbers of `values` (null and NaN are skipped). */
  function Sum(values: seq<Datum>): real
  {
    if values == [] then 0.0
    else Sum(values[..|values| - 1]) + (if values[|values| - 1].Num? then values[|values| - 1].value else 0.0)
  }

  /** How many elements of `values` are numbers. */
  function Count(values: seq<Datum>): (c: nat)
    ensures c <= |values|
  {
    if values == [] then 0
    else Count(values[..|values| - 1]) + (if values[|values| - 1].Num? then 1 else 0)
  }

  /**
   * mean (without an accessor): the count `m` starts at the length and drops
   * by one for every null or NaN; the result is the sum over the count, or
   * undefined when the count is zero.
   */
  method Mean(values: seq<Datum>) returns (r: Option<real>)
    ensures Count(values) == 0 ==> r == None
    ensures Count(values) > 0 ==> r == Some(Sum(values) / (Count(values) as real))
  {
    var n := |values|;
    var m := n;
    var i := 0;
    var sum := 0.0;
    while i < n
      invariant 0 <= i <= n
      invariant m == n - i + Count(values[..i])
      invariant sum == Sum(values[..i])
    {
      assert values[..i + 1][..i] == values[..i];
      if values[i].Num? {
        sum := sum + values[i].value;
      } else {
        m := m - 1;
      }
      i := i + 1;
    }
    assert values[..i] == values;
    if m != 0 {
      r := Some(sum / (m as real));
    } else {
      r := None;
    }
  }

  /** `k` added once for every number of `values`. */
  function CountTimes(values: seq<Datum>, k: real): real
  {
    if values == [] then 0.0
    else CountTimes(values[..|values| - 1], k) + (if values[|values| - 1].Num? then k else 0.0)
  }

  /** `CountTimes` is the count scaled by `k`. */
  lemma {:induction false} CountTimesIsProduct(values: seq<Datum>, k: real)
    ensures CountTimes(values, k) == (Count(values) as real) * k
  {
    if values != [] {
      var init := values[..|values| - 1];
      CountTimesIsProduct(init, k);
      var c := Count(init) as real;
      assert (c + 1.0) * k == c * k + k;
    }
  }

  /** Bounds on the numbers bound their sum by the count times the bound. */
  lemma {:induction false} SumBounds(values: seq<Datum>, lo: real, hi: real)
    requires forall i :: 0 <= i < |values| && values[i].Num? ==> lo <= values[i].value <= hi
    ensures CountTimes(values, lo) <= Sum(values) <= CountTimes(values, hi)
  {
    if values != [] {
      var init := values[..|values| - 1];
      assert forall i :: 0 <= i < |init| ==> init[i] == values[i];
      SumBounds(init, lo, hi);
    }
  }

  /** Bounds on the numbers bound their sum by the count times the bound. */
  lemma {:induction false} ScaledBounds(values: seq<Datum>, lo: real, hi: real)
    requires forall i :: 0 <= i < |values| && values[i].Num? ==> lo <= values[i].value <= hi
    ensures (Count(values) as real) * lo <= Sum(values) <= (Count(values) as real) * hi
  {
    SumBounds(values, lo, hi);
    CountTimesIsProduct(values, lo);
    CountTimesIsProduct(values, hi);
  }

  /** The mean of numbers that lie between two bounds lies between them too. */
  lemma {:induction false} MeanBounds(values: seq<Datum>, lo: real, hi: real)
    requires forall i :: 0 <= i < |values| && values[i].Num? ==> lo <= values[i].value <= hi
    requires Count(values) > 0
    ensures lo <= Sum(values) / (Count(values) as real) <= hi
  {
    ScaledBounds(values, lo, hi);
    Quotient(Sum(values), Count(values) as real, lo, hi);
  }

  /** Dividing bounds of the form `c * lo <= s <= c * hi` by a positive `c`. */
  lemma Quotient(s: real, c: real, lo: real, hi: real)
    requires 0.0 < c && c * lo <= s <= c * hi
    ensures lo <= s / c <= hi
  {
    var q := s / c;
    assert (q - lo) * c == s - c * lo;
    assert (hi - q) * c == c * hi - s;
  }

  /** `a` is ascending between `lo` and `hi`. */
  predicate SortedBetween(a: seq<real>, lo: nat, hi: nat)
    requires hi <= |a|
  {
    forall i, j :: lo <= i < j < hi ==> a[i] <= a[j]
  }

  /** `r` splits `a[lo..hi]` into the elements below `x` and those at least `x`. */
  predicate LeftSplit(a: seq<real>, x: real, lo: nat, hi: nat, r: nat)
    requires hi <= |a|
  {
    && lo <= r <= hi
    && (forall i :: lo <= i < r ==> a[i] < x)
    && (forall i :: r <= i < hi ==> x <= a[i])
  }

  /** `r` splits `a[lo..hi]` into the elements at most `x` and those above `x`. */
  predicate RightSplit(a: seq<real>, x: real, lo: nat, hi: nat, r: nat)
    requires hi <= |a|
  {
    && lo <= r <= hi
    && (forall i :: lo <= i < r ==> a[i] <= x)
    && (forall i :: r <= i < hi ==> x < a[i])
  }

  /**
   * bisector(ascending).left: the midpoint is `lo + hi >>> 1`, an unsigned
   * 32-bit shift, written out as a reduction modulo 2^32.
   */
  method BisectLeft(a: seq<real>, x: real, lo: nat, hi: nat) returns (r: nat)
    requires hi <= |a| && hi <= 0x8000_0000
    ensures hi <= lo ==> r == lo
    ensures lo <= hi && SortedBetween(a, lo, hi) ==> LeftSplit(a, x, lo, hi, r)
    ensures lo <= hi ==> lo <= r <= hi
  {
    var l, h := lo, hi;
    while l < h
      invariant lo <= hi ==> lo <= l <= h <= hi
      invariant hi <= lo ==> l == lo && h == hi
      invariant lo <= hi && SortedBetween(a, lo, hi) ==>
        (forall i :: lo <= i < l ==> a[i] < x) && (forall i :: h <= i < hi ==> x <= a[i])
      decreases h - l
    {
      var mid := ((l + h) % 0x1_0000_0000) / 2;
      assert l <= mid < h;
      if a[mid] < x {
        l := mid + 1;
      } else {
        h := mid;
      }
    }
    r := l;
  }

  /** bisector(ascending).right: as `left`, but equal elements stay on the left. */
  method BisectRight(a: seq<real>, x: real, lo: nat, hi: nat) returns (r: nat)
    requires hi <= |a| && hi <= 0x8000_0000
    ensures hi <= lo ==> r == lo
    ensures lo <= hi && SortedBetween(a, lo, hi) ==> RightSplit(a, x, lo, hi, r)
    ensures lo <= hi ==> lo <= r <= hi
  {
    var l, h := lo, hi;
    while l < h
      invariant lo <= hi ==> lo <= l <= h <= hi
      invariant hi <= lo ==> l == lo && h == hi
      invariant lo <= hi && SortedBetween(a, lo, hi) ==>
        (forall i :: lo <= i < l ==> a[i] <= x) && (forall i :: h <= i < hi ==> x < a[i])
      decreases h - l
    {
      var mid := ((l + h) % 0x1_0000_0000) / 2;
      assert l <= mid < h;
      if a[mid] > x {
        h := mid;
      } else {
        l := mid + 1;
      }
    }
    r := l;
  }

  /**
   * The left split point never lies after the right one, and the two agree
   * exactly when `x` does not occur in `a[lo..hi]`: together with the
   * postconditions above, the two searches bracket the run of elements equal
   * to `x`.
   */
  lemma SplitsBracket(a: seq<real>, x: real, lo: nat, hi: nat, l: nat, r: nat)
    requires hi <= |a| && LeftSplit(a, x, lo, hi, l) && RightSplit(a, x, lo, hi, r)
    ensures l <= r
    ensures l == r <==> forall i :: lo <= i < hi ==> a[i] != x
    ensures forall i :: l <= i < r ==> a[i] == x
  {
    if r < hi {
      assert x < a[r];
    }
    if l < r {
      assert a[l] == x;
    }
  }

  /** A left split point is unique, so the postcondition of `BisectLeft` fixes its result. */
  lemma LeftSplitUnique(a: seq<real>, x: real, lo: nat, hi: nat, r1: nat, r2: nat)
    requires hi <= |a| && LeftSplit(a, x, lo, hi, r1) && LeftSplit(a, x, lo, hi, r2)
    ensures r1 == r2
  {
    if r1 < hi {
      assert x <= a[r1];
    }
    if r2 < hi {
      assert x <= a[r2];
    }
  }
}
