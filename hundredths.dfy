/**
 * Scores as exact integer hundredths.
 *
 * The scorer's `round(sum(values) / len(values), 2)` is modelled on the
 * exact rational mean: the result `m` stands for the two-decimal float
 * `m / 100`, and the rounding is Python's round-half-to-even.
 */
module Hundredths {

  function Sum(values: seq<int>): int {
    if |values| == 0 then 0 else Sum(values[..|values| - 1]) + values[|values| - 1]
  }

  lemma SumOfThree(a: int, b: int, c: int)
    ensures Sum([a, b, c]) == a + b + c
  {
    assert [a][..0] == [];
    assert Sum([a]) == a;
    assert [a, b][..1] == [a];
    assert Sum([a, b]) == a + b;
    assert [a, b, c][..2] == [a, b];
  }

  /** `q` is within one half of `num / den`. */
  predicate WithinHalf(num: int, den: int, q: int)
    requires den > 0
  {
    -den <= 2 * (num - q * den) <= den
  }

  /** `q` is an integer nearest to `num / den`; of two equally near, the even one. */
  predicate NearestTiesEven(num: int, den: int, q: int)
    requires den > 0
  {
    var twice := 2 * (num - q * den);
    WithinHalf(num, den, q) && ((twice == den || twice == -den) ==> q % 2 == 0)
  }

  lemma MulMonotone(a: int, b: int, c: int)
    requires a <= b && c >= 0
    ensures a * c <= b * c
  {
    assert b * c - a * c == (b - a) * c;
  }

  /** `num / den` rounded to an integer, half to even. */
  function RoundHalfEven(num: int, den: int): (q: int)
    requires den > 0
    ensures NearestTiesEven(num, den, q)
  {
    var f := num / den;
    var r := num % den;
    assert num == f * den + r;
    assert (f + 1) * den == f * den + den;
    if 2 * r < den then f
    else if 2 * r > den then f + 1
    else if f % 2 == 0 then f
    else f + 1
  }

  lemma MulDistributes(a: int, k: int, c: int)
    ensures (a + k) * c == a * c + k * c
  {
  }

  lemma NearestBelowIsFarther(num: int, den: int, lo: int, hi: int)
    requires den > 0 && lo < hi
    requires WithinHalf(num, den, lo) && WithinHalf(num, den, hi)
    ensures hi == lo + 1 && 2 * (num - lo * den) == den
  {
    MulMonotone(lo + 1, hi, den);
    MulDistributes(lo, 1, den);
    if hi >= lo + 2 {
      MulMonotone(lo + 2, hi, den);
      MulDistributes(lo, 2, den);
      assert false;
    }
  }

  /** The rounding rule leaves no choice: it determines the result. */
  lemma NearestTiesEvenUnique(num: int, den: int, q1: int, q2: int)
    requires den > 0
    requires NearestTiesEven(num, den, q1) && NearestTiesEven(num, den, q2)
    ensures q1 == q2
  {
    if q1 < q2 {
      NearestBelowIsFarther(num, den, q1, q2);
      MulDistributes(q1, 1, den);
      assert false;
    } else if q2 < q1 {
      NearestBelowIsFarther(num, den, q2, q1);
      MulDistributes(q2, 1, den);
      assert false;
    }
  }

  /**
   * `_calculate_mean`: 0 for an empty list, otherwise the mean in hundredths,
   * rounded half to even.
   */
  function Mean(values: seq<int>): (m: int)
    ensures |values| == 0 ==> m == 0
    ensures |values| > 0 ==> NearestTiesEven(100 * Sum(values), |values|, m)
  {
    if |values| == 0 then 0 else RoundHalfEven(100 * Sum(values), |values|)
  }

  lemma {:induction false} SumBounds(values: seq<int>, lo: int, hi: int)
    requires forall i :: 0 <= i < |values| ==> lo <= values[i] <= hi
    ensures lo * |values| <= Sum(values) <= hi * |values|
  {
    if |values| > 0 {
      var n := |values| - 1;
      SumBounds(values[..n], lo, hi);
      assert lo * (n + 1) == lo * n + lo;
      assert hi * (n + 1) == hi * n + hi;
    }
  }

  /** The mean of values in `[lo, hi]` lies in `[lo, hi]` (as hundredths). */
  lemma MeanWithin(values: seq<int>, lo: int, hi: int)
    requires |values| > 0
    requires forall i :: 0 <= i < |values| ==> lo <= values[i] <= hi
    ensures 100 * lo <= Mean(values) <= 100 * hi
  {
    var n, s := |values|, Sum(values);
    SumBounds(values, lo, hi);
    assert (100 * lo) * n == 100 * (lo * n) && (100 * hi) * n == 100 * (hi * n);
    RoundedWithin(100 * s, n, Mean(values), 100 * lo, 100 * hi);
  }

  /** A quotient between two bounds rounds to an integer between them. */
  lemma RoundedWithin(num: int, den: int, q: int, lo: int, hi: int)
    requires den > 0 && lo * den <= num <= hi * den && WithinHalf(num, den, q)
    ensures lo <= q <= hi
  {
    if q > hi {
      MulMonotone(hi + 1, q, den);
      MulDistributes(hi, 1, den);
      assert false;
    }
    if q < lo {
      MulMonotone(q, lo - 1, den);
      MulDistributes(lo, -1, den);
      assert false;
    }
  }

  /** A non-empty list of equal values has exactly that value as its mean. */
  lemma MeanOfConstant(values: seq<int>, c: int)
    requires |values| > 0
    requires forall i :: 0 <= i < |values| ==> values[i] == c
    ensures Mean(values) == 100 * c
  {
    MeanWithin(values, c, c);
  }

  /** 13 / 3 = 4.333...: rounded down to 4.33. */
  lemma MeanExampleDown()
    ensures Mean([4, 4, 5]) == 433
  {
    assert Sum([4, 4, 5]) == 13 by {
      assert [4, 4, 5][..2] == [4, 4];
      assert [4, 4][..1] == [4];
      assert [4][..0] == [];
    }
  }

  /** 25 / 8 = 3.125 is a tie: half to even gives 3.12, not 3.13. */
  lemma MeanExampleTie()
    ensures Mean([4, 4, 4, 4, 3, 2, 2, 2]) == 312
  {
    var v := [4, 4, 4, 4, 3, 2, 2, 2];
    assert Sum(v) == 25 by {
      assert v[..7] == [4, 4, 4, 4, 3, 2, 2];
      assert [4, 4, 4, 4, 3, 2, 2][..6] == [4, 4, 4, 4, 3, 2];
      assert [4, 4, 4, 4, 3, 2][..5] == [4, 4, 4, 4, 3];
      assert [4, 4, 4, 4, 3][..4] == [4, 4, 4, 4];
      assert [4, 4, 4, 4][..3] == [4, 4, 4];
      assert [4, 4, 4][..2] == [4, 4];
      assert [4, 4][..1] == [4];
      assert [4][..0] == [];
      assert Sum([4]) == 4;
      assert Sum([4, 4]) == 8;
      assert Sum([4, 4, 4]) == 12;
      assert Sum([4, 4, 4, 4]) == 16;
      assert Sum([4, 4, 4, 4, 3]) == 19;
      assert Sum([4, 4, 4, 4, 3, 2]) == 21;
      assert Sum([4, 4, 4, 4, 3, 2, 2]) == 23;
    }
  }
}
