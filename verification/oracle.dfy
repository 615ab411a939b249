/**
 * The layout passes call Math.random(), which yields a double in [0, 1) with
 * 53 random bits. Here each call is one element of a draw stream: the draw
 * `d` stands for the number d / 2^53. A layout pass takes the stream as a
 * parameter together with the index of the next unused draw, so every
 * property proved about a pass holds for every possible stream.
 */
module Oracle {

  /** Number of distinct values Math.random() can return. */
  const Unit: int := 0x20_0000_0000_0000

  /** One result of Math.random(), scaled by Unit. */
  type Draw = d: int | 0 <= d < Unit

  /** A stream of draws; the i-th call to Math.random() reads rng(i). */
  type Rng = nat -> Draw

  /** Math.floor(Math.random() * n): an index chosen among n alternatives. */
  function Pick(d: Draw, n: nat): (i: nat)
    requires n > 0
    ensures i < n
  {
    var q := d * n / Unit;
    assert d * n < Unit * n by { MulStrict(d, Unit, n); }
    q
  }

  /** Pick is the floor of d / Unit * n: the index whose interval holds the scaled draw. */
  lemma PickBounds(d: Draw, n: nat)
    requires n > 0
    ensures Pick(d, n) * Unit <= d * n < (Pick(d, n) + 1) * Unit
  {
  }

  /** Math.random() < num / den, stated without rounding. */
  predicate Below(d: Draw, num: nat, den: nat)
    requires den > 0
  {
    d * den < num * Unit
  }

  lemma MulStrict(a: int, b: int, n: int)
    requires a < b && n > 0
    ensures a * n < b * n
  {
  }

  lemma MulCancel(a: int, b: int, n: int)
    requires n > 0 && a * n < b * n
    ensures a < b
  {
  }

  /** Every alternative can be chosen by some draw, so no index is unreachable. */
  lemma {:induction false} PickCovers(n: nat, i: nat)
    requires 0 < n <= Unit && i < n
    ensures exists d: Draw :: Pick(d, n) == i
  {
    var d := (i * Unit + n - 1) / n;
    assert d * n >= i * Unit by {
      assert d * n + (i * Unit + n - 1) % n == i * Unit + n - 1;
    }
    assert d * n < (i + 1) * Unit by {
      assert d * n <= i * Unit + n - 1;
    }
    assert d < Unit by { MulCancel(d, Unit, n); }
    var dd: Draw := d;
    assert Pick(dd, n) == i;
  }
}
