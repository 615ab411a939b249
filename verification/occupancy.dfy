/**
 * The occupancy mask of the circuit generator: a rows-by-cols boolean matrix
 * (true = occupied) that is filled in place. Cells outside the matrix are
 * never clear and writes to them are ignored.
 */
module Occupancy {
  import opened GridLayout

  predicate InGrid(g: array2<bool>, r: int, c: int) {
    0 <= r < g.Length0 && 0 <= c < g.Length1
  }

  /** isClear: an in-grid cell that is not yet occupied. */
  function IsClear(g: array2<bool>, r: int, c: int): (clear: bool)
    reads g
    ensures clear ==> InGrid(g, r, c)
    ensures InGrid(g, r, c) ==> clear == !g[r, c]
  {
    if r < 0 || r >= g.Length0 || c < 0 || c >= g.Length1 then false
    else !g[r, c]
  }

  /** markOccupied: sets cell (r, c) when it is inside the grid, else does nothing. */
  method MarkOccupied(g: array2<bool>, r: int, c: int)
    modifies g
    ensures forall i, j :: InGrid(g, i, j) ==> g[i, j] == (old(g[i, j]) || (i == r && j == c))
  {
    if r >= 0 && r < g.Length0 && c >= 0 && c < g.Length1 {
      g[r, c] := true;
    }
  }

  /** The cells the card rectangle covers: rows [r0, r1] by columns [c0, c1]. */
  predicate InRect(i: int, j: int, r0: int, r1: int, c0: int, c1: int) {
    r0 <= i <= r1 && c0 <= j <= c1
  }

  /**
   * Marks every in-grid cell of rows [r0, r1] by columns [c0, c1] occupied
   * and leaves every other cell as it was.
   */
  method MarkRect(g: array2<bool>, r0: int, r1: int, c0: int, c1: int)
    modifies g
    ensures forall i, j :: InGrid(g, i, j) ==>
      g[i, j] == (old(g[i, j]) || InRect(i, j, r0, r1, c0, c1))
  {
    var r := r0;
    while r <= r1
      invariant r0 <= r && (r0 <= r1 ==> r <= r1 + 1) && (r0 > r1 ==> r == r0)
      invariant forall i, j :: InGrid(g, i, j) ==>
        g[i, j] == (old(g[i, j]) || InRect(i, j, r0, r - 1, c0, c1))
      decreases r1 - r
    {
      var c := c0;
      while c <= c1
        invariant c0 <= c && (c0 <= c1 ==> c <= c1 + 1) && (c0 > c1 ==> c == c0)
        invariant forall i, j :: InGrid(g, i, j) ==>
          g[i, j] == (old(g[i, j]) || InRect(i, j, r0, r - 1, c0, c1) || (i == r && c0 <= j < c))
        decreases c1 - c
      {
        MarkOccupied(g, r, c);
        c := c + 1;
      }
      r := r + 1;
    }
  }
}
