/** Reference definitions for the values a `dsa::Matrix` holds, as plain
    sequences of rows: the shape invariant, the all-zero grid its
    constructor builds, and the cell-wise sum its `operator+` builds. */
module Grids {

  /** `g` has `r` rows of exactly `c` cells each. */
  ghost predicate Shaped(g: seq<seq<int>>, r: int, c: int)
  {
    |g| == r && c >= 0 && forall i :: 0 <= i < |g| ==> |g[i]| == c
  }

  /** The row built by `c` calls of `push_back(0)`. */
  ghost function Zeros(c: nat): seq<int>
  {
    if c == 0 then [] else Zeros(c - 1) + [0]
  }

  /** The rows built by `r` calls of `push_back` with a row of `c` zeros. */
  ghost function ZeroGrid(r: nat, c: nat): seq<seq<int>>
  {
    if r == 0 then [] else ZeroGrid(r - 1, c) + [Zeros(c)]
  }

  /** Two rows of equal length added cell by cell. */
  ghost function SumRow(a: seq<int>, b: seq<int>): seq<int>
    requires |a| == |b|
  {
    if |a| == 0 then [] else [a[0] + b[0]] + SumRow(a[1..], b[1..])
  }

  /** Two grids of equal shape added cell by cell. */
  ghost function SumGrid(a: seq<seq<int>>, b: seq<seq<int>>): seq<seq<int>>
    requires |a| == |b|
    requires forall i :: 0 <= i < |a| ==> |a[i]| == |b[i]|
  {
    if |a| == 0 then [] else [SumRow(a[0], b[0])] + SumGrid(a[1..], b[1..])
  }

  /** A row of `c` zeros has `c` cells, all 0. */
  lemma {:induction false} ZerosAreZero(c: nat)
    ensures |Zeros(c)| == c
    ensures forall k :: 0 <= k < c ==> Zeros(c)[k] == 0
  {
    if c > 0 {
      ZerosAreZero(c - 1);
    }
  }

  /** The freshly built grid has `r` rows of `c` cells, every cell 0. */
  lemma {:induction false} ZeroGridIsZero(r: nat, c: nat)
    ensures Shaped(ZeroGrid(r, c), r, c)
    ensures forall i, j :: 0 <= i < r && 0 <= j < c ==> ZeroGrid(r, c)[i][j] == 0
  {
    ZerosAreZero(c);
    if r > 0 {
      ZeroGridIsZero(r - 1, c);
    }
  }

  /** Cell `k` of the row sum is the sum of the two cells `k`. */
  lemma {:induction false} SumRowAt(a: seq<int>, b: seq<int>)
    requires |a| == |b|
    ensures |SumRow(a, b)| == |a|
    ensures forall k :: 0 <= k < |a| ==> SumRow(a, b)[k] == a[k] + b[k]
  {
    if |a| > 0 {
      SumRowAt(a[1..], b[1..]);
    }
  }

  /** The grid sum keeps the operands' shape and holds, in every cell, the
      sum of the operands' cells there. */
  lemma {:induction false} SumGridAt(a: seq<seq<int>>, b: seq<seq<int>>, r: nat, c: nat)
    requires Shaped(a, r, c) && Shaped(b, r, c)
    ensures Shaped(SumGrid(a, b), r, c)
    ensures forall i, j :: 0 <= i < r && 0 <= j < c ==> SumGrid(a, b)[i][j] == a[i][j] + b[i][j]
  {
    if r > 0 {
      SumRowAt(a[0], b[0]);
      SumGridAt(a[1..], b[1..], r - 1, c);
    }
  }

  /** Two grids of one shape that agree on every cell are equal. */
  lemma SameCellsSameGrid(g: seq<seq<int>>, h: seq<seq<int>>, r: nat, c: nat)
    requires Shaped(g, r, c) && Shaped(h, r, c)
    requires forall i, j :: 0 <= i < r && 0 <= j < c ==> g[i][j] == h[i][j]
    ensures g == h
  {
    forall i | 0 <= i < r
      ensures g[i] == h[i]
    {
      assert forall j :: 0 <= j < c ==> g[i][j] == h[i][j];
    }
  }
}
