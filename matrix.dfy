/** `dsa::Matrix`: a grid of ints with dimensions fixed at construction,
    stored as a vector of row vectors. */
module Matrices {
  import opened Errors
  import opened Vectors
  import opened Grids

  /** The rows of `d` as plain sequences of cells. */
  ghost function RowContents(d: Vector<Vector<int>>): (g: seq<seq<int>>)
    ensures |g| == |d.elems|
    ensures forall i :: 0 <= i < |g| ==> g[i] == d.elems[i].elems
  {
    seq(|d.elems|, i requires 0 <= i < |d.elems| => d.elems[i].elems)
  }

  class Matrix {
    var rows: int
    var cols: int
    var data: Vector<Vector<int>>

    /** The cells, row by row. */
    ghost function Cells(): seq<seq<int>>
      reads this
    {
      RowContents(data)
    }

    /** `data` holds `rows` valid row vectors of exactly `cols` cells. */
    ghost predicate Valid()
      reads this
    {
      data.Valid() &&
      (forall i :: 0 <= i < |data.elems| ==> data.elems[i].Valid()) &&
      Shaped(Cells(), rows, cols)
    }

    /** `Matrix(r, c)` past its dimension check: reserve `r` rows, then
        append `r` rows, each built by reserving `c` cells and appending
        `c` zeros. */
    constructor (r: nat, c: nat)
      ensures Valid()
      ensures rows == r && cols == c
      ensures Cells() == ZeroGrid(r, c)
    {
      rows := r;
      cols := c;
      data := Empty();
      new;
      data := data.Reserve(rows);
      var i := 0;
      while i < rows
        invariant 0 <= i <= rows
        invariant rows == r && cols == c
        invariant data.Valid()
        invariant forall k :: 0 <= k < |data.elems| ==> data.elems[k].Valid()
        invariant Cells() == ZeroGrid(i, c)
      {
        var rowVec: Vector<int> := Empty();
        rowVec := rowVec.Reserve(cols);
        var j := 0;
        while j < cols
          invariant 0 <= j <= cols
          invariant rowVec.Valid()
          invariant rowVec.elems == Zeros(j)
        {
          rowVec := rowVec.PushBack(0);
          j := j + 1;
        }
        ghost var before := Cells();
        data := data.PushBack(rowVec);
        assert Cells() == before + [Zeros(c)];
        i := i + 1;
      }
      ZeroGridIsZero(r, c);
    }

    /** `Matrix(r, c)`: out-of-range for a negative dimension, and then no
        grid exists; otherwise a fresh `r` by `c` grid of zeros. */
    static method Create(r: int, c: int) returns (res: Result<Matrix>)
      ensures res.Err? <==> r < 0 || c < 0
      ensures res.Ok? ==> fresh(res.value) && res.value.Valid()
      ensures res.Ok? ==> res.value.rows == r && res.value.cols == c
      ensures res.Ok? ==> forall i, j :: 0 <= i < r && 0 <= j < c ==> res.value.Cells()[i][j] == 0
    {
      if r < 0 || c < 0 {
        return Err(OutOfRange);
      }
      var m := new Matrix(r, c);
      ZeroGridIsZero(r, c);
      return Ok(m);
    }

    /** Reading `operator()(i, j)`: `data.at(i).at(j)`, so out-of-range
        unless both the row and the column index are in range. */
    method Get(i: int, j: int) returns (r: Result<int>)
      requires Valid()
      ensures r.Ok? <==> 0 <= i < rows && 0 <= j < cols
      ensures r.Ok? ==> r.value == Cells()[i][j]
    {
      var row := data.At(i);
      if row.Err? {
        return Err(row.error);
      }
      r := row.value.At(j);
    }

    /** Assigning through `operator()(i, j)`: the same two range checks,
        then only cell `(i, j)` changes; the dimensions never do. */
    method Set(i: int, j: int, x: int) returns (r: Outcome)
      requires Valid()
      modifies this`data
      ensures Valid()
      ensures r.Pass? <==> 0 <= i < rows && 0 <= j < cols
      ensures r.Pass? ==> Cells() == old(Cells())[i := old(Cells())[i][j := x]]
      ensures r.Pass? ==> Cells()[i][j] == x
      ensures r.Pass? ==> forall p, q :: 0 <= p < rows && 0 <= q < cols && (p, q) != (i, j) ==>
                Cells()[p][q] == old(Cells())[p][q]
      ensures r.Fail? ==> Cells() == old(Cells())
    {
      var row := data.At(i);
      if row.Err? {
        return Fail(row.error);
      }
      var written := row.value.SetAt(j, x);
      if written.Err? {
        return Fail(written.error);
      }
      ghost var before := Cells();
      data := data.SetAt(i, written.value).value;
      assert Cells()[i] == before[i][j := x];
      assert Cells() == before[i := before[i][j := x]];
      r := Pass;
    }

    /** `operator+`: out-of-range when the dimensions differ, checked before
        any grid is built; otherwise a fresh grid of the same dimensions
        holding the cell-wise sums, filled cell by cell. Neither operand is
        changed. */
    method Add(other: Matrix) returns (res: Result<Matrix>)
      requires Valid() && other.Valid()
      ensures unchanged(this) && unchanged(other)
      ensures res.Err? <==> rows != other.rows || cols != other.cols
      ensures res.Ok? ==> fresh(res.value) && res.value.Valid()
      ensures res.Ok? ==> res.value.rows == rows && res.value.cols == cols
      ensures res.Ok? ==> forall i, j :: 0 <= i < rows && 0 <= j < cols ==>
                res.value.Cells()[i][j] == Cells()[i][j] + other.Cells()[i][j]
      ensures res.Ok? ==> res.value.Cells() == SumGrid(Cells(), other.Cells())
    {
      if rows != other.rows || cols != other.cols {
        return Err(OutOfRange);
      }
      ghost var a, b := Cells(), other.Cells();
      var result := new Matrix(rows, cols);
      var i := 0;
      while i < rows
        invariant 0 <= i <= rows
        invariant fresh(result) && result.Valid()
        invariant result.rows == rows && result.cols == cols
        invariant forall p, q :: 0 <= p < i && 0 <= q < cols ==> result.Cells()[p][q] == a[p][q] + b[p][q]
      {
        var j := 0;
        while j < cols
          invariant 0 <= j <= cols
          invariant fresh(result) && result.Valid()
          invariant result.rows == rows && result.cols == cols
          invariant forall p, q :: 0 <= p < i && 0 <= q < cols ==> result.Cells()[p][q] == a[p][q] + b[p][q]
          invariant forall q :: 0 <= q < j ==> result.Cells()[i][q] == a[i][q] + b[i][q]
        {
          var mine := Get(i, j);
          var theirs := other.Get(i, j);
          var _ := result.Set(i, j, mine.value + theirs.value);
          j := j + 1;
        }
        i := i + 1;
      }
      SumGridAt(a, b, rows, cols);
      SameCellsSameGrid(result.Cells(), SumGrid(a, b), rows, cols);
      return Ok(result);
    }
  }

  /** The matrix scenarios of the library's tests, replayed against the
      contracts above: construction errors, zero dimensions, write then
      read, the 2x2 sum and the dimension mismatch. */
  method Scenarios()
  {
    var bad := Matrix.Create(-1, 2);
    assert bad.Err?;
    bad := Matrix.Create(2, -1);
    assert bad.Err?;
    var empty := Matrix.Create(0, 5);
    assert empty.Ok?;
    var none := empty.value.Get(0, 0);
    assert none.Err?;

    var m1 := new Matrix(2, 2);
    var m2 := new Matrix(2, 2);
    var done := m1.Set(0, 0, 1);
    done := m1.Set(0, 1, 2);
    done := m1.Set(1, 0, 3);
    done := m1.Set(1, 1, 4);
    done := m2.Set(0, 0, 5);
    done := m2.Set(0, 1, 6);
    done := m2.Set(1, 0, 7);
    done := m2.Set(1, 1, 8);
    var sum := m1.Add(m2);
    var cell := sum.value.Get(0, 0);
    assert cell == Ok(6);
    cell := sum.value.Get(1, 1);
    assert cell == Ok(12);

    var m3 := new Matrix(3, 3);
    var mismatch := m1.Add(m3);
    assert mismatch.Err?;
  }
}
