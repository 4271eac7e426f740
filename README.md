# dsa::Matrix — a verified model

This project models `dsa::Matrix`, a grid of `int`s whose dimensions are
fixed when it is built. The grid is stored as a `dsa::Vector` of row
`dsa::Vector`s. It has three operations:

- the `Matrix(r, c)` constructor rejects negative dimensions with
  `std::out_of_range`. Otherwise it fills `r` rows of `c` zeros.
- `operator()(i, j)` gives checked access to one cell through
  `data.at(i).at(j)`.
- `operator+` rejects operands whose dimensions differ. Otherwise it builds a
  fresh grid and fills it cell by cell with the sums.

Files:

- `errors.dfy` (module `Errors`): the single error kind, `OutOfRange`. It
  also holds the `Result`/`Outcome` types that stand in for the thrown
  exception.
- `vector.dfy` (module `Vectors`): an abstract `dsa::Vector<T>` with only
  what the grid uses.
  - Its contents are the live elements as a `seq`, plus the capacity as a
    number.
  - It supports checked `at` and writes through the reference `at`
    returns (`SetAt`), plus `push_back` and `reserve`.
  - `Vector` is a datatype, so it is a value: a copy is independent of its
    source. `data.push_back(row_vec)` relies on this.
- `grids.dfy` (module `Grids`): reference definitions over `seq<seq<int>>`.
  - `Shaped` is the shape invariant.
  - `ZeroGrid` is the grid the constructor builds, appended row by row.
  - `SumGrid` is the cell-wise sum.
  - Lemmas give the cell-level meaning of each.
- `matrix.dfy` (module `Matrices`): the class `Matrix`.
  - Its fields are `rows`, `cols` and `data: Vector<Vector<int>>`.
  - Its invariant `Valid()` says that `data` has `rows` rows and that each
    row has exactly `cols` cells.
  - The constructor and `Add` keep the source's nested loops, with their
    loop invariants.
  - The `int&` accessor is split into a reading `Get` and a writing `Set`.
  - The throwing constructor is the static method `Create`. It performs the
    dimension check, then runs the loop-building constructor.
  - `Scenarios` replays the matrix test cases against the contracts: a
    negative dimension, zero dimensions, the 2x2 sum and the 2x2 + 3x3
    mismatch.

## Model

| member | source | states |
|---|---|---|
| Vectors.Vector.At | tests/test_vector_1.cpp:80-91 | `at(k)` succeeds iff `0 <= k < size` and then yields element `k`; any other index, negative or too large, is out-of-range |
| Vectors.Vector.SetAt | include/matrix.hpp:47-49 | writing through `at(k)` needs the same range check; on success only slot `k` changes, to the written value, and length and capacity stay the same |
| Vectors.Vector.PushBack | tests/test_vector_1.cpp:132-138 | `push_back(x)` grows the size by one, puts `x` last, keeps the earlier elements in order and keeps `size <= capacity` |
| Vectors.Vector.Reserve | tests/test_vector_1.cpp:236-253 | `reserve(n)` leaves the elements and size unchanged; capacity becomes exactly `n` when it grows and never shrinks |
| Vectors.Empty | include/matrix.hpp:37 | a default-constructed row vector is valid and empty |
| Vectors.PushAllAppends | tests/test_vector_1.cpp:134-138 | appending values one by one yields exactly those values after the existing ones, in order |
| Vectors.PushBackThenAt | tests/test_vector_1.cpp:134-138 | after `push_back(x)` every earlier index reads as before, index `size` reads `x`, and exactly the indices `0..size` succeed |
| Vectors.SetAtThenAt | include/matrix.hpp:47-49 | a written slot reads back the written value; every other index reads as before |
| Vectors.ReserveThenAt | include/matrix.hpp:33-38 | the `reserve` calls in the constructor change what no index reads |
| Grids.ZerosAreZero | include/matrix.hpp:38-41 | `c` appends of 0 give a row of `c` cells, all 0 |
| Grids.ZeroGridIsZero | include/matrix.hpp:30-43 | the grid the constructor builds has `r` rows of `c` cells, every cell 0 |
| Grids.SumRowAt | include/matrix.hpp:59-61 | one row of the sum has the operands' length, and each cell is the sum of the operands' cells |
| Grids.SumGridAt | include/matrix.hpp:57-62 | the grid sum has the operands' shape, and cell `(i,j)` is `a(i,j) + b(i,j)` |
| Matrices.Matrix.constructor | include/matrix.hpp:30-43 | after the nested reserve/push_back loops, `rows == r`, `cols == c`, the shape invariant holds and the cells are exactly `ZeroGrid(r, c)` |
| Matrices.Matrix.Create | include/matrix.hpp:26-44 | construction fails with out-of-range iff `r < 0` or `c < 0`, and then no grid is produced; zero dimensions are accepted; otherwise a fresh valid grid with `rows == r`, `cols == c` and every cell 0 |
| Matrices.Matrix.Get | include/matrix.hpp:47-49 | reading `(i, j)` succeeds iff `0 <= i < rows` and `0 <= j < cols`, and yields that cell |
| Matrices.Matrix.Set | include/matrix.hpp:47-49 | writing `(i, j)` succeeds iff both indices are in range; the cell then reads back the written value, no other cell changes, the dimensions never change, and a failed write changes nothing |
| Matrices.Matrix.Add | include/matrix.hpp:53-64 | out-of-range iff `rows` or `cols` differ; otherwise a fresh valid grid of the same dimensions whose cell `(i,j)` is `this(i,j) + other(i,j)`, equal to `SumGrid`; both operands are unchanged |

## Left out

- The internals of `dsa::Vector` are not part of this model: its buffer, reallocation, `shrink`/`shrink_to_fit`, iterators, `pop_back`, `insert`/`erase`, `front`/`back`, and the copy and move operations. Only the contracts the grid uses are modelled.
- Vectors.Vector.PushBack: the capacity grows to `max(1, 2 * capacity)` when the buffer is full. This follows the growth sequence stated in the comment at tests/test_vector_1.cpp:133. The vector's own code is not part of this model.
- Matrices.Matrix.Add: cell sums are mathematical integers. Signed 32-bit overflow in `(*this)(i, j) + other(i, j)` is undefined behaviour in C++, and nothing in the source specifies it.
- Matrices.Matrix.Create: the exception's message text ("Negative dimensions", "Dimensions must match") is not modelled, only its kind.
- Matrices.Matrix.Get: the reference returned by `operator()` is split into `Get` and `Set`. Aliasing a cell through a reference that is kept after the call is not modelled.
- The Catch2 test harness, the use-after-move checks and the vector-of-vectors integration test are test plumbing and are not modelled.
