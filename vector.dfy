/** An abstract model of `dsa::Vector<T>` holding only what the grid relies
    on: the live elements in order, the allocated capacity as a number,
    checked access, appending and reserving. A `Vector` is a value, so a copy
    is independent of its source, as the C++ copy constructor promises. */
module Vectors {
  import opened Errors

  datatype Vector<T> = Vector(elems: seq<T>, capacity: nat)
  {
    /** The live elements always fit in the allocated slots. */
    predicate Valid() { |elems| <= capacity }

    function Size(): nat { |elems| }

    /** `at(k)`: the element at `k`, or out-of-range unless `0 <= k < size`. */
    function At(k: int): (r: Result<T>)
      ensures r.Ok? <==> 0 <= k < |elems|
      ensures r.Ok? ==> r.value == elems[k]
    {
      if 0 <= k < |elems| then Ok(elems[k]) else Err(OutOfRange)
    }

    /** Assignment through the reference `at(k)` returns: the same range
        check, then only slot `k` changes. */
    function SetAt(k: int, x: T): (r: Result<Vector<T>>)
      ensures r.Ok? <==> 0 <= k < |elems|
      ensures r.Ok? ==> |r.value.elems| == |elems| && r.value.capacity == capacity
      ensures r.Ok? ==> r.value.elems[k] == x
      ensures r.Ok? ==> forall m :: 0 <= m < |elems| && m != k ==> r.value.elems[m] == elems[m]
    {
      if 0 <= k < |elems| then Ok(Vector(elems[k := x], capacity)) else Err(OutOfRange)
    }

    /** `push_back(x)`: `x` becomes the last element, the earlier ones keep
        their positions; a full buffer first doubles (from 0 to 1). */
    function PushBack(x: T): (r: Vector<T>)
      requires Valid()
      ensures r.Valid()
      ensures |r.elems| == |elems| + 1 && r.elems[|elems|] == x
      ensures r.elems[..|elems|] == elems
      ensures r.capacity >= capacity
    {
      var grown := if |elems| < capacity then capacity
                   else if capacity == 0 then 1 else 2 * capacity;
      Vector(elems + [x], grown)
    }

    /** `reserve(n)`: capacity becomes at least `n` (exactly `n` when it
        grows, never smaller); size and elements are untouched. */
    function Reserve(n: nat): (r: Vector<T>)
      requires Valid()
      ensures r.Valid()
      ensures r.elems == elems
      ensures r.capacity >= n && r.capacity >= capacity
      ensures capacity < n ==> r.capacity == n
      ensures n <= capacity ==> r.capacity == capacity
    {
      if n <= capacity then this else Vector(elems, n)
    }

    /** The vector after `push_back` of each of `xs`, in order. */
    function PushAll(xs: seq<T>): (r: Vector<T>)
      requires Valid()
      decreases |xs|
    {
      if xs == [] then this else PushBack(xs[0]).PushAll(xs[1..])
    }
  }

  /** A default-constructed vector: no elements, no allocation. */
  function Empty<T>(): (v: Vector<T>)
    ensures v.Valid() && v.Size() == 0
  {
    Vector([], 0)
  }

  /** Appending values one at a time yields exactly those values after the
      existing ones, in the order they were appended. */
  lemma {:induction false} PushAllAppends<T>(v: Vector<T>, xs: seq<T>)
    requires v.Valid()
    ensures v.PushAll(xs).Valid()
    ensures v.PushAll(xs).elems == v.elems + xs
    decreases |xs|
  {
    if xs != [] {
      var w := v.PushBack(xs[0]);
      assert w.elems == v.elems + [xs[0]];
      PushAllAppends(w, xs[1..]);
      assert [xs[0]] + xs[1..] == xs;
      assert v.elems + [xs[0]] + xs[1..] == v.elems + xs;
    }
  }

  /** After a push_back every earlier index reads the same element and the
      new last index reads the appended value. */
  lemma PushBackThenAt<T>(v: Vector<T>, x: T, k: int)
    requires v.Valid()
    ensures 0 <= k < v.Size() ==> v.PushBack(x).At(k) == v.At(k)
    ensures v.PushBack(x).At(v.Size()) == Ok(x)
    ensures v.PushBack(x).At(k).Ok? <==> 0 <= k <= v.Size()
  {
    if 0 <= k < v.Size() {
      assert v.PushBack(x).elems[..v.Size()][k] == v.elems[k];
    }
  }

  /** Writing slot `k` and reading it back yields the written value; every
      other index reads as before. */
  lemma SetAtThenAt<T>(v: Vector<T>, k: int, x: T, m: int)
    requires 0 <= k < v.Size()
    ensures v.SetAt(k, x).value.At(k) == Ok(x)
    ensures m != k ==> v.SetAt(k, x).value.At(m) == v.At(m)
  {
  }

  /** Reserving never changes what any index reads. */
  lemma ReserveThenAt<T>(v: Vector<T>, n: nat, k: int)
    requires v.Valid()
    ensures v.Reserve(n).At(k) == v.At(k)
  {
  }
}
