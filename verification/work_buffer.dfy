/** A fixed-capacity C array together with the count of its slots written
    so far, as the loader keeps its vertices and indices while it reads. */
module WorkBuffer {

  /** `cells` is the whole allocation; the first `count` cells are the
      entries written. */
  datatype Buffer<T> = Buffer(cells: seq<T>, count: nat)

  predicate Valid<T>(b: Buffer<T>) {
    b.count <= |b.cells|
  }

  /** A fresh allocation: its cells hold whatever `malloc` returned. */
  function Allocate<T>(heap: seq<T>): (b: Buffer<T>)
    ensures Valid(b) && |b.cells| == |heap|
    ensures Written(b) == []
  {
    Buffer(heap, 0)
  }

  /** The entries written so far: what the final `memcpy` copies out. */
  function Written<T>(b: Buffer<T>): (r: seq<T>)
    requires Valid(b)
    ensures |r| == b.count
  {
    b.cells[..b.count]
  }

  /** `array[count++] = x`, for a count inside the allocation. */
  function Append<T>(b: Buffer<T>, x: T): (r: Buffer<T>)
    requires Valid(b) && b.count < |b.cells|
    ensures Valid(r) && |r.cells| == |b.cells|
    ensures Written(r) == Written(b) + [x]
  {
    Buffer(b.cells[b.count := x], b.count + 1)
  }
}
