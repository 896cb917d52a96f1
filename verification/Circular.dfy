/** Circular buffers: which cells hold the queued elements, oldest first. */
module Circular {

  lemma Wraps(x: nat, size: nat)
    requires x < 2 * size
    ensures x % size == if x < size then x else x - size
  {
    if x >= size {
      assert (x - size) % size == x - size;
      assert x == (x - size) + size;
      assert x / size == 1 by {
        assert size <= x < 2 * size;
      }
    }
  }

  /** Where the `i`-th oldest element is kept. */
  function Cell(size: nat, head: nat, i: nat): (c: nat)
    requires head < size && i <= size
    ensures c < size && c == if head + i < size then head + i else head + i - size
  {
    Wraps(head + i, size);
    (head + i) % size
  }

  /** The queued elements, oldest first. */
  function Ring<T>(q: seq<T>, head: nat, count: nat): (r: seq<T>)
    requires head < |q| && count <= |q|
    ensures |r| == count
  {
    seq(count, i requires 0 <= i < count => q[Cell(|q|, head, i)])
  }

  lemma Pushed<T>(q: seq<T>, head: nat, count: nat, x: T)
    requires head < |q| && count < |q|
    ensures Ring(q[Cell(|q|, head, count) := x], head, count + 1) == Ring(q, head, count) + [x]
  {
  }

  lemma Popped<T>(q: seq<T>, head: nat, count: nat)
    requires head < |q| && 0 < count <= |q|
    ensures q[head] == Ring(q, head, count)[0]
    ensures Ring(q, Cell(|q|, head, 1), count - 1) == Ring(q, head, count)[1..]
  {
  }

  lemma Updated<T>(q: seq<T>, head: nat, count: nat, off: nat, x: T)
    requires head < |q| && off < count <= |q|
    ensures Ring(q[Cell(|q|, head, off) := x], head, count) == Ring(q, head, count)[off := x]
  {
  }

  /** Dropping the newest element. */
  lemma Shrunk<T>(q: seq<T>, head: nat, count: nat)
    requires head < |q| && 0 < count <= |q|
    ensures Ring(q, head, count - 1) == Ring(q, head, count)[..count - 1]
  {
  }
}
