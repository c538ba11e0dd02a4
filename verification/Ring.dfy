/** Sequences stored in a ring: `n` elements from position `first`, wrapping at the end of the buffer. */
module Ring {

  // The position `i` places after `first`, in a buffer of `size` slots.
  function At(first: nat, i: nat, size: nat): (p: nat)
    requires first < size && i <= size
    ensures p < size
  {
    if first + i < size then first + i else first + i - size
  }

  function Contents<T>(buf: seq<T>, first: nat, n: nat): (s: seq<T>)
    requires first < |buf| && n <= |buf|
    ensures |s| == n
  {
    seq(n, i requires 0 <= i < n => buf[At(first, i, |buf|)])
  }

  // Walking `i` places and then `j` more is walking `i + j` places.
  lemma AtAdd(first: nat, i: nat, j: nat, size: nat)
    requires first < size && i + j <= size
    ensures At(At(first, i, size), j, size) == At(first, i + j, size)
  {
  }

  // Writing the first free slot appends one element and leaves the others alone.
  lemma PutAppends<T>(buf: seq<T>, first: nat, n: nat, x: T)
    requires first < |buf| && n < |buf|
    ensures Contents(buf[At(first, n, |buf|) := x], first, n + 1) == Contents(buf, first, n) + [x]
  {
  }

  // Dropping the first `k` elements advances the start by `k` places.
  lemma DropAdvances<T>(buf: seq<T>, first: nat, n: nat, k: nat)
    requires first < |buf| && k <= n <= |buf|
    ensures Contents(buf, first, n) == Contents(buf, first, k) + Contents(buf, At(first, k, |buf|), n - k)
  {
  }

  // The elements that do not wrap are a slice of the buffer.
  lemma StraightSlice<T>(buf: seq<T>, first: nat, n: nat)
    requires first < |buf| && first + n <= |buf|
    ensures Contents(buf, first, n) == buf[first..first + n]
  {
  }
}
