/**
 * Fixed-width splitting of a sequence: the slices `s[i:i + size]` for
 * `i` in `range(0, len(s), size)`. The summariser splits its text this way
 * and the flashcard service its sentence list.
 */
module Chunking {
  import opened Base

  /** The consecutive slices of `s` of length `size`; the last one may be shorter. */
  function Chunks<T>(s: seq<T>, size: nat): (r: seq<seq<T>>)
    requires size > 0
    ensures r == [] <==> |s| == 0
    decreases |s|
  {
    if |s| == 0 then []
    else if |s| <= size then [s]
    else [s[..size]] + Chunks(s[size..], size)
  }

  /** The concatenation of `chunks`, in order. */
  function Flatten<T>(chunks: seq<seq<T>>): seq<T>
    decreases |chunks|
  {
    if |chunks| == 0 then [] else chunks[0] + Flatten(chunks[1..])
  }

  /** Chunk `i` is the slice that starts at `i * size`, as Python's slicing defines it. */
  lemma {:induction false} ChunkAt<T>(s: seq<T>, size: nat, i: nat)
    requires size > 0 && i < |Chunks(s, size)|
    ensures i * size < |s|
    ensures Chunks(s, size)[i] == s[i * size .. Min(i * size + size, |s|)]
    decreases |s|
  {
    if i > 0 {
      var rest := s[size..];
      assert Chunks(s, size)[i] == Chunks(rest, size)[i - 1];
      ChunkAt(rest, size, i - 1);
      var k := (i - 1) * size;
      assert k + size == i * size;
      var end := Min(k + size, |rest|);
      assert end + size == Min(i * size + size, |s|);
      assert forall m :: 0 <= m < end - k ==> rest[k..end][m] == s[k + size..end + size][m];
    }
  }

  /** Concatenating the chunks gives back the sequence, in order. */
  lemma {:induction false} FlattenChunks<T>(s: seq<T>, size: nat)
    requires size > 0
    ensures Flatten(Chunks(s, size)) == s
    decreases |s|
  {
    if |s| > size {
      FlattenChunks(s[size..], size);
      assert s == s[..size] + s[size..];
    } else if |s| > 0 {
      assert Flatten(Chunks(s, size)) == s + Flatten([]);
    }
  }

  /** Every chunk is non-empty and at most `size` long; all but the last are exactly `size` long. */
  lemma {:induction false} ChunkLengths<T>(s: seq<T>, size: nat)
    requires size > 0
    ensures forall i :: 0 <= i < |Chunks(s, size)| ==> 0 < |Chunks(s, size)[i]| <= size
    ensures forall i :: 0 <= i < |Chunks(s, size)| - 1 ==> |Chunks(s, size)[i]| == size
    decreases |s|
  {
    if |s| > size {
      ChunkLengths(s[size..], size);
      var c := Chunks(s, size);
      assert forall i :: 1 <= i < |c| ==> c[i] == Chunks(s[size..], size)[i - 1];
    }
  }

  /** There are ceil(|s| / size) chunks; in particular none for an empty sequence. */
  lemma {:induction false} ChunkCount<T>(s: seq<T>, size: nat)
    requires size > 0
    ensures (|Chunks(s, size)| - 1) * size < |s| <= |Chunks(s, size)| * size
    ensures |Chunks(s, size)| == (|s| + size - 1) / size
    ensures |Chunks(s, size)| == 0 <==> |s| == 0
  {
    var n := |Chunks(s, size)|;
    ChunkBounds(s, size);
    if n > 0 {
      DivUnique(|s| + size - 1, size, n, |s| + size - 1 - n * size);
    }
  }

  /** The chunk count as bounds: `(n - 1) * size < |s| <= n * size`. */
  lemma {:induction false} ChunkBounds<T>(s: seq<T>, size: nat)
    requires size > 0
    ensures (|Chunks(s, size)| - 1) * size < |s| <= |Chunks(s, size)| * size
    decreases |s|
  {
    if |s| > size {
      var rest := s[size..];
      ChunkBounds(rest, size);
      var m := |Chunks(rest, size)|;
      assert |Chunks(s, size)| == m + 1;
      assert (m + 1) * size == m * size + size;
      assert m * size == (m - 1) * size + size;
      assert |s| == |rest| + size;
    }
  }

  /** Euclidean division is determined by quotient and remainder. */
  lemma DivUnique(x: int, d: int, q: int, r: int)
    requires d > 0 && 0 <= r < d && x == q * d + r
    ensures x / d == q
  {
    var q', r' := x / d, x % d;
    assert x == q' * d + r';
    assert (q - q') * d == r' - r;
    if q > q' {
      assert (q - q') * d >= d by { MulAtLeast(q - q', d); }
    } else if q < q' {
      assert (q' - q) * d >= d by { MulAtLeast(q' - q, d); }
    }
  }

  lemma MulAtLeast(a: int, d: int)
    requires a >= 1 && d > 0
    ensures a * d >= d
  {
  }
}
