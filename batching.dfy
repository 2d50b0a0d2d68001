/** The batcher `chunks(_list, n)`: successive contiguous slices of at most n items. */
module Batching {
  import opened SeqUtil

  /** The slices `chunks(xs, n)` yields for a positive n: every slice holds n items
      except the last, which holds what remains; an empty list yields no slice. */
  function Chunks<T>(xs: seq<T>, n: nat): (r: seq<seq<T>>)
    requires n > 0
    ensures forall i :: 0 <= i < |r| ==> 0 < |r[i]| <= n
    ensures forall i :: 0 <= i < |r| - 1 ==> |r[i]| == n
    decreases |xs|
  {
    if xs == [] then []
    else if |xs| <= n then [xs]
    else
      [xs[..n]] + Chunks(xs[n..], n)
  }

  /** Concatenating the slices gives back the list. */
  lemma {:induction false} ChunksFlatten<T>(xs: seq<T>, n: nat)
    requires n > 0
    ensures Flatten(Chunks(xs, n)) == xs
    decreases |xs|
  {
    if xs != [] && |xs| > n {
      var rest := Chunks(xs[n..], n);
      assert ([xs[..n]] + rest)[1..] == rest;
      ChunksFlatten(xs[n..], n);
      assert xs[..n] + xs[n..] == xs;
    }
  }

  /** There are ceil(|xs| / n) slices: k slices hold more than (k - 1) * n items and
      at most k * n. */
  lemma {:induction false} ChunkCountBounds<T>(xs: seq<T>, n: nat)
    requires n > 0
    ensures var k := |Chunks(xs, n)|; (k - 1) * n < |xs| <= k * n
    decreases |xs|
  {
    if xs != [] && |xs| > n {
      ChunkCountBounds(xs[n..], n);
      MulSucc(|Chunks(xs[n..], n)|, n);
    }
  }

  lemma {:induction false} ChunkCount<T>(xs: seq<T>, n: nat)
    requires n > 0
    ensures |Chunks(xs, n)| == (|xs| + n - 1) / n
  {
    var k := |Chunks(xs, n)|;
    ChunkCountBounds(xs, n);
    MulSucc(k - 1, n);
    DivUnique(|xs| + n - 1, n, k);
  }

  lemma MulSucc(k: int, n: int)
    ensures (k + 1) * n == k * n + n
  {
  }

  lemma DivUnique(a: int, n: int, q: int)
    requires n > 0 && q * n <= a < q * n + n
    ensures a / n == q
  {
    var d := a / n;
    assert d * n <= a < d * n + n;
    if d < q {
      MulMono(d + 1, q, n);
      MulSucc(d, n);
    } else if d > q {
      MulMono(q + 1, d, n);
      MulSucc(q, n);
    }
  }

  lemma MulMono(x: int, y: int, n: int)
    requires x <= y && n > 0
    ensures x * n <= y * n
  {
  }

  /** Slice i is the index range [i*n, min(i*n + n, |xs|)) of xs. */
  lemma {:induction false} ChunkAt<T>(xs: seq<T>, n: nat, i: nat)
    requires n > 0 && i < |Chunks(xs, n)|
    ensures i * n < |xs|
    ensures Chunks(xs, n)[i] == xs[i * n .. Min(i * n + n, |xs|)]
    decreases |xs|
  {
    if i > 0 {
      assert |xs| > n;
      ChunkAt(xs[n..], n, i - 1);
      assert (i - 1) * n + n == i * n;
    }
  }

  /** 250 items in slices of 99 give slices of 99, 99 and 52 items, in that order. */
  lemma ChunkSizesOf250By99<T>(xs: seq<T>)
    requires |xs| == 250
    ensures |Chunks(xs, 99)| == 3
    ensures Chunks(xs, 99) == [xs[..99], xs[99..198], xs[198..]]
  {
    ChunkCount(xs, 99);
    ChunkAt(xs, 99, 0);
    ChunkAt(xs, 99, 1);
    ChunkAt(xs, 99, 2);
    var c := Chunks(xs, 99);
    assert c == [c[0], c[1], c[2]];
    assert xs[198..250] == xs[198..];
  }

  /** The generator loop: `i` steps through `range(0, len(xs), n)` and each step yields
      `xs[i : i + n]`, a slice Python clips at the end of the list. A zero step makes
      `range` raise (None here); a negative step gives an empty range. */
  method ChunksLoop<T>(xs: seq<T>, n: int) returns (r: Option<seq<seq<T>>>)
    ensures r.None? <==> n == 0
    ensures n > 0 ==> r == Some(Chunks(xs, n))
    ensures n < 0 ==> r == Some([])
  {
    if n == 0 {
      return None;
    }
    if n < 0 {
      return Some([]);
    }
    var batches: seq<seq<T>> := [];
    var i := 0;
    while i < |xs|
      invariant 0 <= i
      invariant batches + Chunks(xs[Min(i, |xs|)..], n) == Chunks(xs, n)
    {
      var chunk := xs[i .. Min(i + n, |xs|)];
      var tail := xs[i..];
      if |tail| <= n {
        assert chunk == tail;
        assert Chunks(tail, n) == [chunk];
        assert xs[Min(i + n, |xs|)..] == [];
      } else {
        assert tail[..n] == chunk;
        assert tail[n..] == xs[i + n..];
        assert Chunks(tail, n) == [chunk] + Chunks(xs[i + n..], n);
      }
      batches := batches + [chunk];
      i := i + n;
    }
    assert xs[Min(i, |xs|)..] == [];
    assert batches + [] == batches;
    return Some(batches);
  }
}
