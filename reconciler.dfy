/** The reconciler of `main`: the scanned track links that the playlist does not hold
    yet, in scan order. The playlist's contents arrive as the list the reader built,
    and membership is a test against that list. */
module Reconciler {
  import opened SeqUtil

  /** `[x for x in log_tracks if x not in current_playlist_urls]`. */
  function Diff(logTracks: seq<string>, current: seq<string>): (r: seq<string>)
    ensures |r| <= |logTracks|
    ensures forall x :: x in r ==> x in logTracks && x !in current
    ensures IsSubsequence(r, logTracks)
  {
    if logTracks == [] then []
    else
      var rest := Diff(logTracks[1..], current);
      if logTracks[0] in current then rest
      else
        assert ([logTracks[0]] + rest)[1..] == rest;
        [logTracks[0]] + rest
  }

  /** Each link missing from the playlist is kept as often as it was scanned, and a link
      the playlist holds is never kept: the diff does not deduplicate. */
  lemma {:induction false} DiffCounts(logTracks: seq<string>, current: seq<string>, x: string)
    ensures multiset(Diff(logTracks, current))[x] ==
      if x in current then 0 else multiset(logTracks)[x]
  {
    if logTracks != [] {
      DiffCounts(logTracks[1..], current, x);
      assert logTracks == [logTracks[0]] + logTracks[1..];
      assert multiset(logTracks) == multiset([logTracks[0]]) + multiset(logTracks[1..]);
    }
  }

  /** Every scanned link the playlist lacks is in the diff. */
  lemma DiffKeepsMissing(logTracks: seq<string>, current: seq<string>, x: string)
    requires x in logTracks && x !in current
    ensures x in Diff(logTracks, current)
  {
    DiffCounts(logTracks, current, x);
    assert multiset(logTracks)[x] > 0;
  }

  /** The diff is computed element by element, so it distributes over concatenation. */
  lemma {:induction false} DiffAppend(a: seq<string>, b: seq<string>, current: seq<string>)
    ensures Diff(a + b, current) == Diff(a, current) + Diff(b, current)
  {
    if a == [] {
      assert a + b == b;
    } else {
      assert (a + b)[0] == a[0];
      assert (a + b)[1..] == a[1..] + b;
      DiffAppend(a[1..], b, current);
    }
  }

  /** Diffing ["a", "b", "c"] against a playlist holding "b" leaves ["a", "c"]. */
  lemma DiffExample()
    ensures Diff(["a", "b", "c"], ["b"]) == ["a", "c"]
  {
    assert ["a", "b", "c"][1..] == ["b", "c"];
    assert ["b", "c"][1..] == ["c"];
    assert ["c"][1..] == [];
    assert "a" != "b" && "c" != "b";
  }
}
