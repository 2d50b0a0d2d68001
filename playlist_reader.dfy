/** The remote state reader `get_current_playlist`: it asks the remote for the page of
    the playlist at an offset, starting at 0 and advancing by each page's length, and
    gathers the pages' track URLs until a page comes back empty. The remote is a page
    source, a function from offset to the URLs of the page served there. */
module PlaylistReader {
  import opened SeqUtil
  import Batching

  type PageSource = nat -> seq<string>

  /** From offset `bound` on, the source serves only empty pages: the playlist is finite.
      Against a source that never does, the reader's loop does not end. */
  ghost predicate RunsDry(fetch: PageSource, bound: nat) {
    forall o: nat :: bound <= o ==> fetch(o) == []
  }

  /** The non-empty pages the reader receives from `offset` on, up to the first empty one. */
  ghost function Pages(fetch: PageSource, offset: nat, bound: nat): seq<seq<string>>
    requires RunsDry(fetch, bound)
    decreases bound - offset
  {
    var page := fetch(offset);
    if page == [] then [] else [page] + Pages(fetch, offset + |page|, bound)
  }

  /** The loop of `get_current_playlist`. `requests` records the offset of every page
      request in order: the first is 0, each following one is the previous plus the
      length of the page it returned (the number of URLs read so far), every page but
      the last is non-empty and the last is empty. `urls` is the concatenation of the
      pages before the first empty one, so one request more is made than there are
      non-empty pages. */
  method ReadPlaylist(fetch: PageSource, ghost bound: nat) returns (urls: seq<string>, requests: seq<nat>)
    requires RunsDry(fetch, bound)
    ensures urls == Flatten(Pages(fetch, 0, bound))
    ensures |requests| == |Pages(fetch, 0, bound)| + 1
    ensures forall k :: 0 <= k < |requests| ==> requests[k] == |Flatten(Pages(fetch, 0, bound)[..k])|
    ensures forall k :: 0 <= k < |requests| - 1 ==> fetch(requests[k]) == Pages(fetch, 0, bound)[k] != []
    ensures fetch(requests[|requests| - 1]) == []
  {
    ghost var all := Pages(fetch, 0, bound);
    ghost var done: nat := 0;
    var offset: nat := 0;
    urls := [];
    requests := [];
    while true
      invariant done == |requests| <= |all|
      invariant Pages(fetch, offset, bound) == all[done..]
      invariant urls == Flatten(all[..done])
      invariant offset == |urls|
      invariant forall k :: 0 <= k < done ==> requests[k] == |Flatten(all[..k])|
      invariant forall k :: 0 <= k < done ==> fetch(requests[k]) == all[k] != []
      decreases bound - offset
    {
      requests := requests + [offset];
      var page := fetch(offset);
      if page == [] {
        assert all[done..] == [];
        break;
      }
      assert all[done] == page && all[done + 1..] == Pages(fetch, offset + |page|, bound);
      assert all[..done + 1] == all[..done] + [page];
      FlattenAppend(all[..done], [page]);
      assert Flatten([page]) == page + Flatten([]);
      offset := offset + |page|;
      urls := urls + page;
      done := done + 1;
    }
    assert all[..done] == all;
  }

  /** A remote that serves `members` in pages of `limit` items: the page at an offset
      is the slice of the playlist that starts there, empty past its end. */
  function Paged(members: seq<string>, limit: nat): PageSource
    requires limit > 0
  {
    (o: nat) => members[Min(o, |members|) .. Min(o + limit, |members|)]
  }

  lemma PagedRunsDry(members: seq<string>, limit: nat)
    requires limit > 0
    ensures RunsDry(Paged(members, limit), |members|)
  {
  }

  /** Against such a remote the reader receives the playlist cut in the batcher's slices
      of `limit` items. */
  lemma {:induction false} PagesOfPaged(members: seq<string>, limit: nat, offset: nat)
    requires limit > 0 && offset <= |members|
    ensures RunsDry(Paged(members, limit), |members|)
    ensures Pages(Paged(members, limit), offset, |members|) == Batching.Chunks(members[offset..], limit)
    decreases |members| - offset
  {
    PagedRunsDry(members, limit);
    var fetch := Paged(members, limit);
    var rest := members[offset..];
    if offset == |members| {
      assert fetch(offset) == [];
    } else if |rest| <= limit {
      assert fetch(offset) == rest;
      assert fetch(|members|) == [];
    } else {
      assert fetch(offset) == rest[..limit];
      PagesOfPaged(members, limit, offset + limit);
      assert rest[limit..] == members[offset + limit..];
    }
  }

  /** Against such a remote the reader returns the whole playlist, in order, after
      ceil(|members| / limit) + 1 requests. */
  lemma ReadsWholePlaylist(members: seq<string>, limit: nat)
    requires limit > 0
    ensures RunsDry(Paged(members, limit), |members|)
    ensures Flatten(Pages(Paged(members, limit), 0, |members|)) == members
    ensures |Pages(Paged(members, limit), 0, |members|)| + 1 == (|members| + limit - 1) / limit + 1
  {
    PagesOfPaged(members, limit, 0);
    assert members[0..] == members;
    Batching.ChunksFlatten(members, limit);
    Batching.ChunkCount(members, limit);
  }

  /** A playlist of 100 tracks served 50 at a time is read as pages of 50, 50 and 0:
      100 URLs after 3 requests. */
  lemma ReadsHundredInThreeRequests(members: seq<string>)
    requires |members| == 100
    ensures RunsDry(Paged(members, 50), 100)
    ensures |Flatten(Pages(Paged(members, 50), 0, 100))| == 100
    ensures |Pages(Paged(members, 50), 0, 100)| + 1 == 3
  {
    ReadsWholePlaylist(members, 50);
  }
}
