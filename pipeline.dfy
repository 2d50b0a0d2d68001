/** The driver `main`: scan the chat log, read the playlist, diff, and add the missing
    links in batches. The prompts, the file read, authentication and the remote
    endpoints are parameters: the pattern's matches come from `findUrls`, the log text
    is `rawLog`, `authorised` says whether a token was granted, the playlist is read
    from the page source `fetch`, and `writeOk(k)` says whether the remote accepts the
    k-th write (a refused write raises and ends the run). */
module Pipeline {
  import opened SeqUtil
  import Batching
  import LinkScanner
  import Reconciler
  import PlaylistReader

  /** The most links one call to the playlist write endpoint carries. */
  const BatchSize: nat := 99

  /** What a run reports: the number of links scanned; then, once authorised, the number
      of URLs already in the playlist, the number of links to add, the batches written,
      and whether every batch was written. */
  datatype Report =
    | Unauthorised(scanned: nat)
    | Ran(scanned: nat, inPlaylist: nat, toAdd: nat, written: seq<seq<string>>, completed: bool)

  /** The submission loop: one write per batch of the diff, in order, stopping at the
      first write the remote refuses. What was written before a refusal stays written. */
  method SubmitBatches(diff: seq<string>, writeOk: nat -> bool) returns (written: seq<seq<string>>, failed: bool)
    ensures written <= Batching.Chunks(diff, BatchSize)
    ensures failed <==> |written| < |Batching.Chunks(diff, BatchSize)|
    ensures forall k :: 0 <= k < |written| ==> writeOk(k)
    ensures failed ==> !writeOk(|written|)
    ensures forall w :: w in written ==> 0 < |w| <= BatchSize
    ensures !failed ==> Flatten(written) == diff && |written| == (|diff| + BatchSize - 1) / BatchSize
  {
    var chunked := Batching.ChunksLoop(diff, BatchSize);
    var batches := chunked.value;
    written := [];
    var k := 0;
    while k < |batches|
      invariant k <= |batches|
      invariant written == batches[..k]
      invariant forall j :: 0 <= j < k ==> writeOk(j)
    {
      if !writeOk(k) {
        return written, true;
      }
      written := written + [batches[k]];
      k := k + 1;
    }
    assert batches[..k] == batches;
    Batching.ChunksFlatten(diff, BatchSize);
    Batching.ChunkCount(diff, BatchSize);
    failed := false;
  }

  /** One run of `main` after the prompts: extract, authorise, read, diff, submit. */
  method Sync(findUrls: string -> seq<string>, rawLog: string, authorised: bool,
              fetch: PlaylistReader.PageSource, ghost bound: nat, writeOk: nat -> bool)
    returns (report: Report)
    requires PlaylistReader.RunsDry(fetch, bound)
    ensures report.scanned == |LinkScanner.ExtractTracks(findUrls(rawLog))|
    ensures report.Unauthorised? <==> !authorised
    ensures report.Ran? ==>
      var current := Flatten(PlaylistReader.Pages(fetch, 0, bound));
      var diff := Reconciler.Diff(LinkScanner.ExtractTracks(findUrls(rawLog)), current);
      && report.inPlaylist == |current|
      && report.toAdd == |diff|
      && report.written <= Batching.Chunks(diff, BatchSize)
      && (forall k :: 0 <= k < |report.written| ==> writeOk(k))
      && (report.completed <==> report.written == Batching.Chunks(diff, BatchSize))
      && (report.completed ==> Flatten(report.written) == diff)
      && (!report.completed ==> !writeOk(|report.written|))
  {
    var logTracks := LinkScanner.ExtractTracks(findUrls(rawLog));
    if !authorised {
      return Unauthorised(|logTracks|);
    }
    var current, _ := PlaylistReader.ReadPlaylist(fetch, bound);
    var diff := Reconciler.Diff(logTracks, current);
    var written, failed := SubmitBatches(diff, writeOk);
    report := Ran(|logTracks|, |current|, |diff|, written, !failed);
  }

  /** A log holding one track link three times, once with a tracking suffix, against a
      playlist without it: three links scanned, three to add, sent in one write of
      three copies of the bare link. */
  lemma OneWriteForThreeRepeats(link: string, suffix: string, current: seq<string>)
    requires LinkScanner.IsTrackLink(link) && '?' !in link
    requires suffix != [] && suffix[0] == '?'
    requires link !in current
    ensures LinkScanner.ExtractTracks([link + suffix, link, link]) == [link, link, link]
    ensures Reconciler.Diff([link, link, link], current) == [link, link, link]
    ensures Batching.Chunks([link, link, link], BatchSize) == [[link, link, link]]
  {
    LinkScanner.ExtractKeepsRepeats(link, suffix);
    var l := [link, link, link];
    assert l[1..] == [link, link] && l[1..][1..] == [link] && l[1..][1..][1..] == [];
    assert Reconciler.Diff([link], current) == [link];
    assert Reconciler.Diff([link, link], current) == [link, link];
  }
}
