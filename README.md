# whatsapp_spotify link pipeline, modelled in Dafny

`main.py` reads an exported WhatsApp chat and pulls out every Spotify track link. It
reads the target playlist page by page, keeps the scanned links the playlist does not
hold yet, and adds them to the playlist in batches of at most 99. This project models
the four pieces of that script that carry logic, and proves what they promise:

- **Batcher** (`chunks`), module `Batching`. `Chunks` is the slicing as a recursive
  function. `ChunksLoop` is the generator's loop over `range(0, len(xs), n)`. It also
  covers Python's behaviour for a zero step (`range` raises) and a negative step
  (nothing is yielded).
- **Link scanner** (the comprehension in `extract_from_log_file`), module
  `LinkScanner`. Each candidate the URL pattern found is cut at its first `?`. This
  models `re.findall(r"^([^?]+)", link)`, which finds nothing when the candidate is empty
  or starts with `?`. The cut link is kept only if it starts with
  `https://open.spotify.com/track`.
- **Reconciler** (the comprehension on `diff` in `main`), module `Reconciler`. It keeps
  the scanned links that are not in the playlist's URL list, in scan order, including
  repeats.
- **Playlist reader** (`get_current_playlist`), module `PlaylistReader`. An imperative
  loop advances an offset by each page's length and appends each page's URLs, until a
  page comes back empty. The remote is a page source: a function from offset to the
  page's URLs.
- **Driver** (the rest of `main`), module `Pipeline`. `SubmitBatches` is the write loop,
  one write per batch of 99. `Sync` is one run: extract, check authorisation, read,
  diff, submit. It returns what the script reports.

`SeqUtil` holds the shared helpers: `Option`, `Flatten`, `Filter` and `IsSubsequence`.

Points about the script that the model keeps as they are:
- The playlist's contents are a list, and `x not in current_playlist_urls` is a test
  against that list, not a set.
- The script has no dry-run mode and no option to deduplicate the diff.
- The "already in the playlist" count is the size of the playlist as read. It is not
  the number of scanned links found in it.

## Model

| member | source | states |
|---|---|---|
| `Batching.Chunks` | main.py:17-21 | every slice is non-empty and holds at most n items; every slice except the last holds exactly n |
| `Batching.ChunksFlatten` | main.py:17-21 | concatenating the slices gives back the list |
| `Batching.ChunkCountBounds` | main.py:20 | with k slices, (k - 1) * n < len(xs) <= k * n, so an empty list yields no slice |
| `Batching.ChunkCount` | main.py:20 | the number of slices is ceil(len(xs) / n) |
| `Batching.ChunkAt` | main.py:20-21 | slice i is xs[i*n : min(i*n + n, len(xs))], the slice the generator yields at step i |
| `Batching.ChunkSizesOf250By99` | main.py:20-21 | 250 items with n = 99 give slices of 99, 99 and 52 items, in order |
| `Batching.ChunksLoop` | main.py:17-21 | the generator loop yields exactly `Chunks(xs, n)` for n > 0, nothing for n < 0, and fails for n = 0 |
| `LinkScanner.BeforeQuery` | main.py:37 | the result is a prefix of the text with no '?', and it ends at the end of the text or at a '?': the longest such prefix |
| `LinkScanner.StripQuery` | main.py:37 | at most one match; none exactly when the link is empty or starts with '?'; a match is a non-empty prefix of the link without '?' |
| `LinkScanner.StripQueryKeepsPlainLink` | main.py:37 | a non-empty link without '?' is returned unchanged |
| `LinkScanner.StripQueryCutsAtFirstQuery` | main.py:37 | a link whose first '?' is at position k > 0 is cut to its first k characters |
| `LinkScanner.StripQueryIdempotent` | main.py:37 | cutting an already cut link returns it unchanged |
| `LinkScanner.ExtractTracks` | main.py:34-39 | every extracted link starts with the track prefix and contains no '?'; there are no more of them than candidates |
| `LinkScanner.ExtractIsNormaliseThenFilter` | main.py:34-39 | extraction equals the candidates mapped through the cut and then filtered by the track prefix |
| `LinkScanner.ExtractAppend` | main.py:34-39 | extraction goes candidate by candidate: it keeps the candidates' order and keeps duplicates |
| `LinkScanner.ExtractMembership` | main.py:34-39 | a link is extracted if and only if some candidate cuts to it and it starts with the track prefix |
| `LinkScanner.ExtractKeepsRepeats` | main.py:34-39 | a track link seen once with a `?` suffix and twice without is extracted three times, bare |
| `Reconciler.Diff` | main.py:101 | the diff is a subsequence of the scanned links (their order is kept); each element is absent from the playlist; it is no longer than the scan |
| `Reconciler.DiffCounts` | main.py:101 | a link missing from the playlist occurs in the diff as often as in the scan; a link the playlist holds occurs zero times |
| `Reconciler.DiffKeepsMissing` | main.py:101 | every scanned link that the playlist lacks is in the diff |
| `Reconciler.DiffAppend` | main.py:101 | the diff of a concatenation is the concatenation of the diffs |
| `Reconciler.DiffExample` | main.py:101 | diffing ["a", "b", "c"] against ["b"] gives ["a", "c"] |
| `PlaylistReader.ReadPlaylist` | main.py:48-59 | the URLs are the concatenation of the pages before the first empty one; requests start at offset 0 and each one's offset equals the number of URLs read so far; every page but the last is non-empty and the last is empty; there is one request more than there are non-empty pages |
| `PlaylistReader.PagesOfPaged` | main.py:48-57 | against a remote serving the playlist `limit` items at a time, the pages received are the playlist's slices of `limit` items |
| `PlaylistReader.ReadsWholePlaylist` | main.py:48-59 | against such a remote the reader returns the whole playlist in order, after ceil(len / limit) + 1 requests |
| `PlaylistReader.ReadsHundredInThreeRequests` | main.py:48-59 | pages of 50, 50 and 0 give 100 URLs after 3 requests |
| `Pipeline.SubmitBatches` | main.py:104-107 | the writes are the diff's batches in order, up to the first refused write; each write carries 1 to 99 links; when none is refused, the writes concatenate to the diff and there are ceil(len(diff) / 99) of them |
| `Pipeline.Sync` | main.py:79-109 | the report gives the scan count and whether the token was refused; the playlist size; the diff size; the batches written, which are a prefix of the diff's batches, each accepted by the remote, and all of them exactly when no write was refused |
| `Pipeline.OneWriteForThreeRepeats` | main.py:79-107 | a log with one track link three times, once with a `?` suffix, against a playlist without it: three links scanned, three to add, one write of three bare copies |

## Left out

- The URL pattern `URL_REGEX` (main.py:12) comes from a module that is not part of this model. Its matches are an input: `findUrls(rawLog)` in `Sync`, the candidate sequence in `LinkScanner`. Its matches are taken to be strings, as the comprehension uses them.
- The file read (main.py:31-32), the interactive prompts, the default playlist id (main.py:14, 64-66) and the path-validation retry loop (main.py:67-76) are I/O and configuration with no logic to verify. `Sync` starts from the log text.
- Every `print` is left out. The counts they report are the fields of `Pipeline.Report`.
- The credentials (main.py:11) and the token request (main.py:82-91) are left out. Whether a token was granted is the boolean `authorised`.
- The remote endpoints (main.py:51, 94-95, 107) are not modelled as calls. A page read is `fetch(offset)`, already reduced to the track URLs of the page's items (main.py:56). A write's outcome is `writeOk(k)` for the k-th batch.
- No exception while reading a page or reducing its items to URLs is modelled: `fetch` is total. That covers a network or authorisation failure and an item whose track or URL field is missing (main.py:56). Such an exception aborts the run, as a refused write does.
- `PlaylistReader.ReadPlaylist` requires the page source to serve only empty pages at every offset from some `bound` on (`RunsDry`). Two kinds of source are excluded. One is a source on which the `while True` loop never ends. The other is a source that serves a non-empty page at arbitrarily large offsets but whose own walk from offset 0 still meets an empty page, for example one that is empty at 0 and non-empty everywhere else. The script stops on such a source, but the model cannot be called with it. A real playlist is finite, so it always meets `RunsDry`.
- The script has no dry-run mode, no option to deduplicate the diff and no second scanner variant, so none is modelled.
