/** The link scanner of `extract_from_log_file`: candidates found by the URL pattern are
    cut at their first '?' and kept only when they are track links. The URL pattern
    itself is not part of this model: its matches arrive as a sequence of candidates. */
module LinkScanner {
  import opened SeqUtil

  const TrackPrefix: string := "https://open.spotify.com/track"

  /** `link.startswith(TrackPrefix)`. */
  predicate IsTrackLink(link: string) {
    TrackPrefix <= link
  }

  /** The longest prefix of `s` that holds no '?': what the group of `^([^?]+)` spans. */
  function BeforeQuery(s: string): (r: string)
    ensures r <= s
    ensures '?' !in r
    ensures |r| == |s| || s[|r|] == '?'
  {
    if s == [] || s[0] == '?' then [] else [s[0]] + BeforeQuery(s[1..])
  }

  /** `re.findall(r"^([^?]+)", link)`: the anchored pattern matches at most once, at the
      start; it fails when the link is empty or begins with '?', since `[^?]+` needs a
      character. */
  function StripQuery(link: string): (r: seq<string>)
    ensures |r| <= 1
    ensures r == [] <==> link == [] || link[0] == '?'
    ensures forall p :: p in r ==> p != [] && p <= link && '?' !in p
  {
    var p := BeforeQuery(link);
    if p == [] then [] else [p]
  }

  /** A link that holds no '?' comes out unchanged. */
  lemma StripQueryKeepsPlainLink(link: string)
    requires link != [] && '?' !in link
    ensures StripQuery(link) == [link]
  {
    var p := BeforeQuery(link);
    assert |p| == |link|;
    assert p == link[..|p|] == link;
  }

  /** What is cut at the first '?' is the text before it, exactly. */
  lemma StripQueryCutsAtFirstQuery(link: string, k: nat)
    requires 0 < k < |link| && link[k] == '?' && '?' !in link[..k]
    ensures StripQuery(link) == [link[..k]]
  {
    var p := BeforeQuery(link);
    assert link[k] == '?' && '?' !in p;
    assert |p| == k;
    assert p == link[..|p|];
  }

  /** Cutting a second time changes nothing. */
  lemma StripQueryIdempotent(link: string)
    ensures forall p :: p in StripQuery(link) ==> StripQuery(p) == [p]
  {
    forall p | p in StripQuery(link)
      ensures StripQuery(p) == [p]
    {
      StripQueryKeepsPlainLink(p);
    }
  }

  /** The comprehension at the heart of `extract_from_log_file`, over the pattern's
      candidates in order of appearance: each candidate contributes its cut form when
      that is a track link, and nothing otherwise. */
  function ExtractTracks(candidates: seq<string>): (r: seq<string>)
    ensures |r| <= |candidates|
    ensures forall i :: 0 <= i < |r| ==> IsTrackLink(r[i]) && '?' !in r[i]
  {
    if candidates == [] then []
    else Filter(IsTrackLink, StripQuery(candidates[0])) + ExtractTracks(candidates[1..])
  }

  /** The candidates mapped through the cut, dropping those with nothing before a '?'. */
  function Normalised(candidates: seq<string>): seq<string> {
    if candidates == [] then [] else StripQuery(candidates[0]) + Normalised(candidates[1..])
  }

  /** Extraction is normalisation followed by the prefix filter. */
  lemma {:induction false} ExtractIsNormaliseThenFilter(candidates: seq<string>)
    ensures ExtractTracks(candidates) == Filter(IsTrackLink, Normalised(candidates))
  {
    if candidates != [] {
      ExtractIsNormaliseThenFilter(candidates[1..]);
      FilterAppend(IsTrackLink, StripQuery(candidates[0]), Normalised(candidates[1..]));
    }
  }

  /** Extraction works candidate by candidate: the order of the candidates is kept and
      a link found twice is returned twice. */
  lemma {:induction false} ExtractAppend(a: seq<string>, b: seq<string>)
    ensures ExtractTracks(a + b) == ExtractTracks(a) + ExtractTracks(b)
  {
    if a == [] {
      assert a + b == b;
    } else {
      assert (a + b)[0] == a[0];
      assert (a + b)[1..] == a[1..] + b;
      ExtractAppend(a[1..], b);
    }
  }

  /** A link is extracted exactly when some candidate cuts to it and it is a track link. */
  lemma {:induction false} ExtractMembership(candidates: seq<string>, x: string)
    ensures x in ExtractTracks(candidates) <==>
      exists i :: 0 <= i < |candidates| && StripQuery(candidates[i]) == [x] && IsTrackLink(x)
  {
    if candidates != [] {
      ExtractMembership(candidates[1..], x);
      var head := Filter(IsTrackLink, StripQuery(candidates[0]));
      assert x in head <==> StripQuery(candidates[0]) == [x] && IsTrackLink(x);
      if exists i :: 0 <= i < |candidates| && StripQuery(candidates[i]) == [x] && IsTrackLink(x) {
        var i :| 0 <= i < |candidates| && StripQuery(candidates[i]) == [x] && IsTrackLink(x);
        if i > 0 {
          assert candidates[1..][i - 1] == candidates[i];
        }
      }
      if exists j :: 0 <= j < |candidates[1..]| && StripQuery(candidates[1..][j]) == [x] && IsTrackLink(x) {
        var j :| 0 <= j < |candidates[1..]| && StripQuery(candidates[1..][j]) == [x] && IsTrackLink(x);
        assert candidates[j + 1] == candidates[1..][j];
      }
    }
  }

  /** A track link written once with a tracking suffix and twice without is extracted
      three times, each time without the suffix. */
  lemma ExtractKeepsRepeats(link: string, suffix: string)
    requires IsTrackLink(link) && '?' !in link
    requires suffix != [] && suffix[0] == '?'
    ensures ExtractTracks([link + suffix, link, link]) == [link, link, link]
  {
    assert (link + suffix)[..|link|] == link;
    assert (link + suffix)[|link|] == '?';
    StripQueryCutsAtFirstQuery(link + suffix, |link|);
    assert link != [] by { assert |TrackPrefix| > 0; }
    StripQueryKeepsPlainLink(link);
    assert Filter(IsTrackLink, [link]) == [link] by {
      assert [link][1..] == [];
    }
    assert [link + suffix, link, link][1..] == [link, link];
    assert [link, link][1..] == [link];
    assert ExtractTracks([link]) == [link] by {
      assert [link][1..] == [];
    }
    assert ExtractTracks([link, link]) == [link, link];
  }
}
