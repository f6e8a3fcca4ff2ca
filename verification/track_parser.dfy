/** `TrackParser`: what kind of reference a playlist line is (a bare track
    id, an open.spotify.com link, a spotify: URI, "Artist - Title", or
    unknown), and the id or the artist/title pair inside it. The regular
    expressions become explicit predicates on the stripped line. */
module TrackParser {
  import opened Wrappers
  import opened Text

  datatype TrackFormat = SpotifyId | SpotifyUrl | SpotifyUri | ArtistTitle | Unknown

  const IdLength: nat := 22
  const UrlPrefix := "open.spotify.com/track/"
  const UriPrefix := "spotify:track:"

  /** `[A-Za-z0-9]{22}` matching the whole string. */
  predicate IsTrackId(s: string) {
    |s| == IdLength && forall i :: 0 <= i < |s| ==> IsAsciiAlnum(s[i])
  }

  /** The pattern `prefix([A-Za-z0-9]{22})` matches at index `i` of `s`. */
  predicate PatternAt(s: string, prefix: string, i: nat) {
    OccursAt(s, prefix, i) && i + |prefix| + IdLength <= |s| &&
    IsTrackId(s[i + |prefix|..i + |prefix| + IdLength])
  }

  /** The id captured by the pattern at index `i`. */
  function CapturedAt(s: string, prefix: string, i: nat): (id: string)
    requires PatternAt(s, prefix, i)
    ensures IsTrackId(id)
  {
    s[i + |prefix|..i + |prefix| + IdLength]
  }

  /** First index at or after `from` where the pattern matches, or |s| + 1. */
  function PatternFrom(s: string, prefix: string, from: nat): (k: nat)
    requires from <= |s| + 1
    ensures from <= k <= |s| + 1
    ensures k <= |s| ==> PatternAt(s, prefix, k)
    ensures forall j: nat :: from <= j < k && j <= |s| ==> !PatternAt(s, prefix, j)
    decreases |s| + 1 - from
  {
    if from > |s| then from
    else if PatternAt(s, prefix, from) then from
    else PatternFrom(s, prefix, from + 1)
  }

  /** `re.search(prefix + "([A-Za-z0-9]{22})", s).group(1)`: the id after the
      leftmost match, or None when the pattern occurs nowhere. */
  function SearchPattern(s: string, prefix: string): (r: Option<string>)
    ensures r.Some? <==> exists i: nat :: PatternAt(s, prefix, i)
    ensures r.Some? ==> IsTrackId(r.value)
    ensures r.Some? ==> exists i: nat ::
      && PatternAt(s, prefix, i)
      && r.value == CapturedAt(s, prefix, i)
      && (forall j: nat :: j < i ==> !PatternAt(s, prefix, j))
  {
    var k := PatternFrom(s, prefix, 0);
    if k <= |s| then Some(CapturedAt(s, prefix, k)) else None
  }

  /** The dash class `[-–—]` of the artist/title pattern. */
  predicate IsDash(c: char) {
    c == '-' || c == '–' || c == '—'
  }

  /** `^(.+?)\s*[-–—]\s*(.+)` can use the dash at index `d` of `t`: at least
      one character before it and one after it. */
  predicate SplitsAt(t: string, d: nat) {
    1 <= d && d + 1 < |t| && IsDash(t[d])
  }

  /** Earliest usable dash at or after `from`, or |t| when there is none. */
  function DashFrom(t: string, from: nat): (d: nat)
    requires from <= |t|
    ensures from <= d <= |t|
    ensures d < |t| ==> SplitsAt(t, d)
    ensures forall j: nat :: from <= j < d ==> !SplitsAt(t, j)
    ensures d == |t| ==> forall j: nat :: from <= j ==> !SplitsAt(t, j)
    decreases |t| - from
  {
    if from == |t| then from
    else if SplitsAt(t, from) then from
    else DashFrom(t, from + 1)
  }

  /** The split the lazy pattern makes on the stripped line: `(.+?)` stops
      at the earliest usable dash (the whitespace around it is left for the
      `\s*` parts and then stripped anyway). */
  function ParseArtistTitle(s: string): (r: Option<(string, string)>)
    ensures var t := Strip(s); r.Some? <==> exists d: nat :: SplitsAt(t, d)
    ensures r.Some? ==> |r.value.0| > 0 && |r.value.1| > 0
    ensures r.Some? ==> exists d: nat :: EarliestSplit(Strip(s), d) && r.value == SplitParts(Strip(s), d)
  {
    var t := Strip(s);
    var d := DashFrom(t, 0);
    if d == |t| then None
    else
      SplitPartsNonEmpty(t, d);
      assert EarliestSplit(t, d);
      Some(SplitParts(t, d))
  }

  /** `d` is the first usable dash of `t`. */
  predicate EarliestSplit(t: string, d: nat) {
    SplitsAt(t, d) && forall j: nat :: j < d ==> !SplitsAt(t, j)
  }

  /** The stripped text on either side of the dash at `d`. */
  function SplitParts(t: string, d: nat): (string, string)
    requires d < |t|
  {
    (Strip(t[..d]), Strip(t[d + 1..]))
  }

  /** A split of a stripped line leaves text on both sides. */
  lemma SplitPartsNonEmpty(t: string, d: nat)
    requires |t| > 0 ==> !IsSpace(t[0]) && !IsSpace(t[|t| - 1])
    requires SplitsAt(t, d)
    ensures |Strip(t[..d])| > 0 && |Strip(t[d + 1..])| > 0
  {
    assert t[..d][0] == t[0];
    assert t[d + 1..][|t| - d - 2] == t[|t| - 1];
  }

  /** `detect_format`: the first of id, URL, URI, artist/title that matches
      the stripped line. */
  function DetectFormat(s: string): (r: TrackFormat)
    ensures r == SpotifyId <==> IsTrackId(Strip(s))
    ensures r == SpotifyUrl <==> !IsTrackId(Strip(s)) && SearchPattern(Strip(s), UrlPrefix).Some?
    ensures r == SpotifyUri <==>
      !IsTrackId(Strip(s)) && SearchPattern(Strip(s), UrlPrefix).None? && SearchPattern(Strip(s), UriPrefix).Some?
    ensures r == ArtistTitle <==>
      !IsTrackId(Strip(s)) && SearchPattern(Strip(s), UrlPrefix).None? &&
      SearchPattern(Strip(s), UriPrefix).None? && ParseArtistTitle(s).Some?
    ensures r == Unknown <==>
      !IsTrackId(Strip(s)) && SearchPattern(Strip(s), UrlPrefix).None? &&
      SearchPattern(Strip(s), UriPrefix).None? && ParseArtistTitle(s).None?
  {
    var t := Strip(s);
    if IsTrackId(t) then SpotifyId
    else if SearchPattern(t, UrlPrefix).Some? then SpotifyUrl
    else if SearchPattern(t, UriPrefix).Some? then SpotifyUri
    else if ParseArtistTitle(s).Some? then ArtistTitle
    else Unknown
  }

  /** `extract_track_id`: the stripped line itself when it is an id,
      otherwise the id inside the first URL match, otherwise inside the first
      URI match. */
  function ExtractTrackId(s: string): (r: Option<string>)
    ensures r.Some? ==> IsTrackId(r.value)
  {
    var t := Strip(s);
    if IsTrackId(t) then Some(t)
    else if SearchPattern(t, UrlPrefix).Some? then SearchPattern(t, UrlPrefix)
    else SearchPattern(t, UriPrefix)
  }

  predicate IsIdFormat(f: TrackFormat) {
    f == SpotifyId || f == SpotifyUrl || f == SpotifyUri
  }

  /** The two classifiers agree: an id-like format is detected exactly when
      an id can be extracted, and the id of a URL line comes from its URL
      even when a URI is present too. */
  lemma DetectAgreesWithExtract(s: string)
    ensures IsIdFormat(DetectFormat(s)) <==> ExtractTrackId(s).Some?
    ensures DetectFormat(s) == SpotifyId ==> ExtractTrackId(s) == Some(Strip(s))
    ensures DetectFormat(s) == SpotifyUrl ==> ExtractTrackId(s) == SearchPattern(Strip(s), UrlPrefix)
    ensures DetectFormat(s) == SpotifyUri ==> ExtractTrackId(s) == SearchPattern(Strip(s), UriPrefix)
    ensures !IsIdFormat(DetectFormat(s)) ==>
      (DetectFormat(s) == ArtistTitle <==> ParseArtistTitle(s).Some?)
  {
  }

  /** A line holding a link is never taken for "Artist - Title", even
      though the link itself may contain a dash. */
  lemma LinkBeatsDash(s: string)
    requires exists i: nat :: PatternAt(Strip(s), UrlPrefix, i)
    ensures IsIdFormat(DetectFormat(s))
    ensures ExtractTrackId(s).Some?
  {
  }

  /** The lazy group stops at the first dash: "Jay-Z - X" names "Jay" as the
      artist and "Z - X" as the title. */
  lemma EarliestDashWins()
    ensures ParseArtistTitle("Jay-Z - X") == Some(("Jay", "Z - X"))
  {
    var s := "Jay-Z - X";
    StripOfStripped(s);
    FirstDashOfJayZ();
    assert s[..3] == "Jay";
    assert s[4..] == "Z - X";
    StripOfStripped("Jay");
    StripOfStripped("Z - X");
  }

  /** The hyphen inside "Jay-Z" is the first usable dash. */
  lemma FirstDashOfJayZ()
    ensures DashFrom("Jay-Z - X", 0) == 3
  {
    var s := "Jay-Z - X";
    assert SplitsAt(s, 3);
    assert DashFrom(s, 3) == 3;
    assert DashFrom(s, 2) == 3;
    assert DashFrom(s, 1) == 3;
  }
}
