/** `TrackSearcher`: resolves one playlist line to a catalog track. An id,
    link or URI is looked up directly; "Artist - Title" goes through three
    searches (the advanced search, a general search filtered by a best-match
    rule, and a search with punctuation deleted); anything else, and an id
    whose lookup fails, goes to one general search. A raising catalog search
    ends the resolution with a failed result instead of an exception. */
module TrackSearcher {
  import opened Wrappers
  import opened Text
  import opened Seqs
  import opened Cleaning
  import opened TrackParser
  import SpotifyClient

  type Track = SpotifyClient.Track
  type RawSearch = SpotifyClient.RawSearch
  type SpotifyError = SpotifyClient.SpotifyError

  /** `client.track(id)`: the track, or the message of what it raised. */
  type TrackLookup = string -> Result<Track, string>

  datatype TrackSearchResult = TrackSearchResult(
    originalQuery: string,
    trackId: Option<string>,
    trackInfo: Option<Track>,
    format: TrackFormat,
    searchMethod: Option<string>,
    success: bool,
    errorMessage: Option<string>)

  const DirectId := "direct_id"
  const ArtistTitlePrecise := "artist_title_precise"
  const ArtistTitleGeneral := "artist_title_general"
  const ArtistTitleCleaned := "artist_title_cleaned"
  const ArtistTitleFailed := "artist_title_failed"
  const GeneralSearch := "general_search"
  const GeneralSearchFailed := "general_search_failed"
  const NoArtistTitleMatch := "No matches found for artist-title search"
  const NoGeneralMatch := "No matches found in general search"
  const FuzzyThreshold: real := 0.8

  function Found(query: string, id: string, info: Track, format: TrackFormat, how: string): TrackSearchResult {
    TrackSearchResult(query, Some(id), Some(info), format, Some(how), true, None)
  }

  function Missed(query: string, format: TrackFormat, how: string, message: string): TrackSearchResult {
    TrackSearchResult(query, None, None, format, Some(how), false, Some(message))
  }

  /** The shape every result has: a success carries an id, the track and a
      method; a failure carries a message and neither id nor track. */
  predicate WellFormed(r: TrackSearchResult) {
    && (r.success <==> r.trackId.Some?)
    && (r.success ==> r.trackInfo.Some? && r.searchMethod.Some? && r.errorMessage.None?)
    && (!r.success ==> r.trackInfo.None? && r.errorMessage.Some?)
  }

  // ------------------------------------------------------------ fuzzy match

  /** `set(s.split())`. */
  function WordSet(s: string): set<string> {
    set w | w in Words(s)
  }

  lemma WordSetEmpty(s: string)
    ensures WordSet(s) == {} <==> IsBlank(s)
  {
    if !IsBlank(s) {
      assert Words(s)[0] in WordSet(s);
    }
  }

  lemma AtLeastByDivision(x: real, y: real, t: real)
    requires y > 0.0
    ensures x / y >= t <==> x >= t * y
  {
    if x / y >= t {
      assert x == (x / y) * y;
    }
    if x >= t * y {
      assert x / y >= (t * y) / y;
    }
  }

  /** The Jaccard ratio |a ∩ b| / |a ∪ b| reaches `t`, stated without the
      division. */
  predicate JaccardAtLeast(a: set<string>, b: set<string>, t: real) {
    |a * b| as real >= t * |a + b| as real
  }

  /** `_fuzzy_match`: the Jaccard ratio of the two word sets reaches the
      threshold; false as soon as either string has no words. */
  function FuzzyMatch(s1: string, s2: string, threshold: real): (r: bool)
    ensures r ==> !IsBlank(s1) && !IsBlank(s2)
    ensures !IsBlank(s1) && !IsBlank(s2) ==> (r <==> JaccardAtLeast(WordSet(s1), WordSet(s2), threshold))
  {
    var w1 := WordSet(s1);
    var w2 := WordSet(s2);
    WordSetEmpty(s1);
    WordSetEmpty(s2);
    if w1 == {} || w2 == {} then false
    else
      UnionNotEmpty(w1, w2);
      AtLeastByDivision(|w1 * w2| as real, |w1 + w2| as real, threshold);
      (|w1 * w2| as real) / (|w1 + w2| as real) >= threshold
  }

  lemma UnionNotEmpty(a: set<string>, b: set<string>)
    requires a != {}
    ensures |a + b| > 0
  {
    var x :| x in a;
    assert x in a + b;
  }

  /** The ratio does not depend on the order of the two strings. */
  lemma FuzzyMatchSymmetric(s1: string, s2: string, threshold: real)
    ensures FuzzyMatch(s1, s2, threshold) == FuzzyMatch(s2, s1, threshold)
  {
    var w1 := WordSet(s1);
    var w2 := WordSet(s2);
    assert w1 * w2 == w2 * w1;
    assert w1 + w2 == w2 + w1;
  }

  /** A string with words matches itself at any threshold up to 1. */
  lemma FuzzyMatchSelf(s: string, threshold: real)
    requires !IsBlank(s) && threshold <= 1.0
    ensures FuzzyMatch(s, s, threshold)
  {
    var w := WordSet(s);
    assert w * w == w && w + w == w;
  }

  /** With a positive threshold, a match needs a word the two strings share. */
  lemma FuzzyMatchSharesWord(s1: string, s2: string, threshold: real)
    requires threshold > 0.0 && FuzzyMatch(s1, s2, threshold)
    ensures exists w :: w in Words(s1) && w in Words(s2)
  {
    var w1 := WordSet(s1);
    var w2 := WordSet(s2);
    assert !IsBlank(s1) && !IsBlank(s2);
    WordSetEmpty(s1);
    assert JaccardAtLeast(w1, w2, threshold);
    JaccardNeedsCommon(w1, w2, threshold);
    var w :| w in w1 * w2;
    assert w in Words(s1);
  }

  lemma JaccardNeedsCommon(a: set<string>, b: set<string>, t: real)
    requires a != {} && t > 0.0 && JaccardAtLeast(a, b, t)
    ensures a * b != {}
  {
    UnionNotEmpty(a, b);
    var u := |a + b| as real;
    assert t * u > 0.0 by {
      assert u >= 1.0;
      assert t * u >= t * 1.0;
    }
  }

  // -------------------------------------------------------------- best match

  /** Some artist of the track and the wanted artist contain one another,
      both lower-cased. */
  predicate ArtistMatches(t: Track, artist: string) {
    SomeOverlaps(Map(Lower, t.artists), Lower(artist))
  }

  /** The lower-cased titles contain one another or match fuzzily. */
  predicate TitleMatches(t: Track, title: string) {
    Overlaps(Lower(title), Lower(t.name)) || FuzzyMatch(Lower(title), Lower(t.name), FuzzyThreshold)
  }

  predicate IsMatch(t: Track, artist: string, title: string) {
    ArtistMatches(t, artist) && TitleMatches(t, title)
  }

  /** Index of the first matching track at or after `from`, or |tracks|. */
  function FirstMatch(tracks: seq<Track>, artist: string, title: string, from: nat): (k: nat)
    requires from <= |tracks|
    ensures from <= k <= |tracks|
    ensures k < |tracks| ==> IsMatch(tracks[k], artist, title)
    ensures forall j :: from <= j < k ==> !IsMatch(tracks[j], artist, title)
    decreases |tracks| - from
  {
    if from == |tracks| || IsMatch(tracks[from], artist, title) then from
    else FirstMatch(tracks, artist, title, from + 1)
  }

  /** `_find_best_match`: the first track matching both artist and title,
      otherwise the first track, and None only for no tracks. */
  function FindBestMatch(tracks: seq<Track>, artist: string, title: string): (r: Option<Track>)
    ensures r.None? <==> |tracks| == 0
    ensures r.Some? ==> r.value in tracks
    ensures (exists k :: 0 <= k < |tracks| && IsMatch(tracks[k], artist, title)) ==>
      exists k :: 0 <= k < |tracks| && r == Some(tracks[k]) && IsMatch(tracks[k], artist, title) &&
        forall j :: 0 <= j < k ==> !IsMatch(tracks[j], artist, title)
    ensures |tracks| > 0 && (forall k :: 0 <= k < |tracks| ==> !IsMatch(tracks[k], artist, title)) ==>
      r == Some(tracks[0])
  {
    if |tracks| == 0 then None
    else
      var k := FirstMatch(tracks, artist, title, 0);
      if k < |tracks| then Some(tracks[k]) else Some(tracks[0])
  }

  // ------------------------------------------------------------- strategies

  function GeneralQuery(artist: string, title: string): string {
    artist + " " + title
  }

  function CleanedQuery(artist: string, title: string): string {
    StripPunctuation(artist) + " " + StripPunctuation(title)
  }

  /** `_search_general`: the first hit of a one-result search on the line as
      given. */
  function SearchGeneral(raw: RawSearch, query: string, format: TrackFormat): (r: Result<TrackSearchResult, SpotifyError>)
    ensures r.Err? <==> raw(query, 1).Err?
    ensures r.Err? ==> r.error.message == "Search failed: " + raw(query, 1).error
    ensures r.Ok? ==> WellFormed(r.value) && r.value.originalQuery == query && r.value.format == format
    ensures r.Ok? ==> (r.value.success <==> |SpotifyClient.Items(raw(query, 1).value)| > 0)
    ensures r.Ok? && r.value.success ==>
      r.value.trackInfo == Some(SpotifyClient.Items(raw(query, 1).value)[0]) &&
      r.value.trackId == Some(r.value.trackInfo.value.id) && r.value.searchMethod == Some(GeneralSearch)
    ensures r.Ok? && !r.value.success ==>
      r.value.searchMethod == Some(GeneralSearchFailed) && r.value.errorMessage == Some(NoGeneralMatch)
  {
    var tracks :- SpotifyClient.SearchTrack(raw, query, 1);
    if |tracks| > 0 then Ok(Found(query, tracks[0].id, tracks[0], format, GeneralSearch))
    else Ok(Missed(query, format, GeneralSearchFailed, NoGeneralMatch))
  }

  /** `_search_by_artist_title`: advanced search, then a five-result search
      narrowed by `_find_best_match`, then a three-result search with
      punctuation deleted. The first strategy with a hit decides; a raising
      search propagates. */
  function SearchByArtistTitle(raw: RawSearch, query: string, artist: string, title: string, format: TrackFormat)
    : (r: Result<TrackSearchResult, SpotifyError>)
    ensures r.Ok? ==> WellFormed(r.value) && r.value.originalQuery == query && r.value.format == format
    ensures r.Ok? && r.value.success ==> r.value.trackId == Some(r.value.trackInfo.value.id)
    ensures var adv := SpotifyClient.SearchTrackAdvanced(raw, artist, title);
      adv.Ok? && |adv.value| > 0 ==> r == Ok(Found(query, adv.value[0].id, adv.value[0], format, ArtistTitlePrecise))
    ensures r.Ok? && r.value.searchMethod == Some(ArtistTitleGeneral) ==>
      var general := SpotifyClient.SearchTrack(raw, GeneralQuery(artist, title), 5);
      && SpotifyClient.SearchTrackAdvanced(raw, artist, title) == Ok([])
      && general.Ok?
      && r.value.trackInfo == FindBestMatch(general.value, artist, title)
    ensures r.Ok? && r.value.searchMethod == Some(ArtistTitleCleaned) ==>
      var cleaned := SpotifyClient.SearchTrack(raw, CleanedQuery(artist, title), 3);
      && SpotifyClient.SearchTrackAdvanced(raw, artist, title) == Ok([])
      && SpotifyClient.SearchTrack(raw, GeneralQuery(artist, title), 5) == Ok([])
      && cleaned.Ok? && |cleaned.value| > 0
      && r.value.trackInfo == Some(cleaned.value[0])
    ensures r == Ok(Missed(query, format, ArtistTitleFailed, NoArtistTitleMatch)) <==>
      && SpotifyClient.SearchTrackAdvanced(raw, artist, title) == Ok([])
      && SpotifyClient.SearchTrack(raw, GeneralQuery(artist, title), 5) == Ok([])
      && SpotifyClient.SearchTrack(raw, CleanedQuery(artist, title), 3) == Ok([])
    ensures r.Ok? ==>
      r.value.searchMethod in {Some(ArtistTitlePrecise), Some(ArtistTitleGeneral), Some(ArtistTitleCleaned), Some(ArtistTitleFailed)}
  {
    var adv :- SpotifyClient.SearchTrackAdvanced(raw, artist, title);
    if |adv| > 0 then Ok(Found(query, adv[0].id, adv[0], format, ArtistTitlePrecise))
    else
      var general :- SpotifyClient.SearchTrack(raw, GeneralQuery(artist, title), 5);
      var best := FindBestMatch(general, artist, title);
      if best.Some? then Ok(Found(query, best.value.id, best.value, format, ArtistTitleGeneral))
      else
        var cleaned :- SpotifyClient.SearchTrack(raw, CleanedQuery(artist, title), 3);
        if |cleaned| > 0 then Ok(Found(query, cleaned[0].id, cleaned[0], format, ArtistTitleCleaned))
        else Ok(Missed(query, format, ArtistTitleFailed, NoArtistTitleMatch))
  }

  /** The body of the `try` in `search_track`. */
  function Resolve(raw: RawSearch, lookup: TrackLookup, s: string, format: TrackFormat)
    : Result<TrackSearchResult, SpotifyError>
  {
    var id := ExtractTrackId(s);
    if IsIdFormat(format) && id.Some? && lookup(id.value).Ok? then
      Ok(Found(s, id.value, lookup(id.value).value, format, DirectId))
    else if format == ArtistTitle && ParseArtistTitle(s).Some? then
      SearchByArtistTitle(raw, s, ParseArtistTitle(s).value.0, ParseArtistTitle(s).value.1, format)
    else SearchGeneral(raw, s, format)
  }

  /** What `Resolve` returns: a direct answer exactly for an id-like line
      whose lookup succeeds, the general search for the other id-like lines,
      and only catalog search errors. */
  lemma ResolveFacts(raw: RawSearch, lookup: TrackLookup, s: string, format: TrackFormat)
    requires format == DetectFormat(s)
    ensures var r := Resolve(raw, lookup, s, format);
      && (r.Ok? ==> WellFormed(r.value) && r.value.originalQuery == s && r.value.format == format)
      && (r.Ok? && r.value.searchMethod == Some(DirectId) <==>
            IsIdFormat(format) && ExtractTrackId(s).Some? && lookup(ExtractTrackId(s).value).Ok?)
      && (r.Ok? && r.value.searchMethod == Some(DirectId) ==> r.value.trackId == ExtractTrackId(s))
      && (IsIdFormat(format) && !(r.Ok? && r.value.searchMethod == Some(DirectId)) ==>
            r == SearchGeneral(raw, s, format))
      && (r.Err? ==> exists e :: r.error == SpotifyClient.APIError("Search failed: " + e))
  {
    var id := ExtractTrackId(s);
    var r := Resolve(raw, lookup, s, format);
    if IsIdFormat(format) && id.Some? && lookup(id.value).Ok? {
      assert r.Ok? && r.value.searchMethod == Some(DirectId);
    } else if format == ArtistTitle && ParseArtistTitle(s).Some? {
      var artist := ParseArtistTitle(s).value.0;
      var title := ParseArtistTitle(s).value.1;
      assert r == SearchByArtistTitle(raw, s, artist, title, format);
      if r.Err? {
        ArtistTitleErrors(raw, s, artist, title, format);
      }
    } else {
      assert r == SearchGeneral(raw, s, format);
    }
  }

  /** `search_track`: never raises. A successful lookup of an id-like line
      answers directly; a failed one falls through to the general search; an
      escaping catalog error becomes a failed result without a method. */
  function SearchTrack(raw: RawSearch, lookup: TrackLookup, s: string): (r: TrackSearchResult)
    ensures WellFormed(r)
    ensures r.originalQuery == s && r.format == DetectFormat(s)
    ensures r.searchMethod == Some(DirectId) <==>
      IsIdFormat(DetectFormat(s)) && ExtractTrackId(s).Some? && lookup(ExtractTrackId(s).value).Ok?
    ensures r.searchMethod == Some(DirectId) ==> r.trackId == ExtractTrackId(s) && IsTrackId(r.trackId.value)
    ensures IsIdFormat(DetectFormat(s)) && r.searchMethod != Some(DirectId) ==>
      r.searchMethod in {Some(GeneralSearch), Some(GeneralSearchFailed), None}
    ensures r.searchMethod.None? ==>
      !r.success && exists e :: r.errorMessage == Some("Search failed: " + e)
    ensures DetectFormat(s) == ArtistTitle && ParseArtistTitle(s).Some? ==>
      var (artist, title) := ParseArtistTitle(s).value;
      var byArtist := SearchByArtistTitle(raw, s, artist, title, ArtistTitle);
      && (byArtist.Ok? ==> r == byArtist.value)
      && (byArtist.Err? ==> r == Failed(s, ArtistTitle, byArtist.error.message))
    ensures (IsIdFormat(DetectFormat(s)) && r.searchMethod != Some(DirectId)) ||
            (!IsIdFormat(DetectFormat(s)) && !(DetectFormat(s) == ArtistTitle && ParseArtistTitle(s).Some?)) ==>
      var general := SearchGeneral(raw, s, DetectFormat(s));
      && (general.Ok? ==> r == general.value)
      && (general.Err? ==> r == Failed(s, DetectFormat(s), general.error.message))
  {
    var format := DetectFormat(s);
    ResolveFacts(raw, lookup, s, format);
    ResolveRoutes(raw, lookup, s, format);
    match Resolve(raw, lookup, s, format)
    case Ok(res) => res
    case Err(e) => Failed(s, format, e.message)
  }

  /** The result of the outer `except`: no id, no method, the error text. */
  function Failed(s: string, format: TrackFormat, message: string): TrackSearchResult {
    TrackSearchResult(s, None, None, format, None, false, Some(message))
  }

  /** Which strategy `Resolve` ends in: the artist-title chain for a parsed
      artist-title line, the general search for every other line that is
      not answered directly. */
  lemma ResolveRoutes(raw: RawSearch, lookup: TrackLookup, s: string, format: TrackFormat)
    ensures format == ArtistTitle && ParseArtistTitle(s).Some? ==>
      Resolve(raw, lookup, s, format) ==
        SearchByArtistTitle(raw, s, ParseArtistTitle(s).value.0, ParseArtistTitle(s).value.1, format)
    ensures !IsIdFormat(format) && !(format == ArtistTitle && ParseArtistTitle(s).Some?) ==>
      Resolve(raw, lookup, s, format) == SearchGeneral(raw, s, format)
  {
    if !IsIdFormat(format) {
      assert Resolve(raw, lookup, s, format) ==
        if format == ArtistTitle && ParseArtistTitle(s).Some? then
          SearchByArtistTitle(raw, s, ParseArtistTitle(s).value.0, ParseArtistTitle(s).value.1, format)
        else SearchGeneral(raw, s, format);
    }
  }

  /** The errors of the artist-title strategies are failed catalog searches. */
  lemma ArtistTitleErrors(raw: RawSearch, query: string, artist: string, title: string, format: TrackFormat)
    requires SearchByArtistTitle(raw, query, artist, title, format).Err?
    ensures exists e ::
      SearchByArtistTitle(raw, query, artist, title, format).error == SpotifyClient.APIError("Search failed: " + e)
  {
    var adv := SpotifyClient.SearchTrackAdvanced(raw, artist, title);
    if adv.Err? {
      AdvancedErrorsComeFromSearch(raw, SpotifyClient.AdvancedQueries(artist, title), artist);
      assert SearchByArtistTitle(raw, query, artist, title, format).error == adv.error;
    } else {
      var general := SpotifyClient.SearchTrack(raw, GeneralQuery(artist, title), 5);
      if general.Err? {
        assert SearchByArtistTitle(raw, query, artist, title, format).error == general.error;
      } else {
        var cleaned := SpotifyClient.SearchTrack(raw, CleanedQuery(artist, title), 3);
        assert SearchByArtistTitle(raw, query, artist, title, format).error == cleaned.error;
      }
    }
  }

  lemma {:induction false} AdvancedErrorsComeFromSearch(raw: RawSearch, qs: seq<string>, artist: string)
    requires SpotifyClient.TryQueries(raw, qs, artist).Err?
    ensures exists e :: SpotifyClient.TryQueries(raw, qs, artist).error == SpotifyClient.APIError("Search failed: " + e)
    decreases |qs|
  {
    if SpotifyClient.SearchTrack(raw, qs[0], 5).Ok? {
      AdvancedErrorsComeFromSearch(raw, qs[1..], artist);
    }
  }

  /** With a catalog that never raises, every line gets a method, so the
      "no method" failure is reserved for catalog errors. */
  lemma ReliableCatalogAlwaysNamesMethod(raw: RawSearch, lookup: TrackLookup, s: string)
    requires forall q, n :: raw(q, n).Ok?
    ensures SearchTrack(raw, lookup, s).searchMethod.Some?
  {
    ReliableResolve(raw, lookup, s, DetectFormat(s));
  }

  /** With a catalog that never raises, `Resolve` succeeds and names its
      method. */
  lemma ReliableResolve(raw: RawSearch, lookup: TrackLookup, s: string, format: TrackFormat)
    requires forall q, n :: raw(q, n).Ok?
    ensures Resolve(raw, lookup, s, format).Ok?
    ensures Resolve(raw, lookup, s, format).value.searchMethod.Some?
  {
    var id := ExtractTrackId(s);
    if IsIdFormat(format) && id.Some? && lookup(id.value).Ok? {
    } else if format == ArtistTitle && ParseArtistTitle(s).Some? {
      var artist := ParseArtistTitle(s).value.0;
      var title := ParseArtistTitle(s).value.1;
      ReliableArtistTitle(raw, s, artist, title, format);
    } else {
      assert raw(s, 1).Ok?;
    }
  }

  lemma ReliableArtistTitle(raw: RawSearch, query: string, artist: string, title: string, format: TrackFormat)
    requires forall q, n :: raw(q, n).Ok?
    ensures SearchByArtistTitle(raw, query, artist, title, format).Ok?
    ensures SearchByArtistTitle(raw, query, artist, title, format).value.searchMethod.Some?
  {
    ReliableAdvanced(raw, SpotifyClient.AdvancedQueries(artist, title), artist);
    assert raw(GeneralQuery(artist, title), 5).Ok?;
    assert raw(CleanedQuery(artist, title), 3).Ok?;
  }

  lemma {:induction false} ReliableAdvanced(raw: RawSearch, qs: seq<string>, artist: string)
    requires forall q, n :: raw(q, n).Ok?
    ensures SpotifyClient.TryQueries(raw, qs, artist).Ok?
    decreases |qs|
  {
    if |qs| > 0 {
      assert raw(qs[0], 5).Ok?;
      ReliableAdvanced(raw, qs[1..], artist);
    }
  }
}
