/** The Spotify Web API client wrapper: credential check at construction,
    extraction of tracks from a search response, the three-query advanced
    search, playlist creation and batched track addition. The Web API itself
    (spotipy) is a set of function-typed ports; an `Err` from a port is the
    exception the library would raise. */
module SpotifyClient {
  import opened Wrappers
  import opened Text
  import opened Seqs

  /** One catalog track: its `id`, its `name` (read with a default of "")
      and the names of its artists. The `id` key and each artist's `name`
      key are assumed present; the program reads them without a default. */
  datatype Track = Track(id: string, name: string, artists: seq<string>)

  /** The `tracks` object of a search response; its `items` key may be missing. */
  datatype Page = Page(items: Option<seq<Track>>)

  /** A search response; its `tracks` key may be missing. */
  datatype Response = Response(tracks: Option<Page>)

  /** `client.search(q=query, type="track", limit=limit)`. */
  type RawSearch = (string, nat) -> Result<Response, string>

  /** `client.user_playlist_create(...)` for a name and a visibility. */
  type RawCreate = (string, bool) -> Result<RawPlaylist, string>

  /** `client.playlist_add_items(playlist_id, batch)`. */
  type RawAddItems = (string, seq<string>) -> Result<(), string>

  /** A playlist as the API returns it: `id` and `external_urls.spotify`, either possibly missing. */
  datatype RawPlaylist = RawPlaylist(id: Option<string>, spotifyUrl: Option<string>)

  /** A created playlist; its id is non-empty. */
  datatype Playlist = Playlist(id: string, url: string)

  datatype SpotifyError = AuthenticationError(message: string) | APIError(message: string)

  datatype Client = Client(clientId: string, clientSecret: string, redirectUri: string, cachePath: string)

  const ClientIdVar := "SPOTIPY_CLIENT_ID"
  const ClientSecretVar := "SPOTIPY_CLIENT_SECRET"
  const RedirectUriVar := "SPOTIPY_REDIRECT_URI"
  const DefaultRedirectUri := "http://127.0.0.1:8888/callback"
  const DefaultCachePath := ".spotify_cache"
  const MaxBatchSize := 100
  const MissingCredentials :=
    "Spotify credentials not found. Please set SPOTIPY_CLIENT_ID and SPOTIPY_CLIENT_SECRET environment variables or pass them directly."

  predicate Truthy(s: Option<string>) {
    s.Some? && s.value != ""
  }

  /** `os.getenv(key)`. */
  function Getenv(env: map<string, string>, key: string): Option<string> {
    if key in env then Some(env[key]) else None
  }

  /** Python's `a or b` on two optional strings. */
  function OrElse(a: Option<string>, b: Option<string>): Option<string> {
    if Truthy(a) then a else b
  }

  /** The constructor: an argument that is missing or empty is replaced by
      the environment variable; without a client id and secret it raises
      AuthenticationError. */
  function NewClient(clientId: Option<string>, clientSecret: Option<string>,
                     redirectUri: Option<string>, cachePath: Option<string>,
                     env: map<string, string>): (r: Result<Client, SpotifyError>)
    ensures r.Ok? <==>
      (Truthy(clientId) || Truthy(Getenv(env, ClientIdVar))) &&
      (Truthy(clientSecret) || Truthy(Getenv(env, ClientSecretVar)))
    ensures r.Err? ==> r.error == AuthenticationError(MissingCredentials)
    ensures r.Ok? && Truthy(clientId) ==> r.value.clientId == clientId.value
    ensures r.Ok? && !Truthy(clientId) ==> r.value.clientId == env[ClientIdVar]
    ensures r.Ok? && Truthy(clientSecret) ==> r.value.clientSecret == clientSecret.value
    ensures r.Ok? && !Truthy(clientSecret) ==> r.value.clientSecret == env[ClientSecretVar]
  {
    var id := OrElse(clientId, Getenv(env, ClientIdVar));
    var secret := OrElse(clientSecret, Getenv(env, ClientSecretVar));
    var redirect := OrElse(redirectUri, Some(if RedirectUriVar in env then env[RedirectUriVar] else DefaultRedirectUri));
    var cache := if Truthy(cachePath) then cachePath.value else DefaultCachePath;
    if !Truthy(id) || !Truthy(secret) then Err(AuthenticationError(MissingCredentials))
    else Ok(Client(id.value, secret.value, redirect.value, cache))
  }

  /** `results.get("tracks", {}).get("items", [])`. */
  function Items(resp: Response): seq<Track> {
    match resp.tracks
    case None => []
    case Some(page) => if page.items.Some? then page.items.value else []
  }

  /** `search_track`: the items of the response, [] when a key is missing,
      APIError when the call raises. */
  function SearchTrack(raw: RawSearch, query: string, limit: nat): (r: Result<seq<Track>, SpotifyError>)
    ensures r.Err? <==> raw(query, limit).Err?
    ensures r.Err? ==> r.error == APIError("Search failed: " + raw(query, limit).error)
    ensures r.Ok? && raw(query, limit).value.tracks.None? ==> r.value == []
    ensures r.Ok? && raw(query, limit).value.tracks.Some? ==>
      r.value == raw(query, limit).value.tracks.value.items.GetOr([])
  {
    match raw(query, limit)
    case Err(e) => Err(APIError("Search failed: " + e))
    case Ok(resp) => Ok(Items(resp))
  }

  /** `artist.lower() in ' '.join(lower-cased artist names)`. */
  predicate ArtistListed(t: Track, artist: string) {
    Contains(Join(" ", Map(Lower, t.artists)), Lower(artist))
  }

  /** Index of the first track at or after `from` that lists `artist`, or |tracks|. */
  function FirstListing(tracks: seq<Track>, artist: string, from: nat): (k: nat)
    requires from <= |tracks|
    ensures from <= k <= |tracks|
    ensures k < |tracks| ==> ArtistListed(tracks[k], artist)
    ensures forall j :: from <= j < k ==> !ArtistListed(tracks[j], artist)
    decreases |tracks| - from
  {
    if from == |tracks| || ArtistListed(tracks[from], artist) then from
    else FirstListing(tracks, artist, from + 1)
  }

  /** The selection inside `search_track_advanced`: the first track that
      lists the artist, otherwise the first track. */
  function PickByArtist(tracks: seq<Track>, artist: string): (t: Track)
    requires |tracks| > 0
    ensures t in tracks
    ensures (exists k :: 0 <= k < |tracks| && ArtistListed(tracks[k], artist)) ==>
      exists k :: 0 <= k < |tracks| && t == tracks[k] && ArtistListed(t, artist) &&
        forall j :: 0 <= j < k ==> !ArtistListed(tracks[j], artist)
    ensures (forall k :: 0 <= k < |tracks| ==> !ArtistListed(tracks[k], artist)) ==> t == tracks[0]
  {
    var k := FirstListing(tracks, artist, 0);
    if k < |tracks| then tracks[k] else tracks[0]
  }

  /** The three queries of `search_track_advanced`, most precise first. */
  function AdvancedQueries(artist: string, title: string): seq<string> {
    [ "track:\"" + title + "\" artist:\"" + artist + "\"",
      "\"" + title + "\" \"" + artist + "\"",
      title + " " + artist ]
  }

  /** Index of the first query whose search raises or finds something, or |qs|. */
  function FirstAnswered(raw: RawSearch, qs: seq<string>): (i: nat)
    ensures i <= |qs|
    ensures forall j :: 0 <= j < i ==> SearchTrack(raw, qs[j], 5) == Ok([])
    ensures i < |qs| ==> SearchTrack(raw, qs[i], 5) != Ok([])
  {
    if |qs| == 0 || SearchTrack(raw, qs[0], 5) != Ok([]) then 0
    else 1 + FirstAnswered(raw, qs[1..])
  }

  /** The query loop of `search_track_advanced`: the first query with hits
      decides, and a raising search propagates. */
  function TryQueries(raw: RawSearch, qs: seq<string>, artist: string): (r: Result<seq<Track>, SpotifyError>)
    ensures var i := FirstAnswered(raw, qs);
      && (i == |qs| ==> r == Ok([]))
      && (i < |qs| && SearchTrack(raw, qs[i], 5).Err? ==> r == SearchTrack(raw, qs[i], 5).PropagateFailure())
      && (i < |qs| && SearchTrack(raw, qs[i], 5).Ok? ==>
            r == Ok([PickByArtist(SearchTrack(raw, qs[i], 5).value, artist)]))
    decreases |qs|
  {
    if |qs| == 0 then Ok([])
    else
      var tracks :- SearchTrack(raw, qs[0], 5);
      if |tracks| > 0 then Ok([PickByArtist(tracks, artist)])
      else TryQueries(raw, qs[1..], artist)
  }

  /** `search_track_advanced`: at most one track, taken from the first of
      the three queries that finds anything; [] only when all three find
      nothing. */
  function SearchTrackAdvanced(raw: RawSearch, artist: string, title: string): (r: Result<seq<Track>, SpotifyError>)
    ensures r.Ok? ==> |r.value| <= 1
    ensures r == Ok([]) <==>
      forall q :: q in AdvancedQueries(artist, title) ==> SearchTrack(raw, q, 5) == Ok([])
    ensures r.Ok? && |r.value| == 1 ==>
      exists q :: q in AdvancedQueries(artist, title) && SearchTrack(raw, q, 5).Ok? &&
        r.value[0] in SearchTrack(raw, q, 5).value
  {
    var qs := AdvancedQueries(artist, title);
    var r := TryQueries(raw, qs, artist);
    var i := FirstAnswered(raw, qs);
    assert forall q :: q in qs ==> exists j :: 0 <= j < |qs| && qs[j] == q;
    r
  }

  /** `create_playlist`: a response without an id, or a raising call,
      becomes APIError. */
  function CreatePlaylist(create: RawCreate, name: string, public: bool): (r: Result<Playlist, SpotifyError>)
    ensures r.Ok? ==> r.value.id != ""
    ensures r.Ok? <==> create(name, public).Ok? && Truthy(create(name, public).value.id)
    ensures r.Ok? ==> r.value.id == create(name, public).value.id.value
    ensures r.Ok? ==> r.value.url == create(name, public).value.spotifyUrl.GetOr("")
    ensures r.Err? ==> r.error.APIError?
  {
    match create(name, public)
    case Err(e) => Err(APIError("Playlist creation failed: " + e))
    case Ok(p) =>
      if !Truthy(p.id) then Err(APIError("Playlist creation failed: Playlist creation returned invalid response"))
      else Ok(Playlist(p.id.value, p.spotifyUrl.GetOr("")))
  }

  /** Number of ids added by the batch loop: a batch whose call raises adds
      nothing and the loop moves on. */
  function AddedCount(add: RawAddItems, playlistId: string, batches: seq<seq<string>>): nat
    decreases |batches|
  {
    if |batches| == 0 then 0
    else (if add(playlistId, batches[0]).Ok? then |batches[0]| else 0) + AddedCount(add, playlistId, batches[1..])
  }

  /** `add_tracks_to_playlist`: (success, number of tracks added). The batch
      size is clamped to 100; a zero batch size makes `range` raise, which the
      outer handler turns into (False, 0); a negative one gives an empty range. */
  function AddTracksToPlaylist(add: RawAddItems, playlistId: string, trackIds: seq<string>, batchSize: int): (r: (bool, nat))
    ensures |trackIds| == 0 ==> r == (true, 0)
    ensures r.1 <= |trackIds|
    ensures !r.0 <==> |trackIds| > 0 && batchSize == 0
    ensures batchSize <= 0 ==> r.1 == 0
    ensures 0 < batchSize && |trackIds| > 0 ==>
      r.1 == AddedCount(add, playlistId, Batches(trackIds, if batchSize < MaxBatchSize then batchSize else MaxBatchSize))
  {
    if |trackIds| == 0 then (true, 0)
    else
      var size := if batchSize < MaxBatchSize then batchSize else MaxBatchSize;
      if size == 0 then (false, 0)
      else if size < 0 then (true, 0)
      else
        var batches := Batches(trackIds, size);
        BatchesPartition(trackIds, size);
        AddedCountBounded(add, playlistId, batches);
        (true, AddedCount(add, playlistId, batches))
  }

  lemma {:induction false} AddedCountBounded(add: RawAddItems, playlistId: string, batches: seq<seq<string>>)
    ensures AddedCount(add, playlistId, batches) <= |Flatten(batches)|
    decreases |batches|
  {
    if |batches| > 0 {
      AddedCountBounded(add, playlistId, batches[1..]);
    }
  }

  /** The count is the total size of exactly the batches whose call succeeded. */
  lemma {:induction false} AddedCountIsSuccessfulBatches(add: RawAddItems, playlistId: string, batches: seq<seq<string>>)
    ensures AddedCount(add, playlistId, batches) ==
      |Flatten(Filter((b: seq<string>) => add(playlistId, b).Ok?, batches))|
    decreases |batches|
  {
    if |batches| > 0 {
      AddedCountIsSuccessfulBatches(add, playlistId, batches[1..]);
      var p := (b: seq<string>) => add(playlistId, b).Ok?;
      if p(batches[0]) {
        var f := Filter(p, batches);
        assert f == [batches[0]] + Filter(p, batches[1..]);
        assert Flatten(f) == batches[0] + Flatten(Filter(p, batches[1..]));
      }
    }
  }

  /** When every batch call succeeds, every id is counted. */
  lemma AllBatchesSucceed(add: RawAddItems, playlistId: string, trackIds: seq<string>, batchSize: int)
    requires 0 < batchSize
    requires forall b :: add(playlistId, b).Ok?
    ensures AddTracksToPlaylist(add, playlistId, trackIds, batchSize) == (true, |trackIds|)
  {
    if |trackIds| > 0 {
      var size := if batchSize < MaxBatchSize then batchSize else MaxBatchSize;
      AllAdded(add, playlistId, Batches(trackIds, size));
      BatchesPartition(trackIds, size);
    }
  }

  lemma {:induction false} AllAdded(add: RawAddItems, playlistId: string, batches: seq<seq<string>>)
    requires forall b :: add(playlistId, b).Ok?
    ensures AddedCount(add, playlistId, batches) == |Flatten(batches)|
    decreases |batches|
  {
    if |batches| > 0 {
      AllAdded(add, playlistId, batches[1..]);
    }
  }
}
