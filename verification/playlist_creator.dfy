/** `PlaylistCreator`: resolves every non-blank line, keeps the distinct ids
    in first-seen order, and only when there is at least one creates the
    playlist and adds them in batches of 100; plus the text summary of the
    outcome. */
module PlaylistCreator {
  import opened Wrappers
  import opened Text
  import opened Seqs
  import opened TrackSearcher
  import SpotifyClient
  import FileUtils

  datatype CreationResult = CreationResult(
    success: bool,
    playlistId: Option<string>,
    playlistUrl: Option<string>,
    totalRequested: nat,
    tracksFound: nat,
    tracksAdded: nat,
    failedTracks: seq<string>,
    searchResults: seq<TrackSearchResult>)

  /** The three lists the search loop builds. */
  datatype Collected = Collected(results: seq<TrackSearchResult>, found: seq<string>, failed: seq<string>)

  /** `result.success and result.track_id`. */
  predicate Resolved(r: TrackSearchResult) {
    r.success && r.trackId.Some? && r.trackId.value != ""
  }

  /** What the search loop leaves behind: one result per non-blank line, in
      order; every resolved result's id in `found`, every unresolved line in
      `failed`, and nothing else in either list. */
  predicate CollectSpec(search: string -> TrackSearchResult, lines: seq<string>, c: Collected) {
    var asked := Filter(NonBlank, lines);
    && |c.results| == |asked|
    && (forall k :: 0 <= k < |c.results| ==> c.results[k] == search(asked[k]))
    && |c.found| + |c.failed| == |c.results|
    && (forall k :: 0 <= k < |c.found| ==> c.found[k] != "")
    && (forall k :: 0 <= k < |c.failed| ==> c.failed[k] in lines && NonBlank(c.failed[k]))
    && (forall k :: 0 <= k < |c.results| && Resolved(c.results[k]) ==> c.results[k].trackId.value in c.found)
    && (forall k :: 0 <= k < |c.results| && !Resolved(c.results[k]) ==> asked[k] in c.failed)
  }

  /** The search loop of `create_from_tracks`: one search per non-blank line,
      whose id goes to `found` when it resolved and whose line goes to
      `failed` otherwise. */
  function Collect(search: string -> TrackSearchResult, lines: seq<string>): (c: Collected)
    ensures CollectSpec(search, lines, c)
    decreases |lines|
  {
    if |lines| == 0 then Collected([], [], [])
    else
      var rest := Collect(search, lines[1..]);
      var c :=
        if !NonBlank(lines[0]) then rest
        else
          var r := search(lines[0]);
          if Resolved(r) then Collected([r] + rest.results, [r.trackId.value] + rest.found, rest.failed)
          else Collected([r] + rest.results, rest.found, [lines[0]] + rest.failed);
      CollectStep(search, lines, rest, c);
      c
  }

  /** One turn of the search loop keeps `CollectSpec`. */
  lemma CollectStep(search: string -> TrackSearchResult, lines: seq<string>, rest: Collected, c: Collected)
    requires |lines| > 0 && CollectSpec(search, lines[1..], rest)
    requires !NonBlank(lines[0]) ==> c == rest
    requires NonBlank(lines[0]) ==>
      var r := search(lines[0]);
      if Resolved(r) then c == Collected([r] + rest.results, [r.trackId.value] + rest.found, rest.failed)
      else c == Collected([r] + rest.results, rest.found, [lines[0]] + rest.failed)
    ensures CollectSpec(search, lines, c)
  {
    if !NonBlank(lines[0]) {
      CollectSkip(search, lines, rest);
    } else if Resolved(search(lines[0])) {
      CollectResolved(search, lines, rest);
    } else {
      CollectUnresolved(search, lines, rest);
    }
  }

  lemma CollectSkip(search: string -> TrackSearchResult, lines: seq<string>, rest: Collected)
    requires |lines| > 0 && !NonBlank(lines[0]) && CollectSpec(search, lines[1..], rest)
    ensures CollectSpec(search, lines, rest)
  {
    assert Filter(NonBlank, lines) == Filter(NonBlank, lines[1..]);
    forall k | 0 <= k < |rest.failed|
      ensures rest.failed[k] in lines
    {
      assert rest.failed[k] in lines[1..];
    }
  }

  lemma CollectResolved(search: string -> TrackSearchResult, lines: seq<string>, rest: Collected)
    requires |lines| > 0 && NonBlank(lines[0]) && Resolved(search(lines[0]))
    requires CollectSpec(search, lines[1..], rest)
    ensures var r := search(lines[0]);
      CollectSpec(search, lines, Collected([r] + rest.results, [r.trackId.value] + rest.found, rest.failed))
  {
    var r := search(lines[0]);
    var c := Collected([r] + rest.results, [r.trackId.value] + rest.found, rest.failed);
    var asked := Filter(NonBlank, lines);
    assert asked == [lines[0]] + Filter(NonBlank, lines[1..]);
    forall k | 0 <= k < |c.results|
      ensures c.results[k] == search(asked[k])
    {
      if k > 0 {
        assert c.results[k] == rest.results[k - 1] && asked[k] == Filter(NonBlank, lines[1..])[k - 1];
      }
    }
    forall k | 0 <= k < |c.found|
      ensures c.found[k] != ""
    {
      if k > 0 {
        assert c.found[k] == rest.found[k - 1];
      }
    }
    forall k | 0 <= k < |c.failed|
      ensures c.failed[k] in lines
    {
      assert c.failed[k] in lines[1..];
    }
    forall k | 0 <= k < |c.results| && Resolved(c.results[k])
      ensures c.results[k].trackId.value in c.found
    {
      if k > 0 {
        assert c.results[k] == rest.results[k - 1];
      }
    }
    forall k | 0 <= k < |c.results| && !Resolved(c.results[k])
      ensures asked[k] in c.failed
    {
      assert k > 0 && c.results[k] == rest.results[k - 1] && asked[k] == Filter(NonBlank, lines[1..])[k - 1];
    }
    assert CollectSpec(search, lines, c);
  }

  lemma CollectUnresolved(search: string -> TrackSearchResult, lines: seq<string>, rest: Collected)
    requires |lines| > 0 && NonBlank(lines[0]) && !Resolved(search(lines[0]))
    requires CollectSpec(search, lines[1..], rest)
    ensures var r := search(lines[0]);
      CollectSpec(search, lines, Collected([r] + rest.results, rest.found, [lines[0]] + rest.failed))
  {
    var r := search(lines[0]);
    var c := Collected([r] + rest.results, rest.found, [lines[0]] + rest.failed);
    var asked := Filter(NonBlank, lines);
    assert asked == [lines[0]] + Filter(NonBlank, lines[1..]);
    forall k | 0 <= k < |c.results|
      ensures c.results[k] == search(asked[k])
    {
      if k > 0 {
        assert c.results[k] == rest.results[k - 1] && asked[k] == Filter(NonBlank, lines[1..])[k - 1];
      }
    }
    forall k | 0 <= k < |c.failed|
      ensures c.failed[k] in lines && NonBlank(c.failed[k])
    {
      if k > 0 {
        assert c.failed[k] == rest.failed[k - 1];
        assert c.failed[k] in lines[1..];
      }
    }
    forall k | 0 <= k < |c.results| && Resolved(c.results[k])
      ensures c.results[k].trackId.value in c.found
    {
      assert k > 0 && c.results[k] == rest.results[k - 1];
    }
    forall k | 0 <= k < |c.results| && !Resolved(c.results[k])
      ensures asked[k] in c.failed
    {
      if k > 0 {
        assert c.results[k] == rest.results[k - 1] && asked[k] == Filter(NonBlank, lines[1..])[k - 1];
      }
    }
    assert CollectSpec(search, lines, c);
  }

  /** The id a result carries, "" for none. */
  function IdOf(r: TrackSearchResult): string {
    if r.trackId.Some? then r.trackId.value else ""
  }

  /** `found` is exactly the ids of the resolved results, in their order. */
  lemma {:induction false} FoundAreResolvedIds(search: string -> TrackSearchResult, lines: seq<string>)
    ensures Collect(search, lines).found == Map(IdOf, Filter(Resolved, Collect(search, lines).results))
    decreases |lines|
  {
    if |lines| > 0 {
      FoundAreResolvedIds(search, lines[1..]);
      var rest := Collect(search, lines[1..]);
      if NonBlank(lines[0]) {
        var r := search(lines[0]);
        var rs := [r] + rest.results;
        assert rs[1..] == rest.results;
        if Resolved(r) {
          assert Filter(Resolved, rs) == [r] + Filter(Resolved, rest.results);
          MapCons(IdOf, r, Filter(Resolved, rest.results));
        } else {
          assert Filter(Resolved, rs) == Filter(Resolved, rest.results);
        }
      }
    }
  }

  /** A line the search does not resolve. */
  function UnresolvedBy(search: string -> TrackSearchResult): string -> bool {
    l => !Resolved(search(l))
  }

  /** `failed` is exactly the non-blank lines whose search did not resolve,
      in their order. */
  lemma {:induction false} FailedAreUnresolvedLines(search: string -> TrackSearchResult, lines: seq<string>)
    ensures Collect(search, lines).failed == Filter(UnresolvedBy(search), Filter(NonBlank, lines))
    decreases |lines|
  {
    if |lines| > 0 {
      var l, tail := lines[0], lines[1..];
      var u := UnresolvedBy(search);
      FailedAreUnresolvedLines(search, tail);
      CollectFailedStep(search, lines);
      assert lines == [l] + tail;
      FilterTwiceCons(NonBlank, u, l, tail);
      assert u(l) == !Resolved(search(l));
    }
  }

  /** One line's share of `failed`: itself when non-blank and unresolved. */
  lemma CollectFailedStep(search: string -> TrackSearchResult, lines: seq<string>)
    requires |lines| > 0
    ensures Collect(search, lines).failed ==
      (if NonBlank(lines[0]) && !Resolved(search(lines[0])) then [lines[0]] else []) +
      Collect(search, lines[1..]).failed
  {
  }

  const DefaultBatchSize := 100

  /** `self.searcher.search_track`. */
  function Searcher(raw: RawSearch, lookup: TrackLookup): string -> TrackSearchResult {
    line => SearchTrack(raw, lookup, line)
  }

  /** `create_from_tracks`. Nothing found: no playlist is created and the
      result reports failure. Otherwise the playlist is created and the
      distinct ids are added; a failed creation reports failure with the
      number of ids found. */
  function CreateFromTracks(raw: RawSearch, lookup: TrackLookup, create: SpotifyClient.RawCreate,
                            add: SpotifyClient.RawAddItems, name: string, lines: seq<string>, public: bool)
    : (r: CreationResult)
    ensures var c := Collect(Searcher(raw, lookup), lines);
      && r.totalRequested == |lines|
      && r.searchResults == c.results
      && r.failedTracks == c.failed
      && r.tracksFound == |Unique(c.found)|
    ensures r.tracksFound <= |Filter(NonBlank, lines)|
    ensures r.tracksAdded <= r.tracksFound
    ensures r.success <==> r.tracksFound > 0 && SpotifyClient.CreatePlaylist(create, name, public).Ok?
    ensures r.success ==> r.playlistId.Some? && r.playlistId.value != ""
    ensures r.success ==>
      var p := SpotifyClient.CreatePlaylist(create, name, public).value;
      var c := Collect(Searcher(raw, lookup), lines);
      && r.playlistId == Some(p.id)
      && r.playlistUrl == Some(p.url)
      && r.tracksAdded == SpotifyClient.AddedCount(add, p.id, Batches(Unique(c.found), DefaultBatchSize))
    ensures !r.success ==> r.playlistId.None? && r.playlistUrl.None? && r.tracksAdded == 0
  {
    var c := Collect(Searcher(raw, lookup), lines);
    var unique := Unique(c.found);
    if |unique| == 0 then
      CreationResult(false, None, None, |lines|, 0, 0, c.failed, c.results)
    else
      match SpotifyClient.CreatePlaylist(create, name, public)
      case Err(_) => CreationResult(false, None, None, |lines|, |unique|, 0, c.failed, c.results)
      case Ok(p) =>
        var added := SpotifyClient.AddTracksToPlaylist(add, p.id, unique, DefaultBatchSize);
        CreationResult(added.0, Some(p.id), Some(p.url), |lines|, |unique|, added.1, c.failed, c.results)
  }

  /** With nothing found, the catalog's create and add calls play no part:
      the result is the same whatever they would answer. */
  lemma NothingFoundCreatesNothing(raw: RawSearch, lookup: TrackLookup,
                                   create1: SpotifyClient.RawCreate, add1: SpotifyClient.RawAddItems,
                                   create2: SpotifyClient.RawCreate, add2: SpotifyClient.RawAddItems,
                                   name: string, lines: seq<string>, public: bool)
    requires |Collect(Searcher(raw, lookup), lines).found| == 0
    ensures CreateFromTracks(raw, lookup, create1, add1, name, lines, public) ==
            CreateFromTracks(raw, lookup, create2, add2, name, lines, public)
    ensures !CreateFromTracks(raw, lookup, create1, add1, name, lines, public).success
    ensures CreateFromTracks(raw, lookup, create1, add1, name, lines, public).tracksFound == 0
  {
  }

  /** `tracks_found` counts distinct ids: lines that resolve to the same
      track count once. */
  lemma TracksFoundCountsDistinctIds(raw: RawSearch, lookup: TrackLookup, create: SpotifyClient.RawCreate,
                                     add: SpotifyClient.RawAddItems, name: string, lines: seq<string>, public: bool)
    ensures var c := Collect(Searcher(raw, lookup), lines);
      CreateFromTracks(raw, lookup, create, add, name, lines, public).tracksFound == |set x | x in c.found|
  {
    UniqueCountsDistinct(Collect(Searcher(raw, lookup), lines).found);
  }

  /** Three lines naming the same track report one track found. */
  lemma RepeatedIdCountsOnce(raw: RawSearch, lookup: TrackLookup, create: SpotifyClient.RawCreate,
                             add: SpotifyClient.RawAddItems, name: string, lines: seq<string>, public: bool, id: string)
    requires var c := Collect(Searcher(raw, lookup), lines); |c.found| > 0 && forall k :: 0 <= k < |c.found| ==> c.found[k] == id
    ensures CreateFromTracks(raw, lookup, create, add, name, lines, public).tracksFound == 1
  {
    var c := Collect(Searcher(raw, lookup), lines);
    UniqueCountsDistinct(c.found);
    SingleValueSet(c.found, id);
  }

  lemma SingleValueSet(s: seq<string>, id: string)
    requires |s| > 0 && forall k :: 0 <= k < |s| ==> s[k] == id
    ensures (set x | x in s) == {id}
  {
    assert s[0] in s;
  }

  /** When the catalog accepts the playlist and every batch, every distinct
      id found is added. */
  lemma ReliableCatalogAddsEverything(raw: RawSearch, lookup: TrackLookup, create: SpotifyClient.RawCreate,
                                      add: SpotifyClient.RawAddItems, name: string, lines: seq<string>, public: bool)
    requires SpotifyClient.CreatePlaylist(create, name, public).Ok?
    requires forall p, b :: add(p, b).Ok?
    requires |Collect(Searcher(raw, lookup), lines).found| > 0
    ensures var r := CreateFromTracks(raw, lookup, create, add, name, lines, public);
      r.success && r.tracksAdded == r.tracksFound
  {
    var c := Collect(Searcher(raw, lookup), lines);
    assert c.found[0] in Unique(c.found);
    var p := SpotifyClient.CreatePlaylist(create, name, public).value;
    SpotifyClient.AllBatchesSucceed(add, p.id, Unique(c.found), DefaultBatchSize);
  }

  // ------------------------------------------------------------- from a file

  /** `_read_tracks_from_file`: a missing path raises before anything is
      read; otherwise the file is opened as UTF-8 (an open or decode failure
      raises) and every non-blank line is kept stripped. Comment lines are
      not filtered here. None stands for the exception. */
  function ReadTracksFromFile(f: FileUtils.FileFacts): (r: Option<seq<string>>)
    ensures r.Some? <==> f.present && f.decode("utf-8").Some?
    ensures r.Some? ==> |r.value| <= |f.decode("utf-8").value|
    ensures r.Some? ==> forall k :: 0 <= k < |r.value| ==> NonBlank(r.value[k]) && Strip(r.value[k]) == r.value[k]
  {
    if !f.present then None
    else match f.decode("utf-8")
      case None => None
      case Some(lines) => Some(FileUtils.StrippedLines(lines))
  }

  /** For a regular file that decodes as UTF-8, `read_playlist_file` gives
      the lines this reader gives, less the comment lines. */
  lemma ReadersDifferOnlyInComments(f: FileUtils.FileFacts)
    requires f.present && f.isFile && f.decode("utf-8").Some?
    ensures FileUtils.ReadPlaylistFile(f) ==
      Ok(Filter(FileUtils.NotComment, ReadTracksFromFile(f).value))
  {
    FileUtils.Utf8ComesFirst(f);
    FileUtils.FilterLinesDropsOnlyComments(f.decode("utf-8").value);
  }

  /** `create_from_file`: a file that cannot be read or has no non-blank
      line gives `(False, None)`; otherwise the success flag and url of
      `create_from_tracks` on its lines. */
  function CreateFromFile(raw: RawSearch, lookup: TrackLookup, create: SpotifyClient.RawCreate,
                          add: SpotifyClient.RawAddItems, name: string, f: FileUtils.FileFacts, public: bool)
    : (r: (bool, Option<string>))
    ensures ReadTracksFromFile(f).None? || |ReadTracksFromFile(f).value| == 0 ==> r == (false, None)
    ensures r.0 <==>
      && ReadTracksFromFile(f).Some?
      && CreateFromTracks(raw, lookup, create, add, name, ReadTracksFromFile(f).value, public).success
    ensures r.0 ==> r.1.Some?
    ensures ReadTracksFromFile(f).Some? && |ReadTracksFromFile(f).value| > 0 ==>
      r.1 == CreateFromTracks(raw, lookup, create, add, name, ReadTracksFromFile(f).value, public).playlistUrl
  {
    match ReadTracksFromFile(f)
    case None => (false, None)
    case Some(lines) =>
      if |lines| == 0 then (false, None)
      else
        var res := CreateFromTracks(raw, lookup, create, add, name, lines, public);
        (res.success, res.playlistUrl)
  }

  /** A file whose lines are all blank never reaches the catalog: the
      outcome is the same whatever create and add would answer. */
  lemma BlankFileReachesNoCatalog(raw: RawSearch, lookup: TrackLookup,
                                  create1: SpotifyClient.RawCreate, add1: SpotifyClient.RawAddItems,
                                  create2: SpotifyClient.RawCreate, add2: SpotifyClient.RawAddItems,
                                  name: string, f: FileUtils.FileFacts, public: bool)
    requires f.present && f.decode("utf-8").Some?
    requires forall k :: 0 <= k < |f.decode("utf-8").value| ==> IsBlank(f.decode("utf-8").value[k])
    ensures CreateFromFile(raw, lookup, create1, add1, name, f, public) == (false, None)
    ensures CreateFromFile(raw, lookup, create2, add2, name, f, public) == (false, None)
  {
  }

  // ----------------------------------------------------------------- summary

  const MaxListedFailures: nat := 5
  const SuccessHeader := "✅ Playlist created successfully!"
  const FailedHeader := "\n❌ Failed to find:"

  function Bullet(s: string): string {
    "   • " + s
  }

  function MoreLine(n: nat): string {
    Bullet("... and " + NatToString(n) + " more")
  }

  function Min(a: nat, b: nat): nat {
    if a < b then a else b
  }

  /** The failed-tracks part of the summary: a header, at most five failed
      lines in their order, and a line counting the rest exactly when there
      are more than five. */
  function FailedSection(failed: seq<string>): (lines: seq<string>)
    ensures |failed| == 0 <==> |lines| == 0
    ensures |failed| > 0 ==>
      && lines[0] == FailedHeader
      && |lines| == 1 + Min(|failed|, MaxListedFailures) + (if |failed| > MaxListedFailures then 1 else 0)
      && (forall k :: 0 <= k < Min(|failed|, MaxListedFailures) ==> lines[1 + k] == Bullet(failed[k]))
    ensures |failed| > MaxListedFailures ==> lines[|lines| - 1] == MoreLine(|failed| - MaxListedFailures)
  {
    if |failed| == 0 then []
    else
      var shown := SliceTo(failed, MaxListedFailures);
      [FailedHeader] + Map(Bullet, shown) +
      (if |failed| > MaxListedFailures then [MoreLine(|failed| - MaxListedFailures)] else [])
  }

  function FailureSummary(r: CreationResult): string {
    "❌ Playlist creation failed. Found " + NatToString(r.tracksFound) + "/" +
    NatToString(r.totalRequested) + " tracks."
  }

  /** The lines of a successful summary. */
  function SummaryLines(r: CreationResult): (lines: seq<string>)
    ensures |lines| >= 6 && lines[0] == SuccessHeader
    ensures |lines| == 6 + (if r.playlistUrl.Some? && r.playlistUrl.value != "" then 1 else 0) +
      |FailedSection(r.failedTracks)|
    ensures (r.playlistUrl.Some? && r.playlistUrl.value != "") ==>
      lines[6] == "\U{1F517} Playlist URL: " + r.playlistUrl.value
    ensures lines[1] == "\U{1F4CA} Statistics:"
    ensures lines[2] == Bullet("Total tracks requested: " + NatToString(r.totalRequested))
    ensures lines[3] == Bullet("Tracks found: " + NatToString(r.tracksFound))
    ensures lines[4] == Bullet("Tracks added: " + NatToString(r.tracksAdded))
    ensures lines[5] == Bullet("Failed tracks: " + NatToString(|r.failedTracks|))
    ensures lines[|lines| - |FailedSection(r.failedTracks)|..] == FailedSection(r.failedTracks)
  {
    var stats, url, failed := StatsLines(r), UrlLines(r.playlistUrl), FailedSection(r.failedTracks);
    var lines := stats + url + failed;
    assert lines[..6] == stats;
    assert lines[|stats + url|..] == failed;
    lines
  }

  function StatsLines(r: CreationResult): seq<string> {
    [ SuccessHeader,
      "\U{1F4CA} Statistics:",
      Bullet("Total tracks requested: " + NatToString(r.totalRequested)),
      Bullet("Tracks found: " + NatToString(r.tracksFound)),
      Bullet("Tracks added: " + NatToString(r.tracksAdded)),
      Bullet("Failed tracks: " + NatToString(|r.failedTracks|)) ]
  }

  function UrlLines(url: Option<string>): seq<string> {
    if url.Some? && url.value != "" then ["\U{1F517} Playlist URL: " + url.value] else []
  }

  /** `get_creation_summary`: one failure line, or the summary lines joined
      by newlines. */
  function GetCreationSummary(r: CreationResult): (s: string)
    ensures !r.success ==> s == FailureSummary(r)
    ensures r.success ==> StartsWith(s, SuccessHeader)
  {
    if !r.success then FailureSummary(r)
    else
      var lines := SummaryLines(r);
      JoinStartsWithFirst("\n", lines);
      Join("\n", lines)
  }

  /** A string without a line break. */
  predicate OneLine(s: string) {
    '\n' !in s
  }

  lemma DigitsAreOneLine(n: nat)
    ensures OneLine(NatToString(n))
  {
    var d := NatToString(n);
    forall k | 0 <= k < |d|
      ensures d[k] != '\n'
    {
    }
  }

  lemma BulletIsOneLine(s: string)
    requires OneLine(s)
    ensures OneLine(Bullet(s))
  {
  }

  lemma StatsAreOneLine(r: CreationResult)
    ensures AllOneLine(StatsLines(r))
  {
    DigitsAreOneLine(r.totalRequested);
    DigitsAreOneLine(r.tracksFound);
    DigitsAreOneLine(r.tracksAdded);
    DigitsAreOneLine(|r.failedTracks|);
  }

  lemma FailedLinesAreOneLine(failed: seq<string>)
    requires forall k :: 0 <= k < |failed| ==> OneLine(failed[k])
    ensures forall k :: 1 <= k < |FailedSection(failed)| ==> OneLine(FailedSection(failed)[k])
  {
    var f := FailedSection(failed);
    if |failed| > MaxListedFailures {
      DigitsAreOneLine(|failed| - MaxListedFailures);
    }
    forall k | 1 <= k < |f|
      ensures OneLine(f[k])
    {
      if k <= Min(|failed|, MaxListedFailures) {
        assert f[k] == Bullet(failed[k - 1]);
      }
    }
  }

  predicate AllOneLine(ls: seq<string>) {
    forall k :: 0 <= k < |ls| ==> OneLine(ls[k])
  }

  lemma AllOneLineConcat(a: seq<string>, b: seq<string>)
    requires AllOneLine(a) && AllOneLine(b)
    ensures AllOneLine(a + b)
  {
    forall k | |a| <= k < |a + b|
      ensures OneLine((a + b)[k])
    {
      assert (a + b)[k] == b[k - |a|];
    }
  }

  /** Every summary line but the failed-tracks header is one line of text
      when the url and the failed lines are. */
  lemma SummaryLinesAreOneLine(r: CreationResult)
    requires r.playlistUrl.Some? ==> OneLine(r.playlistUrl.value)
    requires forall k :: 0 <= k < |r.failedTracks| ==> OneLine(r.failedTracks[k])
    ensures var lines := SummaryLines(r);
      var h := |lines| - |FailedSection(r.failedTracks)|;
      AllOneLine(lines[..h]) && (h < |lines| ==> AllOneLine(lines[h + 1..]))
  {
    var head := StatsLines(r) + UrlLines(r.playlistUrl);
    var f := FailedSection(r.failedTracks);
    StatsAreOneLine(r);
    AllOneLineConcat(StatsLines(r), UrlLines(r.playlistUrl));
    FailedLinesAreOneLine(r.failedTracks);
    var lines := SummaryLines(r);
    assert lines == head + f;
    assert lines[..|head|] == head;
    if |f| > 0 {
      assert lines[|head| + 1..] == f[1..];
      assert AllOneLine(f[1..]);
    }
  }

  /** The successful summary read back line by line: each summary line is
      one line of the text, except the failed-tracks header, whose leading
      line break shows as an empty line before it. */
  lemma SummaryReadsBack(r: CreationResult)
    requires r.success
    requires r.playlistUrl.Some? ==> OneLine(r.playlistUrl.value)
    requires forall k :: 0 <= k < |r.failedTracks| ==> OneLine(r.failedTracks[k])
    ensures var lines := SummaryLines(r);
      var h := |lines| - |FailedSection(r.failedTracks)|;
      Split(GetCreationSummary(r), '\n') ==
        if |r.failedTracks| == 0 then lines
        else lines[..h] + ["", FailedHeader[1..]] + lines[h + 1..]
  {
    if |r.failedTracks| == 0 {
      SummaryWithoutFailuresReadsBack(r);
    } else {
      SummaryWithFailuresReadsBack(r);
    }
  }

  /** Without failures every summary line is one line of the text. */
  lemma SummaryWithoutFailuresReadsBack(r: CreationResult)
    requires r.success && |r.failedTracks| == 0
    requires r.playlistUrl.Some? ==> OneLine(r.playlistUrl.value)
    ensures Split(GetCreationSummary(r), '\n') == SummaryLines(r)
  {
    var lines := SummaryLines(r);
    SummaryLinesAreOneLine(r);
    assert lines[..|lines|] == lines;
    SplitJoin(lines, '\n');
  }

  /** With failures the header's leading line break adds an empty line. */
  lemma SummaryWithFailuresReadsBack(r: CreationResult)
    requires r.success && |r.failedTracks| > 0
    requires r.playlistUrl.Some? ==> OneLine(r.playlistUrl.value)
    requires forall k :: 0 <= k < |r.failedTracks| ==> OneLine(r.failedTracks[k])
    ensures var lines := SummaryLines(r);
      var h := |lines| - |FailedSection(r.failedTracks)|;
      Split(GetCreationSummary(r), '\n') == lines[..h] + ["", FailedHeader[1..]] + lines[h + 1..]
  {
    var lines := SummaryLines(r);
    var h := |lines| - |FailedSection(r.failedTracks)|;
    SummaryLinesAreOneLine(r);
    var pre, x, post := lines[..h], FailedHeader[1..], lines[h + 1..];
    assert lines[h] == ['\n'] + x;
    calc {
      Split(GetCreationSummary(r), '\n');
    ==
      Split(Join("\n", lines), '\n');
    == { assert lines == pre + [['\n'] + x] + post; }
      Split(Join(['\n'], pre + [['\n'] + x] + post), '\n');
    == { assert OneLine(x); SplitJoinLeadingSeparator('\n', pre, x, post); }
      pre + ["", x] + post;
    }
  }
}
