/** The stand-alone command-line script: its own line classifier (bare id,
    then URI, then link), its three-query `search_track_id` fallback, the
    order-keeping duplicate removal and the batches of 100 sent to the
    playlist. */
module LegacyMain {
  import opened Wrappers
  import opened Text
  import opened Seqs
  import opened Cleaning
  import opened TrackParser
  import SpotifyClient
  import opened FileUtils

  type RawSearch = SpotifyClient.RawSearch
  type RawAddItems = SpotifyClient.RawAddItems

  const Separator := " - "
  const BatchLimit: nat := 100

  // ------------------------------------------------------- line classifier

  /** The id checks of the main loop, on an already stripped line: the whole
      line as an id, then the first URI, then the first link. */
  function ClassifyLine(line: string): (r: Option<string>)
    ensures r.Some? ==> IsTrackId(r.value)
    ensures r.None? <==>
      !IsTrackId(line) && SearchPattern(line, UriPrefix).None? && SearchPattern(line, UrlPrefix).None?
  {
    if IsTrackId(line) then Some(line)
    else if SearchPattern(line, UriPrefix).Some? then SearchPattern(line, UriPrefix)
    else SearchPattern(line, UrlPrefix)
  }

  /** On a stripped line the script and the parser agree on whether the line
      holds an id, and on the id itself unless the line holds both a URI and
      a link: the script takes the URI, the parser the link. */
  lemma ClassifiersAgree(line: string)
    requires Strip(line) == line
    ensures ClassifyLine(line).Some? <==> ExtractTrackId(line).Some?
    ensures SearchPattern(line, UriPrefix).None? || SearchPattern(line, UrlPrefix).None? ==>
      ClassifyLine(line) == ExtractTrackId(line)
    ensures !IsTrackId(line) && SearchPattern(line, UriPrefix).Some? && SearchPattern(line, UrlPrefix).Some? ==>
      ClassifyLine(line) == SearchPattern(line, UriPrefix) && ExtractTrackId(line) == SearchPattern(line, UrlPrefix)
  {
  }

  // -------------------------------------------------------- search_track_id

  /** `query.split(" - ", 1)`: the title before the first separator and the
      artist after it. */
  function SplitTitleArtist(query: string): (r: (string, string))
    requires Contains(query, Separator)
    ensures r.0 + Separator + r.1 == query
    ensures forall j: nat :: j < |r.0| ==> !OccursAt(query, Separator, j)
  {
    var k := Find(query, Separator);
    assert query == query[..k] + Separator + query[k + 3..];
    (query[..k], query[k + 3..])
  }

  function PreciseQuery(title: string, artist: string): string {
    "track:\"" + title + "\" artist:\"" + artist + "\""
  }

  function FlexibleQuery(title: string, artist: string): string {
    StripPunctuation(title) + " " + StripPunctuation(artist)
  }

  /** The queries the script may send, in order: the precise and the
      punctuation-free ones only when the line has a separator, the line
      itself always. */
  function LegacyQueries(query: string): (qs: seq<string>)
    ensures |qs| == 1 || |qs| == 3
    ensures |qs| == 3 <==> Contains(query, Separator)
    ensures query in qs
  {
    if Contains(query, Separator) then
      var (title, artist) := SplitTitleArtist(query);
      [PreciseQuery(title, artist), query, FlexibleQuery(title, artist)]
    else [query]
  }

  /** A one-result search on `q` ends the cascade: it raises or finds a track. */
  predicate Answers(raw: RawSearch, q: string) {
    raw(q, 1).Err? || |SpotifyClient.Items(raw(q, 1).value)| > 0
  }

  /** Index of the first query that answers, or |qs|. */
  function FirstAnswer(raw: RawSearch, qs: seq<string>): (i: nat)
    ensures i <= |qs|
    ensures forall j :: 0 <= j < i ==> !Answers(raw, qs[j])
    ensures i < |qs| ==> Answers(raw, qs[i])
  {
    if |qs| == 0 || Answers(raw, qs[0]) then 0 else 1 + FirstAnswer(raw, qs[1..])
  }

  /** The outcome of `search_track_id`: the id ("" for none) and the queries
      sent. */
  datatype Lookup = Lookup(id: string, sent: seq<string>)

  /** `search_track_id`: the first query with a hit gives the id. A raising
      search gives "", and so does a hit of the punctuation-free query whose
      first track lists no artist, because the log line after it indexes the
      first artist and the `except` swallows the error. */
  function SearchTrackId(raw: RawSearch, query: string): (r: Lookup)
    ensures var qs := LegacyQueries(query);
      && 0 < |r.sent| <= |qs|
      && r.sent == qs[..|r.sent|]
    ensures !Contains(query, Separator) ==> r.sent == [query]
    ensures forall j :: 0 <= j < |r.sent| - 1 ==> !Answers(raw, r.sent[j])
    ensures |r.sent| < |LegacyQueries(query)| ==> Answers(raw, r.sent[|r.sent| - 1])
    ensures r.id != "" ==>
      var last := raw(r.sent[|r.sent| - 1], 1);
      last.Ok? && |SpotifyClient.Items(last.value)| > 0 && r.id == SpotifyClient.Items(last.value)[0].id
    ensures raw(r.sent[|r.sent| - 1], 1).Err? ==> r.id == ""
    ensures (forall j :: 0 <= j < |r.sent| ==> !Answers(raw, r.sent[j])) ==> r.id == ""
    ensures var last := raw(r.sent[|r.sent| - 1], 1);
      last.Ok? && |SpotifyClient.Items(last.value)| > 0 &&
      !(|r.sent| == 3 && |SpotifyClient.Items(last.value)[0].artists| == 0) ==>
        r.id == SpotifyClient.Items(last.value)[0].id
  {
    var qs := LegacyQueries(query);
    var i := FirstAnswer(raw, qs);
    if i == |qs| then Lookup("", qs)
    else Lookup(HitId(raw, qs[i], i == 2), qs[..i + 1])
  }

  /** The id an answering query yields: "" when the search raises, or when
      the hit of the punctuation-free query (`flexible`) lists no artist. */
  function HitId(raw: RawSearch, q: string, flexible: bool): (id: string)
    requires Answers(raw, q)
    ensures id != "" ==>
      raw(q, 1).Ok? && |SpotifyClient.Items(raw(q, 1).value)| > 0 && id == SpotifyClient.Items(raw(q, 1).value)[0].id
    ensures raw(q, 1).Err? ==> id == ""
    ensures raw(q, 1).Ok? && !(flexible && |SpotifyClient.Items(raw(q, 1).value)[0].artists| == 0) ==>
      id == SpotifyClient.Items(raw(q, 1).value)[0].id
    ensures raw(q, 1).Ok? && flexible && |SpotifyClient.Items(raw(q, 1).value)[0].artists| == 0 ==> id == ""
  {
    match raw(q, 1)
    case Err(_) => ""
    case Ok(resp) =>
      var t := SpotifyClient.Items(resp)[0];
      if flexible && |t.artists| == 0 then "" else t.id
  }

  /** A line without the separator sends exactly one query, the line itself. */
  lemma PlainLineSendsOneQuery(raw: RawSearch, query: string)
    requires !Contains(query, Separator)
    ensures SearchTrackId(raw, query).sent == [query]
    ensures SearchTrackId(raw, query).id ==
      if raw(query, 1).Ok? && |SpotifyClient.Items(raw(query, 1).value)| > 0
      then SpotifyClient.Items(raw(query, 1).value)[0].id else ""
  {
  }

  /** A line with the separator whose precise query finds a track takes
      that track's id and sends nothing else. */
  lemma PreciseHitWins(raw: RawSearch, query: string)
    requires Contains(query, Separator)
    requires var q := LegacyQueries(query)[0];
      raw(q, 1).Ok? && |SpotifyClient.Items(raw(q, 1).value)| > 0
    ensures var q := LegacyQueries(query)[0];
      SearchTrackId(raw, query) == Lookup(SpotifyClient.Items(raw(q, 1).value)[0].id, [q])
  {
    var qs := LegacyQueries(query);
    assert FirstAnswer(raw, qs) == 0;
    assert qs[..1] == [qs[0]];
  }

  /** The artist-less hit of the last query is reported as "not found". */
  lemma FlexibleHitWithoutArtistIsLost(raw: RawSearch, query: string)
    requires Contains(query, Separator)
    requires var qs := LegacyQueries(query);
      && !Answers(raw, qs[0]) && !Answers(raw, qs[1])
      && raw(qs[2], 1).Ok? && |SpotifyClient.Items(raw(qs[2], 1).value)| > 0
      && |SpotifyClient.Items(raw(qs[2], 1).value)[0].artists| == 0
    ensures SearchTrackId(raw, query).id == ""
    ensures SearchTrackId(raw, query).sent == LegacyQueries(query)
  {
    var qs := LegacyQueries(query);
    assert FirstAnswer(raw, qs[2..]) == 0;
    assert qs[1..][1..] == qs[2..];
    assert FirstAnswer(raw, qs) == 2;
  }

  // ------------------------------------------------------------- main loop

  /** The id a line contributes: a direct id, or the search result. */
  function LineId(raw: RawSearch, line: string): string {
    match ClassifyLine(line)
    case Some(id) => id
    case None => SearchTrackId(raw, line).id
  }

  /** `track_ids` after the loop: the non-empty ids of the lines, in order. */
  function TrackIds(raw: RawSearch, lines: seq<string>): (ids: seq<string>)
    ensures |ids| <= |lines|
    ensures forall k :: 0 <= k < |ids| ==> ids[k] != ""
    ensures ids == Filter(NonEmpty, Map(l => LineId(raw, l), lines))
    decreases |lines|
  {
    if |lines| == 0 then []
    else
      var rest := TrackIds(raw, lines[1..]);
      var id := LineId(raw, lines[0]);
      var ls := Map(l => LineId(raw, l), lines);
      assert ls[1..] == Map(l => LineId(raw, l), lines[1..]);
      if id != "" then [id] + rest else rest
  }

  predicate NonEmpty(s: string) {
    s != ""
  }

  /** A line holding an id always contributes that id. */
  lemma DirectIdsAreKept(raw: RawSearch, lines: seq<string>, k: nat)
    requires k < |lines| && ClassifyLine(lines[k]).Some?
    ensures ClassifyLine(lines[k]).value in TrackIds(raw, lines)
  {
    var ls := Map(l => LineId(raw, l), lines);
    assert ls[k] == ClassifyLine(lines[k]).value;
    assert NonEmpty(ls[k]);
  }

  /** What the end of `main` does with the ids: exit when there are none,
      otherwise send the distinct ids in batches of 100, every batch
      regardless of how the earlier ones fared. */
  datatype MainRun = NoIds | Sent(unique: seq<string>, batches: seq<seq<string>>, accepted: seq<bool>)

  /** The batch loop of `main` over the distinct ids. */
  function SendBatches(add: RawAddItems, playlistId: string, unique: seq<string>): (r: MainRun)
    requires 0 < |unique|
    ensures r.Sent? && r.unique == unique && r.batches == Batches(unique, BatchLimit)
    ensures Flatten(r.batches) == unique
    ensures forall k :: 0 <= k < |r.batches| ==> 0 < |r.batches[k]| <= BatchLimit
    ensures forall k :: 0 <= k < |r.batches| - 1 ==> |r.batches[k]| == BatchLimit
    ensures |r.accepted| == |r.batches|
    ensures forall k :: 0 <= k < |r.batches| ==> r.accepted[k] == add(playlistId, r.batches[k]).Ok?
  {
    var batches := Batches(unique, BatchLimit);
    BatchesPartition(unique, BatchLimit);
    Sent(unique, batches, seq(|batches|, k requires 0 <= k < |batches| => add(playlistId, batches[k]).Ok?))
  }

  /** The end of `main` once the ids are collected. */
  function RunOnIds(add: RawAddItems, playlistId: string, ids: seq<string>): (r: MainRun)
    ensures r.NoIds? <==> |ids| == 0
    ensures r.Sent? ==> r == SendBatches(add, playlistId, Unique(ids)) && 0 < |r.unique| <= |ids|
  {
    var unique := Unique(ids);
    if |unique| == 0 then
      NoIds
    else
      SendBatches(add, playlistId, unique)
  }

  /** `main` from reading the input file to the last batch, for the
      playlist it created first: the stripped non-blank lines are resolved
      one by one, and the distinct ids found go out in batches of 100. */
  function RunMain(raw: RawSearch, add: RawAddItems, playlistId: string, fileLines: seq<string>): (r: MainRun)
    ensures var ids := TrackIds(raw, StrippedLines(fileLines));
      && (r.NoIds? <==> |ids| == 0)
      && (r.Sent? ==> r.unique == Unique(ids) && Distinct(r.unique) && 0 < |r.unique| <= |ids|)
    ensures r.Sent? ==>
      && Flatten(r.batches) == r.unique
      && (forall k :: 0 <= k < |r.batches| ==> 0 < |r.batches[k]| <= BatchLimit)
      && (forall k :: 0 <= k < |r.batches| - 1 ==> |r.batches[k]| == BatchLimit)
      && |r.accepted| == |r.batches|
      && (forall k :: 0 <= k < |r.batches| ==> r.accepted[k] == add(playlistId, r.batches[k]).Ok?)
  {
    RunOnIds(add, playlistId, TrackIds(raw, StrippedLines(fileLines)))
  }

  /** Each batch is the slice of the distinct ids starting at a multiple
      of 100, as the `range(0, len(ids), 100)` loop takes it. */
  lemma SentBatchesAreSlices(add: RawAddItems, playlistId: string, unique: seq<string>)
    requires 0 < |unique|
    ensures var r := SendBatches(add, playlistId, unique);
      forall k :: 0 <= k < |r.batches| ==>
        && k * BatchLimit < BatchEnd(k, BatchLimit, |unique|) <= |unique|
        && r.batches[k] == unique[k * BatchLimit..BatchEnd(k, BatchLimit, |unique|)]
  {
    BatchesAreRangeSlices(unique, BatchLimit);
  }
}
