/** The multi-strategy search engine (`TrackSearchEngine`): four query
    strategies with their confidence scorers, run as a cascade that stops
    once enough candidates are collected; the candidates are deduplicated by
    track id, sorted by confidence, cut to `max_results` and cached under a
    key made of the lower-cased artist and title. */
module TrackSearch {
  import opened Wrappers
  import opened Text
  import opened Seqs
  import opened Cleaning
  import SpotifyClient

  type Track = SpotifyClient.Track
  type RawSearch = SpotifyClient.RawSearch

  type Ratio = r: real | 0.0 <= r <= 1.0

  /** `difflib.SequenceMatcher(None, a, b).ratio()`, left uninterpreted. */
  type Similarity = (string, string) -> Ratio

  datatype Strategy = ExactMatch | FuzzyMatch | CleanedSearch | PartialMatch | PhoneticMatch

  /** A candidate: the track id, the strategy's confidence and the strategy. */
  datatype SearchResult = SearchResult(trackId: string, confidence: real, strategy: Strategy)

  /** One call of the search port: the query text and the result limit. */
  datatype Query = Query(text: string, limit: nat)

  /** What a strategy contributes: its candidates and the queries it sent. */
  datatype Run = Run(results: seq<SearchResult>, queries: seq<Query>)

  // ---------------------------------------------------------------- scorers

  function TrackName(t: Track): string {
    Lower(t.name)
  }

  function TrackArtists(t: Track): seq<string> {
    Map(Lower, t.artists)
  }

  /** `_calculate_exact_confidence`. */
  function ExactConfidence(t: Track, artist: string, title: string): (c: real)
    ensures c == 0.0 || c == 0.85 || c == 0.9 || c == 1.0
    ensures c == 1.0 <==> Lower(title) == TrackName(t) && Lower(artist) in TrackArtists(t)
    ensures c == 0.9 <==>
      Lower(title) == TrackName(t) && Lower(artist) !in TrackArtists(t) && SomeOverlaps(TrackArtists(t), Lower(artist))
    ensures c == 0.85 <==>
      Lower(title) != TrackName(t) && Lower(artist) in TrackArtists(t) && Contains(TrackName(t), Lower(title))
    ensures c > 0.8 ==> Contains(TrackName(t), Lower(title)) && SomeOverlaps(TrackArtists(t), Lower(artist))
  {
    var name := TrackName(t);
    var artists := TrackArtists(t);
    var a := Lower(artist);
    var ti := Lower(title);
    ContainsSelf(ti);
    ContainsSelf(a);
    if ti == name && a in artists then 1.0
    else if ti == name && SomeOverlaps(artists, a) then 0.9
    else if a in artists && Contains(name, ti) then 0.85
    else 0.0
  }

  /** A track scores 1.0 against its own title and first artist. */
  lemma ExactSelfMatch(t: Track)
    requires |t.artists| > 0
    ensures ExactConfidence(t, t.artists[0], t.name) == 1.0
  {
    assert TrackArtists(t)[0] == Lower(t.artists[0]);
  }

  /** `max(ratios) if ratios else 0.0`. */
  function BestRatio(sim: Similarity, a: string, candidates: seq<string>): (r: Ratio)
    ensures forall k :: 0 <= k < |candidates| ==> sim(a, candidates[k]) <= r
    ensures |candidates| == 0 ==> r == 0.0
    ensures |candidates| > 0 ==> exists k :: 0 <= k < |candidates| && r == sim(a, candidates[k])
    decreases |candidates|
  {
    if |candidates| == 0 then 0.0
    else
      var rest := BestRatio(sim, a, candidates[1..]);
      var first := sim(a, candidates[0]);
      assert forall k :: 1 <= k < |candidates| ==> candidates[k] == candidates[1..][k - 1];
      if |candidates| == 1 || first >= rest then first else rest
  }

  /** `_calculate_fuzzy_confidence`: 0.6 of the title ratio plus 0.4 of the
      best artist ratio. */
  function FuzzyConfidence(sim: Similarity, t: Track, artist: string, title: string): (c: real)
    ensures 0.0 <= c <= 1.0
    ensures |t.artists| == 0 ==> c == 0.6 * sim(Lower(title), TrackName(t))
    ensures forall k :: 0 <= k < |t.artists| ==>
      c >= 0.6 * sim(Lower(title), TrackName(t)) + 0.4 * sim(Lower(artist), TrackArtists(t)[k])
    ensures |t.artists| > 0 ==>
      exists k :: 0 <= k < |t.artists| &&
        c == 0.6 * sim(Lower(title), TrackName(t)) + 0.4 * sim(Lower(artist), TrackArtists(t)[k])
  {
    0.6 * sim(Lower(title), TrackName(t)) + 0.4 * BestRatio(sim, Lower(artist), TrackArtists(t))
  }

  /** With a similarity that rates equal strings 1.0, as difflib does, a
      track scores 1.0 against its own title and first artist. */
  lemma FuzzySelfMatch(sim: Similarity, t: Track)
    requires forall s :: sim(s, s) == 1.0
    requires |t.artists| > 0
    ensures FuzzyConfidence(sim, t, t.artists[0], t.name) == 1.0
  {
    assert TrackArtists(t)[0] == Lower(t.artists[0]);
    assert sim(Lower(t.artists[0]), TrackArtists(t)[0]) == 1.0;
  }

  /** `_calculate_cleaned_confidence`: title and artist compared by
      substring in either direction after cleaning and lower-casing. */
  function CleanedConfidence(t: Track, cleanArtist: string, cleanTitle: string): (c: real)
    ensures c == 0.0 || c == 0.6 || c == 0.8
    ensures c == 0.8 <==>
      Overlaps(Lower(CleanString(t.name)), Lower(cleanTitle)) &&
      SomeOverlaps(Map(Lower, Map(CleanString, t.artists)), Lower(cleanArtist))
    ensures c == 0.0 <==>
      !Overlaps(Lower(CleanString(t.name)), Lower(cleanTitle)) &&
      !SomeOverlaps(Map(Lower, Map(CleanString, t.artists)), Lower(cleanArtist))
  {
    var titleMatch := Overlaps(Lower(CleanString(t.name)), Lower(cleanTitle));
    var artistMatch := SomeOverlaps(Map(Lower, Map(CleanString, t.artists)), Lower(cleanArtist));
    if titleMatch && artistMatch then 0.8
    else if titleMatch || artistMatch then 0.6
    else 0.0
  }

  /** A track scores 0.8 against its own cleaned title and first artist. */
  lemma CleanedSelfMatch(t: Track)
    requires |t.artists| > 0
    ensures CleanedConfidence(t, CleanString(t.artists[0]), CleanString(t.name)) == 0.8
  {
    var lt := Lower(CleanString(t.name));
    var la := Map(Lower, Map(CleanString, t.artists));
    assert Overlaps(lt, lt) by { ContainsSelf(lt); }
    assert la[0] == Lower(CleanString(t.artists[0]));
    assert SomeOverlaps(la, la[0]) by { ContainsSelf(la[0]); assert Overlaps(la[0], la[0]); }
  }

  /** An empty cleaned title is a substring of every name, so every track
      passes the cleaned strategy's 0.5 threshold on the title alone. */
  lemma CleanedEmptyTitleMatchesAll(t: Track, cleanArtist: string)
    ensures CleanedConfidence(t, cleanArtist, "") >= 0.6
  {
    ContainsEmpty(Lower(CleanString(t.name)));
  }

  // Set sizes, for the word-overlap ratios.

  lemma {:induction false} SubsetCard<T>(a: set<T>, b: set<T>)
    requires a <= b
    ensures |a| <= |b|
    decreases |a|
  {
    if a != {} {
      var x :| x in a;
      SubsetCard(a - {x}, b - {x});
    }
  }

  lemma StrictSubsetCard<T>(a: set<T>, b: set<T>)
    requires a <= b && a != b
    ensures |a| < |b|
  {
    var x :| x in b && x !in a;
    SubsetCard(a, b - {x});
  }

  /** `len(a & b) / max(len(a), 1)`. */
  function Overlap(a: set<string>, b: set<string>): (r: real)
    ensures 0.0 <= r <= 1.0
    ensures r == 1.0 <==> a != {} && a <= b
    ensures r == 0.0 <==> a * b == {}
  {
    OverlapFacts(a, b);
    (|a * b| as real) / (if |a| == 0 then 1 else |a|) as real
  }

  lemma OverlapFacts(a: set<string>, b: set<string>)
    ensures |a * b| <= |a|
    ensures |a * b| == |a| <==> a <= b
  {
    SubsetCard(a * b, a);
    if a * b != a {
      StrictSubsetCard(a * b, a);
    }
  }

  /** The keywords of a text, as a set. */
  function KeywordSet(text: string): set<string> {
    set w | w in ExtractKeywords(text)
  }

  /** The union of the keywords of every artist name. */
  function ArtistKeywords(artists: seq<string>): (ws: set<string>)
    ensures forall k :: 0 <= k < |artists| ==> KeywordSet(artists[k]) <= ws
    ensures forall w :: w in ws ==> exists k :: 0 <= k < |artists| && w in KeywordSet(artists[k])
  {
    set k, w | 0 <= k < |artists| && w in ExtractKeywords(artists[k]) :: w
  }

  /** `_calculate_partial_confidence`: 0.6 of the share of title keywords
      found in the track name plus 0.4 of the share of artist keywords found
      among the track's artists. */
  function PartialConfidence(t: Track, artist: string, title: string): (c: real)
    ensures 0.0 <= c <= 1.0
    ensures c == 1.0 <==>
      && KeywordSet(Lower(title)) != {} && KeywordSet(Lower(title)) <= KeywordSet(TrackName(t))
      && KeywordSet(Lower(artist)) != {} && KeywordSet(Lower(artist)) <= ArtistKeywords(TrackArtists(t))
    ensures c == 0.0 <==>
      && KeywordSet(Lower(title)) * KeywordSet(TrackName(t)) == {}
      && KeywordSet(Lower(artist)) * ArtistKeywords(TrackArtists(t)) == {}
  {
    var titleOverlap := Overlap(KeywordSet(Lower(title)), KeywordSet(TrackName(t)));
    var artistOverlap := Overlap(KeywordSet(Lower(artist)), ArtistKeywords(TrackArtists(t)));
    0.6 * titleOverlap + 0.4 * artistOverlap
  }

  /** A track whose title and first artist have keywords scores 1.0 against them. */
  lemma PartialSelfMatch(t: Track)
    requires |t.artists| > 0
    requires KeywordSet(t.name) != {} && KeywordSet(t.artists[0]) != {}
    ensures PartialConfidence(t, t.artists[0], t.name) == 1.0
  {
    KeywordsIgnoreCase(t.name);
    KeywordsIgnoreCase(t.artists[0]);
    assert TrackArtists(t)[0] == Lower(t.artists[0]);
  }

  // ------------------------------------------------------------- strategies

  function Hit(t: Track, score: Track -> real, strategy: Strategy): SearchResult {
    SearchResult(t.id, score(t), strategy)
  }

  /** The loop every strategy runs over the returned tracks: keep a
      candidate for each track whose confidence exceeds the threshold. */
  function Scored(tracks: seq<Track>, score: Track -> real, threshold: real, strategy: Strategy): (rs: seq<SearchResult>)
    ensures |rs| <= |tracks|
    ensures forall i :: 0 <= i < |rs| ==> rs[i].confidence > threshold && rs[i].strategy == strategy
    ensures forall i :: 0 <= i < |rs| ==> exists j :: 0 <= j < |tracks| && rs[i] == Hit(tracks[j], score, strategy)
    ensures forall j :: 0 <= j < |tracks| && score(tracks[j]) > threshold ==> Hit(tracks[j], score, strategy) in rs
    decreases |tracks|
  {
    if |tracks| == 0 then []
    else
      var rest := Scored(tracks[1..], score, threshold, strategy);
      assert forall j :: 1 <= j < |tracks| ==> tracks[j] == tracks[1..][j - 1];
      if score(tracks[0]) > threshold then [Hit(tracks[0], score, strategy)] + rest else rest
  }

  /** One search whose failure the strategy swallows: a raising search
      contributes no candidates. */
  function Attempt(raw: RawSearch, q: string, limit: nat, score: Track -> real, threshold: real, strategy: Strategy): (r: Run)
    ensures r.queries == [Query(q, limit)]
    ensures SpotifyClient.SearchTrack(raw, q, limit).Err? ==> r.results == []
    ensures SpotifyClient.SearchTrack(raw, q, limit).Ok? ==>
      r.results == Scored(SpotifyClient.SearchTrack(raw, q, limit).value, score, threshold, strategy)
  {
    var hits := match SpotifyClient.SearchTrack(raw, q, limit)
      case Err(_) => []
      case Ok(tracks) => Scored(tracks, score, threshold, strategy);
    Run(hits, [Query(q, limit)])
  }

  function Append(a: Run, b: Run): Run {
    Run(a.results + b.results, a.queries + b.queries)
  }

  /** Everything a sequence of runs contributes, in order. */
  function Concat(runs: seq<Run>): Run
    decreases |runs|
  {
    if |runs| == 0 then Run([], []) else Append(Concat(runs[..|runs| - 1]), runs[|runs| - 1])
  }

  function ExactQuery(artist: string, title: string): string {
    "track:\"" + title + "\" artist:\"" + artist + "\""
  }

  /** `_exact_match_search`: limit 3, keeps confidence above 0.8. */
  function ExactSearch(raw: RawSearch, artist: string, title: string): Run {
    Attempt(raw, ExactQuery(artist, title), 3, t => ExactConfidence(t, artist, title), 0.8, ExactMatch)
  }

  /** `_fuzzy_match_search`: limit 10, keeps confidence above 0.6. */
  function FuzzySearch(raw: RawSearch, sim: Similarity, artist: string, title: string): Run {
    Attempt(raw, artist + " " + title, 10, t => FuzzyConfidence(sim, t, artist, title), 0.6, FuzzyMatch)
  }

  /** `_cleaned_search`: the cleaned artist and title, limit 5, keeps
      confidence above 0.5. */
  function CleanedSearchRun(raw: RawSearch, artist: string, title: string): Run {
    var cleanArtist := CleanString(artist);
    var cleanTitle := CleanString(title);
    Attempt(raw, cleanArtist + " " + cleanTitle, 5, t => CleanedConfidence(t, cleanArtist, cleanTitle), 0.5, CleanedSearch)
  }

  /** The query list of `_partial_match_search` for the artist keywords
      `aw` and title keywords `tw`: the first artist keyword with the first
      title keyword, and with the first two title keywords when there are
      two. */
  function KeywordQueries(aw: seq<string>, tw: seq<string>): (qs: seq<string>)
    ensures |qs| <= 2
    ensures |qs| == 0 <==> |aw| == 0 || |tw| == 0
    ensures |qs| == 2 <==> |aw| > 0 && |tw| > 1
    ensures forall i :: 0 <= i < |qs| ==> StartsWith(qs[i], aw[0] + " ")
    ensures |qs| > 0 ==> qs[0] == aw[0] + " " + tw[0]
    ensures |qs| == 2 ==> qs[1] == aw[0] + " " + tw[0] + " " + tw[1]
  {
    if |aw| > 0 && |tw| > 0 then
      var lead := aw[0] + " ";
      PrefixStarts(lead, tw[0]);
      if |tw| > 1 then
        PrefixStarts(lead, Join(" ", tw[..2]));
        assert Join(" ", tw[..2]) == tw[0] + " " + tw[1] by {
          assert tw[..2][1..] == [tw[1]];
        }
        [lead + tw[0], lead + Join(" ", tw[..2])]
      else [lead + tw[0]]
    else []
  }

  /** Split back into words, the i-th keyword query is the first artist
      keyword followed by the first i + 1 title keywords. */
  lemma KeywordQueryWords(aw: seq<string>, tw: seq<string>)
    requires forall k :: 0 <= k < |aw| ==> |aw[k]| > 0 && NoSpace(aw[k])
    requires forall k :: 0 <= k < |tw| ==> |tw[k]| > 0 && NoSpace(tw[k])
    ensures forall i :: 0 <= i < |KeywordQueries(aw, tw)| ==>
      Words(KeywordQueries(aw, tw)[i]) == [aw[0]] + tw[..i + 1]
  {
    var qs := KeywordQueries(aw, tw);
    forall i | 0 <= i < |qs|
      ensures Words(qs[i]) == [aw[0]] + tw[..i + 1]
    {
      if i == 0 {
        calc {
          Words(qs[0]);
          Words(aw[0] + " " + tw[0]);
        == { TwoWords(aw[0], tw[0]); }
          [aw[0], tw[0]];
        == { assert tw[..1] == [tw[0]]; }
          [aw[0]] + tw[..1];
        }
      } else {
        calc {
          Words(qs[1]);
          Words(aw[0] + " " + tw[0] + " " + tw[1]);
        == { ThreeWords(aw[0], tw[0], tw[1]); }
          [aw[0], tw[0], tw[1]];
        == { assert tw[..2] == [tw[0], tw[1]]; }
          [aw[0]] + tw[..2];
        }
      }
    }
  }

  lemma TwoWords(a: string, b: string)
    requires |a| > 0 && NoSpace(a) && |b| > 0 && NoSpace(b)
    ensures Words(a + " " + b) == [a, b]
  {
    WordsAfterWord(a, b);
    WordsOfWord(b);
  }

  lemma ThreeWords(a: string, b: string, c: string)
    requires |a| > 0 && NoSpace(a) && |b| > 0 && NoSpace(b) && |c| > 0 && NoSpace(c)
    ensures Words(a + " " + b + " " + c) == [a, b, c]
  {
    var bc := b + " " + c;
    RegroupSpaced(a, b, c);
    TwoWords(b, c);
    WordsAfterWord(a, bc);
    assert [a] + [b, c] == [a, b, c];
  }

  /** Three space-separated words regrouped after the first space. */
  lemma RegroupSpaced(a: string, b: string, c: string)
    ensures a + " " + b + " " + c == a + " " + (b + " " + c)
  {
    ConcatAssoc(a + " ", b, " ");
    ConcatAssoc(a + " ", b + " ", c);
  }

  /** Lower-case keywords are non-empty and hold no whitespace. */
  lemma KeywordsAreWords(ks: seq<string>)
    requires forall k :: 0 <= k < |ks| ==> IsKeyword(ks[k]) && IsLowerWord(ks[k])
    ensures forall k :: 0 <= k < |ks| ==> |ks[k]| > 0 && NoSpace(ks[k])
  {
    forall k | 0 <= k < |ks|
      ensures |ks[k]| > 0 && NoSpace(ks[k])
    {
      assert forall j :: 0 <= j < |ks[k]| ==> IsWordChar(ks[k][j]);
    }
  }

  function PartialQueries(artist: string, title: string): seq<string> {
    KeywordQueries(ExtractKeywords(artist), ExtractKeywords(title))
  }

  /** The partial strategy's queries are made of keywords: split back into
      words they give the first artist keyword and the leading title
      keywords. */
  lemma PartialQueriesAreKeywords(artist: string, title: string)
    ensures forall i :: 0 <= i < |PartialQueries(artist, title)| ==>
      Words(PartialQueries(artist, title)[i]) == [ExtractKeywords(artist)[0]] + ExtractKeywords(title)[..i + 1]
  {
    var aw, tw := ExtractKeywords(artist), ExtractKeywords(title);
    KeywordsAreWords(aw);
    KeywordsAreWords(tw);
    KeywordQueryWords(aw, tw);
  }

  lemma PrefixStarts(a: string, b: string)
    ensures StartsWith(a + b, a)
  {
    assert (a + b)[..|a|] == a;
  }

  function PartialAttempts(raw: RawSearch, artist: string, title: string, qs: seq<string>): (rs: seq<Run>)
    ensures |rs| == |qs|
    ensures forall i :: 0 <= i < |qs| ==>
      rs[i] == Attempt(raw, qs[i], 3, t => PartialConfidence(t, artist, title), 0.4, PartialMatch)
  {
    seq(|qs|, i requires 0 <= i < |qs| => Attempt(raw, qs[i], 3, t => PartialConfidence(t, artist, title), 0.4, PartialMatch))
  }

  /** `_partial_match_search`: every query is tried, limit 3, a raising
      query is skipped, and candidates above 0.4 are kept. */
  function PartialSearch(raw: RawSearch, artist: string, title: string): Run {
    Concat(PartialAttempts(raw, artist, title, PartialQueries(artist, title)))
  }

  /** The four strategies in the order `search_track` tries them. */
  function Strategies(raw: RawSearch, sim: Similarity, artist: string, title: string): seq<Run> {
    [ ExactSearch(raw, artist, title),
      FuzzySearch(raw, sim, artist, title),
      CleanedSearchRun(raw, artist, title),
      PartialSearch(raw, artist, title) ]
  }

  // ---------------------------------------------------------------- cascade

  /** The `if len(all_results) < max_results` chain: the first strategy
      always runs; each later one runs only while fewer than `max_results`
      candidates have been collected. */
  function Cascade(runs: seq<Run>, maxResults: int): (r: Run)
    requires |runs| > 0
    ensures runs[0].queries <= r.queries
    decreases |runs|
  {
    if |runs| == 1 then runs[0]
    else
      var acc := Cascade(runs[..|runs| - 1], maxResults);
      if |acc.results| < maxResults then Append(acc, runs[|runs| - 1]) else acc
  }

  /** The cascade stops after `k` runs: every shorter prefix had fewer than
      `max_results` candidates, and unless all runs were used the first `k`
      reached it. */
  predicate StopsAt(runs: seq<Run>, maxResults: int, k: nat) {
    && 1 <= k <= |runs|
    && (forall j :: 1 <= j < k ==> |Concat(runs[..j]).results| < maxResults)
    && (k < |runs| ==> |Concat(runs[..k]).results| >= maxResults)
  }

  /** The cascade is the concatenation of the first `k` strategies, where
      `k` is the first point at which `max_results` candidates are reached
      (or all of them). */
  lemma {:induction false} CascadeIsPrefix(runs: seq<Run>, maxResults: int)
    requires |runs| > 0
    ensures exists k: nat :: StopsAt(runs, maxResults, k) && Cascade(runs, maxResults) == Concat(runs[..k])
    decreases |runs|
  {
    var n := |runs|;
    if n == 1 {
      assert runs[..1][..0] == [];
      assert Concat(runs[..1]) == runs[0];
      assert StopsAt(runs, maxResults, 1);
    } else {
      var p := runs[..n - 1];
      CascadeIsPrefix(p, maxResults);
      var k: nat :| StopsAt(p, maxResults, k) && Cascade(p, maxResults) == Concat(p[..k]);
      var acc := Cascade(p, maxResults);
      if |acc.results| < maxResults {
        CascadeGrows(runs, maxResults, k);
      } else {
        CascadeHolds(runs, maxResults, k);
      }
    }
  }

  lemma CascadeGrows(runs: seq<Run>, maxResults: int, k: nat)
    requires |runs| > 1
    requires StopsAt(runs[..|runs| - 1], maxResults, k)
    requires Cascade(runs[..|runs| - 1], maxResults) == Concat(runs[..|runs| - 1][..k])
    requires |Cascade(runs[..|runs| - 1], maxResults).results| < maxResults
    ensures StopsAt(runs, maxResults, |runs|) && Cascade(runs, maxResults) == Concat(runs[..|runs|])
  {
    var n := |runs|;
    var p := runs[..n - 1];
    assert k == n - 1;
    assert p[..k] == p;
    assert runs[..n] == runs;
    forall j | 1 <= j < n
      ensures |Concat(runs[..j]).results| < maxResults
    {
      assert p[..j] == runs[..j];
    }
  }

  lemma CascadeHolds(runs: seq<Run>, maxResults: int, k: nat)
    requires |runs| > 1
    requires StopsAt(runs[..|runs| - 1], maxResults, k)
    requires Cascade(runs[..|runs| - 1], maxResults) == Concat(runs[..|runs| - 1][..k])
    requires |Cascade(runs[..|runs| - 1], maxResults).results| >= maxResults
    ensures StopsAt(runs, maxResults, k) && Cascade(runs, maxResults) == Concat(runs[..k])
  {
    var n := |runs|;
    var p := runs[..n - 1];
    assert p[..k] == runs[..k];
    forall j | 1 <= j < k
      ensures |Concat(runs[..j]).results| < maxResults
    {
      assert p[..j] == runs[..j];
    }
  }

  // ------------------------------------------------------- deduplication

  function Ids(rs: seq<SearchResult>): (ids: seq<string>)
    ensures |ids| == |rs|
    ensures forall i :: 0 <= i < |rs| ==> ids[i] == rs[i].trackId
  {
    seq(|rs|, i requires 0 <= i < |rs| => rs[i].trackId)
  }

  /** One iteration of `_deduplicate_results`: a new id is appended; a
      known id is replaced in place only by a strictly higher confidence. */
  function DedupStep(acc: seq<SearchResult>, r: SearchResult): seq<SearchResult> {
    var ids := Ids(acc);
    if r.trackId !in ids then acc + [r]
    else
      var i := FirstIndex(ids, r.trackId);
      if r.confidence > acc[i].confidence then acc[i := r] else acc
  }

  /** `_deduplicate_results`. */
  function Dedup(rs: seq<SearchResult>): seq<SearchResult>
    decreases |rs|
  {
    if |rs| == 0 then [] else DedupStep(Dedup(rs[..|rs| - 1]), rs[|rs| - 1])
  }

  /** `rs[i]` is the earliest of the highest-confidence candidates for its id. */
  predicate IsBestIndex(rs: seq<SearchResult>, i: nat)
    requires i < |rs|
  {
    forall j :: 0 <= j < |rs| && rs[j].trackId == rs[i].trackId ==>
      rs[j].confidence <= rs[i].confidence && (j < i ==> rs[j].confidence < rs[i].confidence)
  }

  /** Every entry of the deduplicated list is the best candidate for its id. */
  predicate KeepsBest(d: seq<SearchResult>, rs: seq<SearchResult>) {
    forall k :: 0 <= k < |d| ==> exists i: nat :: i < |rs| && d[k] == rs[i] && IsBestIndex(rs, i)
  }

  /** Deduplication keeps one entry per track id, in order of first
      appearance, and that entry is the earliest of the candidates with the
      highest confidence for the id. */
  lemma {:induction false} DedupSpec(rs: seq<SearchResult>)
    ensures Ids(Dedup(rs)) == Unique(Ids(rs))
    ensures KeepsBest(Dedup(rs), rs)
    decreases |rs|
  {
    if |rs| > 0 {
      var n := |rs|;
      var p := rs[..n - 1];
      var r := rs[n - 1];
      DedupSpec(p);
      SplitLast(rs);
      IdsSnoc(p, r);
      assert Ids(rs)[..n - 1] == Ids(p);
      var acc := Dedup(p);
      DedupStepIds(acc, r);
      DedupStepKeepsBest(acc, p, r);
    }
  }

  lemma IdsSnoc(p: seq<SearchResult>, r: SearchResult)
    ensures Ids(p + [r]) == Ids(p) + [r.trackId]
  {
  }

  lemma DedupStepIds(acc: seq<SearchResult>, r: SearchResult)
    ensures Ids(DedupStep(acc, r)) == if r.trackId in Ids(acc) then Ids(acc) else Ids(acc) + [r.trackId]
  {
    var ids := Ids(acc);
    if r.trackId in ids {
      var i := FirstIndex(ids, r.trackId);
      if r.confidence > acc[i].confidence {
        assert Ids(acc[i := r]) == ids;
      }
    } else {
      assert Ids(acc + [r]) == ids + [r.trackId];
    }
  }

  lemma DedupStepKeepsBest(acc: seq<SearchResult>, p: seq<SearchResult>, r: SearchResult)
    requires KeepsBest(acc, p)
    requires Ids(acc) == Unique(Ids(p))
    ensures KeepsBest(DedupStep(acc, r), p + [r])
  {
    var ids := Ids(acc);
    OthersStayBest(acc, p, r);
    if r.trackId !in ids {
      NewIdIsBest(acc, p, r);
    } else {
      KnownIdStep(acc, p, r);
    }
  }

  /** Entries whose id differs from `r`'s stay best once `r` is appended. */
  lemma OthersStayBest(acc: seq<SearchResult>, p: seq<SearchResult>, r: SearchResult)
    requires KeepsBest(acc, p)
    ensures forall k :: 0 <= k < |acc| && acc[k].trackId != r.trackId ==>
      exists i: nat :: i < |p + [r]| && acc[k] == (p + [r])[i] && IsBestIndex(p + [r], i)
  {
    var rs := p + [r];
    forall k | 0 <= k < |acc| && acc[k].trackId != r.trackId
      ensures exists i: nat :: i < |rs| && acc[k] == rs[i] && IsBestIndex(rs, i)
    {
      var i: nat :| i < |p| && acc[k] == p[i] && IsBestIndex(p, i);
      assert rs[i] == p[i];
      assert IsBestIndex(rs, i);
    }
  }

  lemma NewIdIsBest(acc: seq<SearchResult>, p: seq<SearchResult>, r: SearchResult)
    requires Ids(acc) == Unique(Ids(p))
    requires r.trackId !in Ids(acc)
    requires forall k :: 0 <= k < |acc| && acc[k].trackId != r.trackId ==>
      exists i: nat :: i < |p + [r]| && acc[k] == (p + [r])[i] && IsBestIndex(p + [r], i)
    ensures KeepsBest(acc + [r], p + [r])
  {
    var rs := p + [r];
    var n := |p|;
    var ids := Ids(acc);
    forall j | 0 <= j < n
      ensures rs[j].trackId != r.trackId
    {
      assert Ids(p)[j] == p[j].trackId;
      assert Ids(p)[j] in Unique(Ids(p));
    }
    assert IsBestIndex(rs, n);
    var d := acc + [r];
    forall k | 0 <= k < |d|
      ensures exists i: nat :: i < |rs| && d[k] == rs[i] && IsBestIndex(rs, i)
    {
      if k < |acc| {
        assert ids[k] == acc[k].trackId;
        assert d[k] == acc[k];
      } else {
        assert d[k] == rs[n];
      }
    }
  }

  lemma KnownIdStep(acc: seq<SearchResult>, p: seq<SearchResult>, r: SearchResult)
    requires KeepsBest(acc, p)
    requires Ids(acc) == Unique(Ids(p))
    requires r.trackId in Ids(acc)
    requires forall k :: 0 <= k < |acc| && acc[k].trackId != r.trackId ==>
      exists i: nat :: i < |p + [r]| && acc[k] == (p + [r])[i] && IsBestIndex(p + [r], i)
    ensures KeepsBest(DedupStep(acc, r), p + [r])
  {
    var ids := Ids(acc);
    var i := FirstIndex(ids, r.trackId);
    OnlyIndexWithId(acc, i);
    if r.confidence > acc[i].confidence {
      ReplaceStep(acc, p, r, i);
    } else {
      KeepStep(acc, p, r, i);
    }
  }

  lemma OnlyIndexWithId(acc: seq<SearchResult>, i: nat)
    requires i < |acc| && Distinct(Ids(acc))
    ensures forall k :: 0 <= k < |acc| && k != i ==> acc[k].trackId != acc[i].trackId
  {
    var ids := Ids(acc);
    forall k | 0 <= k < |acc| && k != i
      ensures acc[k].trackId != acc[i].trackId
    {
      assert ids[k] != ids[i];
    }
  }

  lemma ReplaceStep(acc: seq<SearchResult>, p: seq<SearchResult>, r: SearchResult, i: nat)
    requires KeepsBest(acc, p)
    requires i < |acc| && acc[i].trackId == r.trackId && r.confidence > acc[i].confidence
    requires forall k :: 0 <= k < |acc| && k != i ==> acc[k].trackId != r.trackId
    requires forall k :: 0 <= k < |acc| && acc[k].trackId != r.trackId ==>
      exists j: nat :: j < |p + [r]| && acc[k] == (p + [r])[j] && IsBestIndex(p + [r], j)
    ensures KeepsBest(acc[i := r], p + [r])
  {
    var rs := p + [r];
    var n := |p|;
    var m: nat :| m < |p| && acc[i] == p[m] && IsBestIndex(p, m);
    assert rs[n] == r;
    forall j | 0 <= j < |rs| && rs[j].trackId == r.trackId
      ensures rs[j].confidence <= r.confidence
    {
      if j < n {
        assert rs[j] == p[j];
      }
    }
    assert IsBestIndex(rs, n);
    var d := acc[i := r];
    forall k | 0 <= k < |d|
      ensures exists j: nat :: j < |rs| && d[k] == rs[j] && IsBestIndex(rs, j)
    {
      if k == i {
        assert d[k] == rs[n];
      } else {
        assert d[k] == acc[k];
      }
    }
  }

  lemma KeepStep(acc: seq<SearchResult>, p: seq<SearchResult>, r: SearchResult, i: nat)
    requires KeepsBest(acc, p)
    requires i < |acc| && acc[i].trackId == r.trackId && r.confidence <= acc[i].confidence
    requires forall k :: 0 <= k < |acc| && k != i ==> acc[k].trackId != r.trackId
    requires forall k :: 0 <= k < |acc| && acc[k].trackId != r.trackId ==>
      exists j: nat :: j < |p + [r]| && acc[k] == (p + [r])[j] && IsBestIndex(p + [r], j)
    ensures KeepsBest(acc, p + [r])
  {
    var rs := p + [r];
    var m: nat :| m < |p| && acc[i] == p[m] && IsBestIndex(p, m);
    assert rs[m] == p[m];
    forall j | 0 <= j < |rs| && rs[j].trackId == rs[m].trackId
      ensures rs[j].confidence <= rs[m].confidence && (j < m ==> rs[j].confidence < rs[m].confidence)
    {
      if j < |p| {
        assert rs[j] == p[j];
      }
    }
    assert IsBestIndex(rs, m);
  }

  // ---------------------------------------------------------------- sorting

  predicate SortedByConfidence(rs: seq<SearchResult>) {
    forall i, j :: 0 <= i < j < |rs| ==> rs[i].confidence >= rs[j].confidence
  }

  /** Inserts `x` after every leading element whose confidence is at least
      `x`'s, so that equal confidences keep their arrival order. */
  function Insert(rs: seq<SearchResult>, x: SearchResult): (r: seq<SearchResult>)
    ensures |r| == |rs| + 1
    ensures multiset(r) == multiset(rs) + multiset{x}
    decreases |rs|
  {
    if |rs| == 0 then [x]
    else if rs[0].confidence >= x.confidence then
      assert rs == [rs[0]] + rs[1..];
      [rs[0]] + Insert(rs[1..], x)
    else [x] + rs
  }

  lemma {:induction false} InsertSorted(rs: seq<SearchResult>, x: SearchResult)
    requires SortedByConfidence(rs)
    ensures SortedByConfidence(Insert(rs, x))
    decreases |rs|
  {
    if |rs| > 0 && rs[0].confidence >= x.confidence {
      var rest := Insert(rs[1..], x);
      assert SortedByConfidence(rest) by {
        SortedTail(rs);
        InsertSorted(rs[1..], x);
      }
      assert forall k :: 0 <= k < |rest| ==> rest[k].confidence <= rs[0].confidence by {
        InsertBelow(rs, x);
      }
      assert Insert(rs, x) == [rs[0]] + rest;
      SortedCons(rs[0], rest);
    }
  }

  /** What is inserted behind a head of at least `x`'s confidence stays at or
      below the head. */
  lemma InsertBelow(rs: seq<SearchResult>, x: SearchResult)
    requires SortedByConfidence(rs) && |rs| > 0 && rs[0].confidence >= x.confidence
    ensures forall k :: 0 <= k < |Insert(rs[1..], x)| ==> Insert(rs[1..], x)[k].confidence <= rs[0].confidence
  {
    var rest := Insert(rs[1..], x);
    forall k | 0 <= k < |rest|
      ensures rest[k].confidence <= rs[0].confidence
    {
      assert rest[k] in multiset(rs[1..]) + multiset{x};
      if rest[k] != x {
        var j :| 0 <= j < |rs[1..]| && rs[1..][j] == rest[k];
        assert rs[j + 1] == rest[k];
      }
    }
  }

  lemma SortedCons(h: SearchResult, rs: seq<SearchResult>)
    requires SortedByConfidence(rs)
    requires forall k :: 0 <= k < |rs| ==> rs[k].confidence <= h.confidence
    ensures SortedByConfidence([h] + rs)
  {
    var r := [h] + rs;
    forall i, j | 0 <= i < j < |r|
      ensures r[i].confidence >= r[j].confidence
    {
      assert r[j] == rs[j - 1];
      if i > 0 {
        assert r[i] == rs[i - 1];
      }
    }
  }

  /** `sorted(results, key=lambda x: x.confidence, reverse=True)`: a stable
      sort by descending confidence. */
  function SortByConfidence(rs: seq<SearchResult>): (r: seq<SearchResult>)
    ensures SortedByConfidence(r)
    ensures multiset(r) == multiset(rs)
    ensures |r| == |rs|
    decreases |rs|
  {
    if |rs| == 0 then []
    else
      assert rs == rs[..|rs| - 1] + [rs[|rs| - 1]];
      var sorted := SortByConfidence(rs[..|rs| - 1]);
      InsertSorted(sorted, rs[|rs| - 1]);
      Insert(sorted, rs[|rs| - 1])
  }

  /** The candidates with confidence exactly `v`, in order. */
  function AtConfidence(rs: seq<SearchResult>, v: real): seq<SearchResult>
    decreases |rs|
  {
    if |rs| == 0 then []
    else (if rs[0].confidence == v then [rs[0]] else []) + AtConfidence(rs[1..], v)
  }

  lemma {:induction false} AtConfidenceConcat(a: seq<SearchResult>, b: seq<SearchResult>, v: real)
    ensures AtConfidence(a + b, v) == AtConfidence(a, v) + AtConfidence(b, v)
    decreases |a|
  {
    if |a| > 0 {
      assert (a + b)[1..] == a[1..] + b;
      AtConfidenceConcat(a[1..], b, v);
    } else {
      assert a + b == b;
    }
  }

  lemma {:induction false} AtConfidenceNone(rs: seq<SearchResult>, v: real)
    requires forall i :: 0 <= i < |rs| ==> rs[i].confidence < v
    ensures AtConfidence(rs, v) == []
    decreases |rs|
  {
    if |rs| > 0 {
      AtConfidenceNone(rs[1..], v);
    }
  }

  lemma AtConfidenceCons(a: SearchResult, rs: seq<SearchResult>, v: real)
    ensures AtConfidence([a] + rs, v) == (if a.confidence == v then [a] else []) + AtConfidence(rs, v)
  {
    assert ([a] + rs)[1..] == rs;
  }

  lemma SortedTail(rs: seq<SearchResult>)
    requires |rs| > 0 && SortedByConfidence(rs)
    ensures SortedByConfidence(rs[1..])
  {
    forall i, j | 0 <= i < j < |rs| - 1
      ensures rs[1..][i].confidence >= rs[1..][j].confidence
    {
      assert rs[1..][i] == rs[i + 1] && rs[1..][j] == rs[j + 1];
    }
  }

  lemma {:induction false} InsertStable(rs: seq<SearchResult>, x: SearchResult, v: real)
    requires SortedByConfidence(rs)
    ensures AtConfidence(Insert(rs, x), v) == AtConfidence(rs + [x], v)
    decreases |rs|
  {
    AtConfidenceConcat(rs, [x], v);
    if |rs| == 0 {
      assert rs + [x] == [x] == Insert(rs, x);
    } else if rs[0].confidence >= x.confidence {
      SortedTail(rs);
      InsertStable(rs[1..], x, v);
      InsertAfterHead(rs, x, v);
    } else {
      InsertBeforeHigher(rs, x, v);
    }
  }

  /** Inserted behind the head, `x` keeps the head's place in front. */
  lemma InsertAfterHead(rs: seq<SearchResult>, x: SearchResult, v: real)
    requires |rs| > 0 && rs[0].confidence >= x.confidence
    requires AtConfidence(Insert(rs[1..], x), v) == AtConfidence(rs[1..] + [x], v)
    ensures AtConfidence(Insert(rs, x), v) == AtConfidence(rs, v) + AtConfidence([x], v)
  {
    var ins := Insert(rs[1..], x);
    var h := if rs[0].confidence == v then [rs[0]] else [];
    calc {
      AtConfidence(Insert(rs, x), v);
      { assert Insert(rs, x) == [rs[0]] + ins; AtConfidenceCons(rs[0], ins, v); }
      h + AtConfidence(ins, v);
      { AtConfidenceConcat(rs[1..], [x], v); }
      h + (AtConfidence(rs[1..], v) + AtConfidence([x], v));
      { ConcatAssoc(h, AtConfidence(rs[1..], v), AtConfidence([x], v)); }
      (h + AtConfidence(rs[1..], v)) + AtConfidence([x], v);
      { assert [rs[0]] + rs[1..] == rs; AtConfidenceCons(rs[0], rs[1..], v); }
      AtConfidence(rs, v) + AtConfidence([x], v);
    }
  }

  /** Inserted in front of higher confidences, `x` comes first among the
      candidates with its own confidence too. */
  lemma InsertBeforeHigher(rs: seq<SearchResult>, x: SearchResult, v: real)
    requires |rs| > 0 && SortedByConfidence(rs) && rs[0].confidence < x.confidence
    ensures AtConfidence(Insert(rs, x), v) == AtConfidence(rs, v) + AtConfidence([x], v)
  {
    assert Insert(rs, x) == [x] + rs;
    AtConfidenceCons(x, rs, v);
    if x.confidence == v {
      forall i | 0 <= i < |rs|
        ensures rs[i].confidence < v
      {
        assert i == 0 || rs[0].confidence >= rs[i].confidence;
      }
      AtConfidenceNone(rs, v);
      AtConfidenceCons(x, [], v);
    } else {
      AtConfidenceCons(x, [], v);
    }
  }

  /** The sort is stable: for every confidence value, the candidates with
      that value appear in the same order before and after sorting. */
  lemma {:induction false} SortIsStable(rs: seq<SearchResult>, v: real)
    ensures AtConfidence(SortByConfidence(rs), v) == AtConfidence(rs, v)
    decreases |rs|
  {
    if |rs| > 0 {
      var p := rs[..|rs| - 1];
      var x := rs[|rs| - 1];
      var sp := SortByConfidence(p);
      calc {
        AtConfidence(SortByConfidence(rs), v);
        { assert SortByConfidence(rs) == Insert(sp, x); }
        AtConfidence(Insert(sp, x), v);
        { InsertStable(sp, x, v); }
        AtConfidence(sp + [x], v);
        { AtConfidenceConcat(sp, [x], v); }
        AtConfidence(sp, v) + AtConfidence([x], v);
        { SortIsStable(p, v); }
        AtConfidence(p, v) + AtConfidence([x], v);
        { AtConfidenceConcat(p, [x], v); assert rs == p + [x]; }
        AtConfidence(rs, v);
      }
    }
  }

  /** Sorting a list with distinct ids leaves the ids distinct. */
  lemma {:induction false} SortKeepsIdsDistinct(rs: seq<SearchResult>)
    requires Distinct(Ids(rs))
    ensures Distinct(Ids(SortByConfidence(rs)))
    decreases |rs|
  {
    if |rs| > 0 {
      var p := rs[..|rs| - 1];
      var x := rs[|rs| - 1];
      assert Ids(p) == Ids(rs)[..|rs| - 1];
      SortKeepsIdsDistinct(p);
      var sp := SortByConfidence(p);
      forall k | 0 <= k < |sp|
        ensures sp[k].trackId != x.trackId
      {
        assert sp[k] in multiset(p);
        var j :| 0 <= j < |p| && p[j] == sp[k];
        assert Ids(rs)[j] != Ids(rs)[|rs| - 1];
      }
      InsertKeepsIdsDistinct(sp, x);
    }
  }

  lemma {:induction false} InsertKeepsIdsDistinct(rs: seq<SearchResult>, x: SearchResult)
    requires Distinct(Ids(rs))
    requires forall k :: 0 <= k < |rs| ==> rs[k].trackId != x.trackId
    ensures Distinct(Ids(Insert(rs, x)))
    decreases |rs|
  {
    if |rs| == 0 {
      assert Ids(Insert(rs, x)) == [x.trackId];
    } else if rs[0].confidence >= x.confidence {
      var rest := Insert(rs[1..], x);
      assert Distinct(Ids(rest)) by {
        assert Ids(rs[1..]) == Ids(rs)[1..];
        InsertKeepsIdsDistinct(rs[1..], x);
      }
      forall k | 0 <= k < |rest|
        ensures rest[k].trackId != rs[0].trackId
      {
        assert rest[k] in multiset(rs[1..]) + multiset{x};
        if rest[k] != x {
          var j :| 0 <= j < |rs[1..]| && rs[1..][j] == rest[k];
          assert Ids(rs)[j + 1] != Ids(rs)[0];
        }
      }
      assert Insert(rs, x) == [rs[0]] + rest;
      DistinctIdsCons(rs[0], rest);
    } else {
      assert Insert(rs, x) == [x] + rs;
      DistinctIdsCons(x, rs);
    }
  }

  lemma DistinctIdsCons(h: SearchResult, rs: seq<SearchResult>)
    requires Distinct(Ids(rs))
    requires forall k :: 0 <= k < |rs| ==> rs[k].trackId != h.trackId
    ensures Distinct(Ids([h] + rs))
  {
    var ids := Ids([h] + rs);
    forall i, j | 0 <= i < j < |ids|
      ensures ids[i] != ids[j]
    {
      assert ids[j] == rs[j - 1].trackId;
      if i > 0 {
        assert ids[i] == rs[i - 1].trackId == Ids(rs)[i - 1];
        assert Ids(rs)[j - 1] == rs[j - 1].trackId;
      }
    }
  }

  // ------------------------------------------------------------ the engine

  predicate Ranked(rs: seq<SearchResult>) {
    SortedByConfidence(rs) && Distinct(Ids(rs))
  }

  /** The uncached path of `search_track`: the cascade, then deduplication,
      the sort and the cut to `max_results`. */
  function Fresh(raw: RawSearch, sim: Similarity, artist: string, title: string, maxResults: int): (r: Run)
    ensures Ranked(r.results)
    ensures maxResults >= 0 ==> |r.results| <= maxResults
    ensures |r.queries| > 0
  {
    var run := Cascade(Strategies(raw, sim, artist, title), maxResults);
    FirstQueryIsExact(raw, sim, artist, title, maxResults);
    Run(Rank(run.results, maxResults), run.queries)
  }

  /** Deduplicate, sort by descending confidence, cut to `max_results`. */
  function Rank(rs: seq<SearchResult>, maxResults: int): (r: seq<SearchResult>)
    ensures Ranked(r)
    ensures maxResults >= 0 ==> |r| == if maxResults < |Dedup(rs)| then maxResults else |Dedup(rs)|
    ensures maxResults < 0 ==> |r| == if -maxResults < |Dedup(rs)| then |Dedup(rs)| + maxResults else 0
    ensures forall k :: 0 <= k < |r| ==> r[k] in Dedup(rs)
    ensures forall x :: x in Dedup(rs) && x !in r ==> forall k :: 0 <= k < |r| ==> x.confidence <= r[k].confidence
  {
    var ranked := SortByConfidence(Dedup(rs));
    RankedFacts(rs);
    SliceKeepsRanked(ranked, maxResults);
    TopOfSorted(Dedup(rs), ranked, SliceTo(ranked, maxResults));
    SliceTo(ranked, maxResults)
  }

  /** A prefix of a sorted permutation holds the highest confidences: all it
      draws from the list, and nothing it leaves out is above anything it
      keeps. */
  lemma TopOfSorted(d: seq<SearchResult>, sorted: seq<SearchResult>, top: seq<SearchResult>)
    requires SortedByConfidence(sorted) && multiset(sorted) == multiset(d)
    requires |top| <= |sorted| && top == sorted[..|top|]
    ensures forall k :: 0 <= k < |top| ==> top[k] in d
    ensures forall x :: x in d && x !in top ==> forall k :: 0 <= k < |top| ==> x.confidence <= top[k].confidence
  {
    forall k | 0 <= k < |top|
      ensures top[k] in d
    {
      assert top[k] == sorted[k];
      assert sorted[k] in multiset(d);
    }
    forall x, k | x in d && x !in top && 0 <= k < |top|
      ensures x.confidence <= top[k].confidence
    {
      assert x in multiset(sorted);
      var j :| 0 <= j < |sorted| && sorted[j] == x;
      assert top[k] == sorted[k];
    }
  }

  /** The exact-match query is always sent, and sent first. */
  lemma FirstQueryIsExact(raw: RawSearch, sim: Similarity, artist: string, title: string, maxResults: int)
    ensures var qs := Cascade(Strategies(raw, sim, artist, title), maxResults).queries;
      |qs| > 0 && qs[0] == Query(ExactQuery(artist, title), 3)
  {
    var runs := Strategies(raw, sim, artist, title);
    assert runs[0] == ExactSearch(raw, artist, title);
    assert runs[0].queries == [Query(ExactQuery(artist, title), 3)];
  }

  lemma RankedFacts(rs: seq<SearchResult>)
    ensures Ranked(SortByConfidence(Dedup(rs)))
  {
    DedupSpec(rs);
    SortKeepsIdsDistinct(Dedup(rs));
  }

  lemma SliceKeepsRanked(rs: seq<SearchResult>, stop: int)
    requires Ranked(rs)
    ensures Ranked(SliceTo(rs, stop))
  {
    var r := SliceTo(rs, stop);
    assert Ids(r) == Ids(rs)[..|r|];
  }

  /** Ranking proposes nothing new: every ranked candidate is one of the
      input candidates. */
  lemma RankDrawsFrom(rs: seq<SearchResult>, maxResults: int)
    ensures forall k :: 0 <= k < |Rank(rs, maxResults)| ==> Rank(rs, maxResults)[k] in rs
  {
    var d := Dedup(rs);
    var ranked := SortByConfidence(d);
    var r := Rank(rs, maxResults);
    DedupSpec(rs);
    forall k | 0 <= k < |r|
      ensures r[k] in rs
    {
      assert r[k] == ranked[k];
      assert ranked[k] in multiset(d);
      var m :| 0 <= m < |d| && d[m] == ranked[k];
      var i: nat :| i < |rs| && d[m] == rs[i] && IsBestIndex(rs, i);
    }
  }

  /** The engine's state: the in-memory cache. */
  datatype Engine = Engine(cache: map<string, seq<SearchResult>>)

  /** What a call returns, the engine after it, and the queries it sent. */
  datatype Outcome = Outcome(results: seq<SearchResult>, engine: Engine, queries: seq<Query>)

  function CacheKey(artist: string, title: string): string {
    Lower(artist) + "_" + Lower(title)
  }

  /** `TrackSearchEngine.search_track` as written: the cache is consulted by
      lower-cased artist and title only. */
  function SearchTrack(e: Engine, raw: RawSearch, sim: Similarity, artist: string, title: string, maxResults: int): (o: Outcome)
    ensures CacheKey(artist, title) in e.cache ==> o == Outcome(e.cache[CacheKey(artist, title)], e, [])
    ensures CacheKey(artist, title) !in e.cache ==> |o.queries| > 0 && Ranked(o.results)
    ensures CacheKey(artist, title) !in e.cache && maxResults >= 0 ==> |o.results| <= maxResults
    ensures CacheKey(artist, title) !in e.cache ==> o.results == Fresh(raw, sim, artist, title, maxResults).results
    ensures o.engine.cache == e.cache[CacheKey(artist, title) := o.results]
  {
    var key := CacheKey(artist, title);
    if key in e.cache then Outcome(e.cache[key], e, [])
    else
      var answer := Fresh(raw, sim, artist, title, maxResults);
      Outcome(answer.results, Engine(e.cache[key := answer.results]), answer.queries)
  }

  /** Every cached list is ranked. */
  predicate CacheRanked(e: Engine) {
    forall k :: k in e.cache ==> Ranked(e.cache[k])
  }

  /** A search keeps the cache ranked, so every answer is ranked. */
  lemma SearchKeepsCacheRanked(e: Engine, raw: RawSearch, sim: Similarity, artist: string, title: string, maxResults: int)
    requires CacheRanked(e)
    ensures CacheRanked(SearchTrack(e, raw, sim, artist, title, maxResults).engine)
    ensures Ranked(SearchTrack(e, raw, sim, artist, title, maxResults).results)
  {
  }

  /** A second search for the same lower-cased artist and title returns the
      first answer without querying, whatever `max_results` it passes. */
  lemma SearchAgainServesCache(e: Engine, raw: RawSearch, sim: Similarity, artist: string, title: string,
                               maxResults: int, artist2: string, title2: string, maxResults2: int)
    requires CacheKey(artist2, title2) == CacheKey(artist, title)
    ensures var first := SearchTrack(e, raw, sim, artist, title, maxResults);
      var second := SearchTrack(first.engine, raw, sim, artist2, title2, maxResults2);
      second.results == first.results && second.queries == [] && second.engine == first.engine
  {
  }

  /** `clear_cache`: every cached answer is forgotten. */
  function ClearSearchCache(e: Engine): (r: Engine)
    ensures forall k :: k !in r.cache
  {
    Engine(map[])
  }

  /** After `clear_cache` the next search queries the port again, whatever
      was cached before. */
  lemma ClearedEngineQueries(e: Engine, raw: RawSearch, sim: Similarity, artist: string, title: string, maxResults: int)
    ensures |SearchTrack(ClearSearchCache(e), raw, sim, artist, title, maxResults).queries| > 0
    ensures SearchTrack(ClearSearchCache(e), raw, sim, artist, title, maxResults).engine.cache.Keys ==
      {CacheKey(artist, title)}
  {
  }

  /** `get_cache_stats`: the number of cached keys, and a hit rate read from
      counters the engine never sets, so always 0 / max(1, 1). */
  function CacheStats(e: Engine): (r: (nat, real))
    ensures r.0 == |e.cache.Keys|
    ensures r.1 == 0.0
  {
    (|e.cache|, 0.0 / 1.0)
  }

  /** A search adds at most one entry to the statistics' cache size, and
      exactly one when it misses. */
  lemma SearchGrowsCacheByOne(e: Engine, raw: RawSearch, sim: Similarity, artist: string, title: string, maxResults: int)
    ensures var after := CacheStats(SearchTrack(e, raw, sim, artist, title, maxResults).engine).0;
      after == CacheStats(e).0 + (if CacheKey(artist, title) in e.cache then 0 else 1)
  {
  }

  /** The key joins artist and title with "_", so names containing "_"
      collide. */
  lemma CacheKeyCollision()
    ensures CacheKey("a_b", "c") == CacheKey("a", "b_c")
    ensures Lower("a_b") != Lower("a")
  {
    assert Lower("a_b") == "a_b";
    assert Lower("a") == "a";
    assert Lower("c") == "c";
    assert Lower("b_c") == "b_c";
  }

  /** A port that answers every query with the same two tracks. */
  function TwoTracks(q: string, limit: nat): Result<SpotifyClient.Response, string> {
    Ok(SpotifyClient.Response(Some(SpotifyClient.Page(Some([
      SpotifyClient.Track("1", "b", ["a"]),
      SpotifyClient.Track("2", "b", ["a"])])))))
  }

  /** With the key ignoring `max_results`, a search with `max_results` 1
      after one with 2 returns two results. */
  lemma CachedResultExceedsMax(sim: Similarity)
    ensures var first := SearchTrack(Engine(map[]), TwoTracks, sim, "a", "b", 2);
      |SearchTrack(first.engine, TwoTracks, sim, "a", "b", 1).results| == 2
  {
    var r1 := SearchResult("1", 1.0, ExactMatch);
    var r2 := SearchResult("2", 1.0, ExactMatch);
    var runs := Strategies(TwoTracks, sim, "a", "b");
    TwoExactHits();
    CascadeFullAfterFirst(runs, 2);
    RankTwo(r1, r2);
    assert Fresh(TwoTracks, sim, "a", "b", 2).results == [r1, r2];
  }

  lemma TwoExactHits()
    ensures ExactSearch(TwoTracks, "a", "b").results ==
      [SearchResult("1", 1.0, ExactMatch), SearchResult("2", 1.0, ExactMatch)]
  {
    var t1 := SpotifyClient.Track("1", "b", ["a"]);
    var t2 := SpotifyClient.Track("2", "b", ["a"]);
    assert SpotifyClient.SearchTrack(TwoTracks, ExactQuery("a", "b"), 3) == Ok([t1, t2]);
    assert TrackArtists(t1)[0] == Lower("a");
    assert TrackArtists(t2)[0] == Lower("a");
    var score := t => ExactConfidence(t, "a", "b");
    assert score(t1) == 1.0 && score(t2) == 1.0;
    assert [t1, t2][1..] == [t2];
    assert [t2][1..] == [];
  }

  /** Once the first strategy alone reaches `max_results`, no other runs. */
  lemma {:induction false} CascadeFullAfterFirst(runs: seq<Run>, maxResults: int)
    requires |runs| > 0 && |runs[0].results| >= maxResults
    ensures Cascade(runs, maxResults) == runs[0]
    decreases |runs|
  {
    if |runs| > 1 {
      CascadeFullAfterFirst(runs[..|runs| - 1], maxResults);
    }
  }

  lemma RankTwo(r1: SearchResult, r2: SearchResult)
    requires r1.trackId != r2.trackId && r1.confidence >= r2.confidence
    ensures Rank([r1, r2], 2) == [r1, r2]
  {
    calc {
      Rank([r1, r2], 2);
      SliceTo(SortByConfidence(Dedup([r1, r2])), 2);
      { DedupTwo(r1, r2); }
      SliceTo(SortByConfidence([r1, r2]), 2);
      { SortTwo(r1, r2); }
      SliceTo([r1, r2], 2);
      [r1, r2];
    }
  }

  /** Two candidates with different ids both survive deduplication. */
  lemma DedupTwo(r1: SearchResult, r2: SearchResult)
    requires r1.trackId != r2.trackId
    ensures Dedup([r1, r2]) == [r1, r2]
  {
    assert [r1, r2][..1] == [r1];
    assert [r1][..0] == [];
    assert Dedup([r1]) == DedupStep([], r1) == [r1];
    assert Ids([r1]) == [r1.trackId];
    assert DedupStep([r1], r2) == [r1, r2];
  }

  /** Two candidates already in descending order stay in place. */
  lemma SortTwo(r1: SearchResult, r2: SearchResult)
    requires r1.confidence >= r2.confidence
    ensures SortByConfidence([r1, r2]) == [r1, r2]
  {
    assert [r1, r2][..1] == [r1];
    assert [r1][..0] == [];
    assert SortByConfidence([r1]) == Insert([], r1) == [r1];
    assert Insert([r1], r2) == [r1] + Insert([], r2) == [r1, r2];
  }

  // ------------------------------------------- the cache, keyed correctly

  /** A cache key that keeps the lower-cased artist and title apart and
      includes `max_results`. */
  datatype SearchKey = SearchKey(artist: string, title: string, maxResults: int)

  datatype KeyedEngine = KeyedEngine(cache: map<SearchKey, seq<SearchResult>>)

  datatype KeyedOutcome = KeyedOutcome(results: seq<SearchResult>, engine: KeyedEngine, queries: seq<Query>)

  function KeyOf(artist: string, title: string, maxResults: int): SearchKey {
    SearchKey(Lower(artist), Lower(title), maxResults)
  }

  /** Every cached list is the fresh answer to a search whose lower-cased
      artist, lower-cased title and `max_results` make up its key. */
  ghost predicate Faithful(e: KeyedEngine, raw: RawSearch, sim: Similarity) {
    forall k :: k in e.cache ==>
      exists a: string, t: string :: KeyOf(a, t, k.maxResults) == k && e.cache[k] == Fresh(raw, sim, a, t, k.maxResults).results
  }

  /** `search_track` with the corrected cache key. */
  function SearchTrackKeyed(e: KeyedEngine, raw: RawSearch, sim: Similarity, artist: string, title: string, maxResults: int): (o: KeyedOutcome)
    ensures KeyOf(artist, title, maxResults) in e.cache ==> o.queries == [] && o.engine == e
    ensures Faithful(e, raw, sim) ==> Faithful(o.engine, raw, sim)
    ensures Faithful(e, raw, sim) ==>
      exists a: string, t: string :: Lower(a) == Lower(artist) && Lower(t) == Lower(title) &&
        o.results == Fresh(raw, sim, a, t, maxResults).results
    ensures Faithful(e, raw, sim) && maxResults >= 0 ==> |o.results| <= maxResults
    ensures Faithful(e, raw, sim) ==> Ranked(o.results)
  {
    var key := KeyOf(artist, title, maxResults);
    if key in e.cache then
      KeyedCached(e, raw, sim, artist, title, maxResults);
      KeyedOutcome(e.cache[key], e, [])
    else
      var answer := Fresh(raw, sim, artist, title, maxResults);
      KeyedStored(e, raw, sim, artist, title, maxResults);
      assert Lower(artist) == Lower(artist) && Lower(title) == Lower(title);
      KeyedOutcome(answer.results, KeyedEngine(e.cache[key := answer.results]), answer.queries)
  }

  /** A cached answer is the fresh answer to a search with the same
      lower-cased names and `max_results`. */
  lemma KeyedCached(e: KeyedEngine, raw: RawSearch, sim: Similarity, artist: string, title: string, maxResults: int)
    requires KeyOf(artist, title, maxResults) in e.cache
    ensures var answer := e.cache[KeyOf(artist, title, maxResults)];
      Faithful(e, raw, sim) ==>
      && (exists a: string, t: string ::
            Lower(a) == Lower(artist) && Lower(t) == Lower(title) && answer == Fresh(raw, sim, a, t, maxResults).results)
      && Ranked(answer)
      && (maxResults >= 0 ==> |answer| <= maxResults)
  {
    var key := KeyOf(artist, title, maxResults);
    if Faithful(e, raw, sim) {
      var a: string, t: string :| KeyOf(a, t, key.maxResults) == key && e.cache[key] == Fresh(raw, sim, a, t, key.maxResults).results;
    }
  }

  /** Storing a fresh answer under its key keeps the cache faithful. */
  lemma KeyedStored(e: KeyedEngine, raw: RawSearch, sim: Similarity, artist: string, title: string, maxResults: int)
    ensures var key := KeyOf(artist, title, maxResults);
      Faithful(e, raw, sim) ==>
      Faithful(KeyedEngine(e.cache[key := Fresh(raw, sim, artist, title, maxResults).results]), raw, sim)
  {
    var key := KeyOf(artist, title, maxResults);
    var c := e.cache[key := Fresh(raw, sim, artist, title, maxResults).results];
    if Faithful(e, raw, sim) {
      forall k | k in c
        ensures exists a: string, t: string :: KeyOf(a, t, k.maxResults) == k && c[k] == Fresh(raw, sim, a, t, k.maxResults).results
      {
        if k == key {
          assert KeyOf(artist, title, k.maxResults) == k;
        } else {
          assert c[k] == e.cache[k];
        }
      }
    }
  }

  /** The sequence of calls that exceeds `max_results` with the original key
      stays within it with the corrected one. */
  lemma KeyedRespectsMax(sim: Similarity)
    ensures var first := SearchTrackKeyed(KeyedEngine(map[]), TwoTracks, sim, "a", "b", 2);
      |SearchTrackKeyed(first.engine, TwoTracks, sim, "a", "b", 1).results| <= 1
  {
    assert Faithful(KeyedEngine(map[]), TwoTracks, sim);
  }

  /** The names that share a key in the original cache get separate entries. */
  lemma KeyedSeparatesCollision(m: int)
    ensures KeyOf("a_b", "c", m) != KeyOf("a", "b_c", m)
  {
    assert Lower("a_b") == "a_b";
    assert Lower("a") == "a";
  }
}
