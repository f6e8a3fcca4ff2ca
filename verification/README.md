# Track resolution in the Spotify playlist generator

The Spotify playlist generator reads a text file of track lines and builds a
Spotify playlist from them. A line can be:

- a bare 22-character track id;
- an `open.spotify.com/track/…` URL;
- a `spotify:track:…` URI;
- an "Artist - Title" pair;
- free text.

This project models the part of the program that turns those lines into track ids and a playlist:

- **`TrackParser`**: the line parser. It detects the format, extracts the id and splits the artist from the title.
- **`SpotifyClient`**: the thin client wrapper. It covers credential lookup, search, the three-query "advanced" search, playlist creation and batched adding.
- **`TrackSearcher`**: the `TrackSearcher.search_track` resolution chain. An id-like line is looked up directly. An "Artist - Title" line goes through the precise, general and punctuation-free artist/title searches. Every other line, and an id-like line whose lookup fails, falls back to the general search. It also covers Jaccard `_fuzzy_match` and `_find_best_match`.
- **`PlaylistCreator`**: `create_from_tracks`, `create_from_file`, `_read_tracks_from_file` and `get_creation_summary`.
- **`TrackSearch`**: the multi-strategy `TrackSearchEngine`. It covers:
  - the four confidence scorers;
  - the threshold filters;
  - the `max_results` cascade;
  - deduplication by track id;
  - the stable sort by confidence;
  - the cut to `max_results`;
  - the result cache and its statistics.
- **`FileUtils`**: `read_playlist_file` with its encoding fallback, and `validate_playlist_file`.
- **`Config`**: the cached Spotify configuration, `_get_bool_env`, `validate_spotify_config` and the recent-files list.
- **`LegacyMain`**: the stand-alone `main.py` script. It has its own classifier, a three-query search and 100-id batches.
- **`Text`, `Cleaning`, `Seqs`, `Wrappers`**: the string and list primitives the code relies on. These are `str.strip`, `str.lower`, `str.split`, substring search, the two punctuation cleaners, `_extract_keywords`, order-keeping de-duplication, list slicing and batching.

Everything outside the program becomes a parameter:

- The Spotify Web API is a set of function values:
  - `RawSearch` maps a query and a limit to a response or an error message;
  - `RawCreate` and `RawAddItems` create a playlist and add items;
  - `TrackLookup` is `sp.track`.
- `difflib.SequenceMatcher.ratio` is a `Similarity` function with values in [0, 1].
- The process environment is a `map<string, string>`.
- A file is a `FileFacts` record. It says whether the path exists, whether it is a regular file, its size, and what each encoding decodes it to.
- Confidences are exact `real`s.

Where the code and its documented behaviour differ, the model follows the code:

- A search that raises inside the artist/title chain is not caught there. It aborts the whole resolution of that line, and `search_track` reports "Search failed: …" with no method. `TrackSearcher.SearchTrack` states this.
- The strategy cascade of `TrackSearchEngine.search_track` compares the raw, not yet de-duplicated count with `max_results` (`TrackSearch.CascadeIsPrefix`).
- The playlist-creator tests expect `tracks_found` 3 when the mocked search returns the same id for three lines. The code counts distinct ids and reports 1 (`PlaylistCreator.RepeatedIdCountsOnce`).
- The placeholder-credentials configuration test expects the placeholder errors. Because `get_spotify_config` caches its first answer, a second validation in the same process still reports the "not set" errors (`Config.StaleCacheHidesPlaceholders`).
- The bare-id and artist-title patterns (playlist_creator.py:57 and 60) are cut off after their last character class in the program text. The bare-id pattern is read as `^[A-Za-z0-9]{22}$`, a whole line of 22 ASCII alphanumerics (`TrackParser.IsTrackId`). That is what `extract_track_id` returns as the id, and what the documented behaviour calls a track id. The URL and URI patterns are searches: they match inside a longer line, and the first match wins (`TrackParser.SearchPattern`).
- In `main.py`, when the punctuation-free query finds a track that has no artists, `IndexError` is caught and the line yields no id (`LegacyMain.FlexibleHitWithoutArtistIsLost`).

## Model

| member | source | states |
|---|---|---|
| Text.Strip | spotify-playlist-generator/src/core/playlist_creator.py:65 | `str.strip()` removes exactly the leading and trailing whitespace, with whitespace as Python defines it (Unicode spaces included): the result is a slice of the input with whitespace on both sides cut off, and it is empty exactly when the input is blank |
| Text.Words | spotify-playlist-generator/src/core/playlist_creator.py:282-283 | `str.split()` yields non-empty words without whitespace, and no words exactly when the text is blank; together with the three lemmas below, the words are the maximal whitespace-free runs of the text, in order |
| Text.WordsOfWord | spotify-playlist-generator/src/core/playlist_creator.py:282-283 | a non-empty run without whitespace splits into exactly itself |
| Text.WordsSkipSpace | spotify-playlist-generator/src/core/playlist_creator.py:282-283 | leading whitespace contributes no word |
| Text.WordsSplitAtSpace | spotify-playlist-generator/src/core/playlist_creator.py:282-283 | splitting at any whitespace character splits the word list there: the words of `a + c + b` are the words of `a` followed by those of `b` |
| Text.SplitJoin | spotify-playlist-generator/src/core/playlist_creator.py:458 | `"\n".join` is undone by splitting at the newline, for non-empty parts without one |
| Text.JoinLeadingSeparator | spotify-playlist-generator/src/core/playlist_creator.py:452-458 | a part that starts with the separator joins like an empty part followed by the rest of it |
| Text.WordsCharsOccur | spotify-playlist-generator/src/core/playlist_creator.py:282-283 | every character of every word of a string is a character of that string |
| Seqs.Unique | main.py:188-192 | de-duplication keeps every element, adds none and repeats none |
| Seqs.UniqueKeepsFirstSeenOrder | spotify-playlist-generator/src/core/playlist_creator.py:365 | the de-duplicated ids are in the order of their first appearance, as `dict.fromkeys` keeps them |
| Seqs.UniqueCountsDistinct | spotify-playlist-generator/src/core/playlist_creator.py:365 | the de-duplicated list is as long as the set of distinct ids |
| Seqs.Filter | spotify-playlist-generator/src/utils/file_utils.py:44-48 | a list comprehension with a condition keeps, in order, the elements that satisfy it: every kept element satisfies it, the result is a subsequence, and with `Seqs.FilterMultiset` each element occurs as often as in the input when it passes and never otherwise |
| Seqs.FilterMultiset | spotify-playlist-generator/src/utils/file_utils.py:44-48 | an element that satisfies the condition keeps its number of occurrences; one that does not, disappears |
| Seqs.FilterAppend | spotify-playlist-generator/src/utils/file_utils.py:44-48 | filtering two concatenated lists is concatenating their filters |
| Seqs.FilterOfFilter | spotify-playlist-generator/src/utils/file_utils.py:44-48 | filtering by a condition after a weaker one is filtering by the stronger condition alone |
| Seqs.FilterKeepsAll | spotify-playlist-generator/src/utils/file_utils.py:44-48 | a filter returns its input unchanged exactly when every element satisfies the condition |
| Seqs.SliceTo | spotify-playlist-generator/src/core/track_search.py:84 | `s[:stop]` is a prefix of the length Python gives, including a negative stop |
| Seqs.RemoveFirst | spotify-playlist-generator/src/utils/config.py:322-323 | `list.remove` deletes the first occurrence and nothing else |
| Seqs.RemoveFirstCount | spotify-playlist-generator/src/utils/config.py:322-323 | removing an element lowers its count by exactly one |
| Seqs.Batches | spotify-playlist-generator/src/core/spotify_client.py:263-264 | every batch is non-empty and at most the batch size |
| Seqs.BatchesPartition | spotify-playlist-generator/src/core/spotify_client.py:263-264 | the batches concatenate to the id list and all but the last are full |
| Seqs.BatchesCount | spotify-playlist-generator/src/core/spotify_client.py:263-264 | the number of batches is the id count divided by the batch size, rounded up |
| Seqs.BatchesAreRangeSlices | main.py:195-197 | batch `k` is the slice `ids[k*n : k*n+n]` that the `range(0, len, n)` loop takes |
| Cleaning.Sanitize | spotify-playlist-generator/src/core/track_search.py:316 | `re.sub(r'[^\w\s]', ' ', …)` replaces every character that is neither a word character nor whitespace by a space and keeps all others |
| Cleaning.Collapse | spotify-playlist-generator/src/core/track_search.py:318 | `re.sub(r'\s+', ' ', …)` leaves no two adjacent whitespace characters, turns every whitespace run into one space, is empty only for the empty string, and keeps every non-whitespace character in order (`Cleaning.CollapseKeepsNonSpace`) |
| Cleaning.CollapseKeepsNonSpace | spotify-playlist-generator/src/core/track_search.py:318 | collapsing whitespace keeps exactly the non-whitespace characters, in order |
| Cleaning.StripKeepsNonSpace | spotify-playlist-generator/src/core/track_search.py:319 | `strip()` keeps exactly the non-whitespace characters, in order |
| Cleaning.SanitizeKeepsWordChars | spotify-playlist-generator/src/core/track_search.py:316 | replacing punctuation by spaces keeps exactly the word characters, in order |
| Cleaning.CleanedWordChars | spotify-playlist-generator/src/core/track_search.py:313-319 | the whole cleaning pipeline keeps exactly the word characters of its input, in order |
| Cleaning.CleanString | spotify-playlist-generator/src/core/track_search.py:313-319 | `_clean_string` yields word characters and single inner spaces with no outer spaces, keeps exactly the input's word characters in their order, and is empty exactly when the input has no word character |
| Cleaning.CleanStringOfClean | spotify-playlist-generator/src/core/track_search.py:313-319 | an already clean string is left unchanged |
| Cleaning.CleanStringIdempotent | spotify-playlist-generator/src/core/track_search.py:313-319 | cleaning twice is cleaning once |
| Cleaning.StripPunctuation | main.py:56-57 | `re.sub(r'[^\w\s]', '', …)` keeps, in order, exactly the word and whitespace characters (so the input's whitespace and its word characters both survive unchanged), and returns the input exactly when there is nothing to delete |
| Cleaning.DeletingAndReplacingAgreeOnWords | spotify-playlist-generator/src/core/playlist_creator.py:209-210 | the deleting cleaner and the replacing cleaner keep the same word characters in the same order |
| Cleaning.ExtractKeywords | spotify-playlist-generator/src/core/track_search.py:321-329 | keywords are, in order, the lower-case words of the cleaned text that are not stop words and are longer than one character; conversely every such word of the cleaned text is a keyword |
| Cleaning.KeywordsIgnoreCase | spotify-playlist-generator/src/core/track_search.py:321-329 | lower-casing the text first does not change its keywords |
| TrackParser.SearchPattern | spotify-playlist-generator/src/core/playlist_creator.py:58-59 | `re.search` on a prefix followed by 22 alphanumerics finds a match exactly when one exists, and returns the 22-character id of the first one |
| TrackParser.ParseArtistTitle | spotify-playlist-generator/src/core/playlist_creator.py:100-107 | the pattern `^(.+?)\s*[-–—]\s*(.+)` matches the stripped line exactly when a dash has a character on each side; the split is at the earliest such dash and both parts are non-empty |
| TrackParser.SplitPartsNonEmpty | spotify-playlist-generator/src/core/playlist_creator.py:104-105 | on a stripped line, both stripped sides of a usable dash are non-empty |
| TrackParser.EarliestDashWins | spotify-playlist-generator/src/core/playlist_creator.py:60 | the lazy artist group splits "Jay-Z - X" at the first hyphen |
| TrackParser.DetectFormat | spotify-playlist-generator/src/core/playlist_creator.py:63-76 | the checks run in order: a bare id is SpotifyId; otherwise a track URL is SpotifyUrl; otherwise a track URI is SpotifyUri; otherwise a parsed dash is ArtistTitle; each format holds exactly when its check passes and every earlier one fails, and the line is Unknown exactly when none applies |
| TrackParser.ExtractTrackId | spotify-playlist-generator/src/core/playlist_creator.py:79-97 | an extracted id is always 22 ASCII alphanumerics |
| TrackParser.DetectAgreesWithExtract | spotify-playlist-generator/src/core/playlist_creator.py:63-97 | an id format is detected exactly when an id can be extracted; the id comes from the same source that decided the format |
| TrackParser.LinkBeatsDash | spotify-playlist-generator/src/core/playlist_creator.py:67-74 | a line that holds a track URL is an id line even when it also contains a dash |
| SpotifyClient.NewClient | spotify-playlist-generator/src/core/spotify_client.py:61-71 | a missing or empty argument falls back to the environment; the client exists exactly when both id and secret are found, otherwise AuthenticationError |
| SpotifyClient.SearchTrack | spotify-playlist-generator/src/core/spotify_client.py:150-161 | the items of the response, [] when a key is missing, and APIError carrying the message exactly when the call raises |
| SpotifyClient.PickByArtist | spotify-playlist-generator/src/core/spotify_client.py:184-189 | the first track whose joined artist names contain the artist, otherwise the first track |
| SpotifyClient.FirstAnswered | spotify-playlist-generator/src/core/spotify_client.py:180-189 | the index of the first query that raises or finds something; every query before it finds nothing |
| SpotifyClient.TryQueries | spotify-playlist-generator/src/core/spotify_client.py:180-191 | the first query that finds anything decides the single track, and a raising search propagates |
| SpotifyClient.SearchTrackAdvanced | spotify-playlist-generator/src/core/spotify_client.py:163-191 | at most one track, taken from one of the three queries; [] exactly when all three find nothing |
| SpotifyClient.CreatePlaylist | spotify-playlist-generator/src/core/spotify_client.py:210-235 | success exactly when the call answers with a non-empty id, and then the playlist carries that `id` and its `external_urls.spotify` link, or "" when the link is missing; otherwise APIError |
| SpotifyClient.AddTracksToPlaylist | spotify-playlist-generator/src/core/spotify_client.py:237-285 | an empty list is (True, 0); only a batch size of 0 on a non-empty list fails; a negative batch size gives (True, 0) because the range is empty; a positive one sends batches of at most the smaller of that size and 100, and counts exactly the ids of the successful calls |
| SpotifyClient.AddedCountIsSuccessfulBatches | spotify-playlist-generator/src/core/spotify_client.py:263-281 | the added count is the total size of exactly the batches whose call succeeded |
| SpotifyClient.AllBatchesSucceed | spotify-playlist-generator/src/core/spotify_client.py:263-281 | when every batch call succeeds, every id is counted |
| TrackSearch.ExactConfidence | spotify-playlist-generator/src/core/track_search.py:222-237 | the score is 1.0, 0.9, 0.85 or 0; it is 1.0 exactly on an exact title and listed artist; 0.9 exactly on an exact title whose artist is not listed but overlaps a listed one; 0.85 exactly on a different title that contains the searched title and a listed artist; 0 otherwise |
| TrackSearch.ExactSelfMatch | spotify-playlist-generator/src/core/track_search.py:222-230 | a track scores 1.0 against its own title and first artist |
| TrackSearch.BestRatio | spotify-playlist-generator/src/core/track_search.py:247-250 | the best artist ratio bounds every artist's ratio and is attained by one of them; with no artists it is 0 |
| TrackSearch.FuzzyConfidence | spotify-playlist-generator/src/core/track_search.py:239-257 | the fuzzy score lies in [0, 1]; with no artists it is exactly 0.6 times the title ratio; otherwise it is at least the weighted title and artist ratio for every artist and equals that value for one of them |
| TrackSearch.FuzzySelfMatch | spotify-playlist-generator/src/core/track_search.py:239-257 | with a similarity that rates equal strings 1, a track scores 1.0 against itself |
| TrackSearch.CleanedConfidence | spotify-playlist-generator/src/core/track_search.py:259-273 | the score is 0.8 exactly when both cleaned title and artist overlap, 0 exactly when neither does, and 0.6 otherwise |
| TrackSearch.CleanedSelfMatch | spotify-playlist-generator/src/core/track_search.py:259-273 | a track scores 0.8 against its own cleaned title and artist |
| TrackSearch.CleanedEmptyTitleMatchesAll | spotify-playlist-generator/src/core/track_search.py:264 | an empty cleaned title is contained in every title, so every track scores at least 0.6 |
| TrackSearch.Overlap | spotify-playlist-generator/src/core/track_search.py:289-290 | the keyword overlap lies in [0, 1]; it is 1 exactly when the query keywords are non-empty and all present, and 0 exactly when none are |
| TrackSearch.ArtistKeywords | spotify-playlist-generator/src/core/track_search.py:284-286 | the artist keyword set is exactly the union of the keywords of each artist |
| TrackSearch.PartialConfidence | spotify-playlist-generator/src/core/track_search.py:275-294 | the partial score lies in [0, 1]; it is 1 exactly when both keyword sets are non-empty and fully matched, and 0 exactly when neither shares a keyword |
| TrackSearch.PartialSelfMatch | spotify-playlist-generator/src/core/track_search.py:275-294 | a track with keywords scores 1.0 against its own title and first artist |
| TrackSearch.Scored | spotify-playlist-generator/src/core/track_search.py:96-113 | a strategy keeps, with its own label, exactly the tracks whose confidence exceeds its threshold |
| TrackSearch.Attempt | spotify-playlist-generator/src/core/track_search.py:90-115 | one query at the strategy's limit; a failing search contributes no candidates |
| TrackSearch.KeywordQueries | spotify-playlist-generator/src/core/track_search.py:186-191 | none without artist or title keywords; otherwise the first query is the first artist keyword and the first title keyword, and a second query, present exactly when there are two title keywords, adds the second title keyword |
| TrackSearch.KeywordQueryWords | spotify-playlist-generator/src/core/track_search.py:186-191 | the words of partial query `i` are the first artist keyword followed by the first `i+1` title keywords |
| TrackSearch.PartialQueriesAreKeywords | spotify-playlist-generator/src/core/track_search.py:184-191 | every word of a partial query is a keyword of the artist or the title |
| TrackSearch.PartialAttempts | spotify-playlist-generator/src/core/track_search.py:193-213 | each partial query runs on its own at limit 3 and threshold 0.4, and a failure skips only that query |
| TrackSearch.Cascade | spotify-playlist-generator/src/core/track_search.py:59-77 | the exact strategy always runs first |
| TrackSearch.CascadeIsPrefix | spotify-playlist-generator/src/core/track_search.py:59-77 | the strategies that run are a prefix, cut at the first point where the raw candidate count reaches `max_results` |
| TrackSearch.FirstQueryIsExact | spotify-playlist-generator/src/core/track_search.py:61-62 | the first query sent is the quoted `track:… artist:…` query at limit 3 |
| TrackSearch.DedupSpec | spotify-playlist-generator/src/core/track_search.py:331-350 | one entry per track id, in order of first appearance; each entry is the earliest candidate with the highest confidence for its id |
| TrackSearch.SortByConfidence | spotify-playlist-generator/src/core/track_search.py:81 | the sort is a permutation in non-increasing confidence |
| TrackSearch.SortIsStable | spotify-playlist-generator/src/core/track_search.py:81 | like Python's `sorted`, the sort keeps the relative order of candidates with equal confidence |
| TrackSearch.SortKeepsIdsDistinct | spotify-playlist-generator/src/core/track_search.py:80-81 | sorting de-duplicated candidates keeps their ids distinct |
| TrackSearch.Rank | spotify-playlist-generator/src/core/track_search.py:79-84 | the final list has distinct ids and is ordered by confidence; it holds exactly `min(max_results, n)` of the n de-duplicated candidates (or n minus `-max_results` for a negative limit, as Python slices); every entry is a de-duplicated candidate, and no dropped candidate has a higher confidence than any kept one |
| TrackSearch.TopOfSorted | spotify-playlist-generator/src/core/track_search.py:81-84 | a prefix of a list sorted by confidence is at least as confident as every element left out |
| TrackSearch.RankDrawsFrom | spotify-playlist-generator/src/core/track_search.py:79-84 | every returned result is one of the candidates |
| TrackSearch.Fresh | spotify-playlist-generator/src/core/track_search.py:59-84 | an uncached search sends at least one query and returns a ranked list of at most `max_results` |
| TrackSearch.SearchTrack | spotify-playlist-generator/src/core/track_search.py:43-88 | a cached key returns the cached list without a query; otherwise the answer is exactly the fresh ranked answer for these names and `max_results`, and it is stored under the key |
| TrackSearch.SearchKeepsCacheRanked | spotify-playlist-generator/src/core/track_search.py:79-88 | the cache only ever holds ranked lists, so every answer is ranked |
| TrackSearch.SearchAgainServesCache | spotify-playlist-generator/src/core/track_search.py:55-57 | repeating a search with the same key, in any case and with any `max_results`, sends nothing and returns the first answer |
| TrackSearch.ClearSearchCache | spotify-playlist-generator/src/core/track_search.py:352-355 | clearing leaves no key cached |
| TrackSearch.ClearedEngineQueries | spotify-playlist-generator/src/core/track_search.py:352-355 | after clearing, a search queries again and caches exactly its own key |
| TrackSearch.CacheStats | spotify-playlist-generator/src/core/track_search.py:357-362 | the statistics report the number of cached keys and a hit rate of 0 |
| TrackSearch.SearchGrowsCacheByOne | spotify-playlist-generator/src/core/track_search.py:85-86 | a search adds one cache entry exactly when its key was new |
| TrackSearch.CacheKeyCollision | spotify-playlist-generator/src/core/track_search.py:55 | ("a_b", "c") and ("a", "b_c") share a cache key although their artists differ |
| TrackSearch.CachedResultExceedsMax | spotify-playlist-generator/src/core/track_search.py:55-57 | a search with `max_results` 1 after one with 2 returns two results |
| TrackSearch.SearchTrackKeyed | spotify-playlist-generator/src/core/track_search.py:43-88 | with the corrected key, every answer is the fresh answer for the same lower-cased artist, title and `max_results`, so it is ranked and bounded |
| TrackSearch.KeyedCached | spotify-playlist-generator/src/core/track_search.py:56-57 | a cache hit under the corrected key is a fresh answer for that search, ranked and within `max_results` |
| TrackSearch.KeyedStored | spotify-playlist-generator/src/core/track_search.py:85-86 | storing a fresh answer under its corrected key keeps every cache entry faithful |
| TrackSearch.KeyedRespectsMax | spotify-playlist-generator/src/core/track_search.py:84-88 | with the corrected key, the search with `max_results` 1 returns at most one result |
| TrackSearch.KeyedSeparatesCollision | spotify-playlist-generator/src/core/track_search.py:55 | the corrected key tells ("a_b", "c") and ("a", "b_c") apart |
| TrackSearcher.WordSetEmpty | spotify-playlist-generator/src/core/playlist_creator.py:282-286 | a string has no words exactly when it is blank |
| TrackSearcher.FuzzyMatch | spotify-playlist-generator/src/core/playlist_creator.py:280-291 | false when either string has no words; otherwise true exactly when the Jaccard ratio of the word sets reaches the threshold |
| TrackSearcher.FuzzyMatchSymmetric | spotify-playlist-generator/src/core/playlist_creator.py:280-291 | the fuzzy match does not depend on argument order |
| TrackSearcher.FuzzyMatchSelf | spotify-playlist-generator/src/core/playlist_creator.py:280-291 | a non-blank string matches itself at any threshold up to 1 |
| TrackSearcher.FuzzyMatchSharesWord | spotify-playlist-generator/src/core/playlist_creator.py:288-291 | at a positive threshold, matching strings share a word |
| TrackSearcher.FirstMatch | spotify-playlist-generator/src/core/playlist_creator.py:262-275 | the index of the first track whose artist and title match; no earlier track matches |
| TrackSearcher.FindBestMatch | spotify-playlist-generator/src/core/playlist_creator.py:256-278 | nothing for no tracks, otherwise the first track matching artist and title, else the first track |
| TrackSearcher.SearchGeneral | spotify-playlist-generator/src/core/playlist_creator.py:233-254 | the first hit of a one-result search on the line, a failure with "No matches found in general search" when there is none, and an error exactly when the search raises |
| TrackSearcher.SearchByArtistTitle | spotify-playlist-generator/src/core/playlist_creator.py:175-231 | the precise, general and punctuation-free searches run in order and the first with a hit decides; the line fails exactly when all three find nothing |
| TrackSearcher.ArtistTitleErrors | spotify-playlist-generator/src/core/playlist_creator.py:175-231 | the only error of the artist/title chain is a failed search |
| TrackSearcher.AdvancedErrorsComeFromSearch | spotify-playlist-generator/src/core/spotify_client.py:180-191 | the advanced search only fails with a search error |
| TrackSearcher.ResolveFacts | spotify-playlist-generator/src/core/playlist_creator.py:128-153 | an id line whose lookup succeeds is resolved directly with the extracted id; an id line whose lookup fails falls back to the general search |
| TrackSearcher.SearchTrack | spotify-playlist-generator/src/core/playlist_creator.py:115-165 | every result is well formed; an id line whose lookup succeeds is "direct_id"; an artist-title line returns the artist/title chain's answer, or the failure "Search failed: …" without a method when a search raises; every other line, and an id line whose lookup fails, returns the general search's answer or that failure |
| TrackSearcher.ReliableCatalogAlwaysNamesMethod | spotify-playlist-generator/src/core/playlist_creator.py:128-153 | when no search raises, every result names the method that produced it |
| TrackSearcher.ReliableResolve | spotify-playlist-generator/src/core/playlist_creator.py:128-153 | when no search raises, resolution never ends in an error |
| TrackSearcher.ReliableArtistTitle | spotify-playlist-generator/src/core/playlist_creator.py:175-231 | when no search raises, the artist/title chain never ends in an error |
| TrackSearcher.ReliableAdvanced | spotify-playlist-generator/src/core/spotify_client.py:180-191 | when no search raises, the advanced search never fails |
| PlaylistCreator.Collect | spotify-playlist-generator/src/core/playlist_creator.py:350-362 | one search per non-blank line in order; found holds the resolved ids and failed holds exactly the non-blank lines left unresolved, in order (`PlaylistCreator.FailedAreUnresolvedLines`) |
| PlaylistCreator.FoundAreResolvedIds | spotify-playlist-generator/src/core/playlist_creator.py:358-362 | found is exactly the ids of the resolved results, in order |
| PlaylistCreator.FailedAreUnresolvedLines | spotify-playlist-generator/src/core/playlist_creator.py:350-362 | failed is exactly the non-blank lines whose search did not resolve to an id, in order |
| PlaylistCreator.CreateFromTracks | spotify-playlist-generator/src/core/playlist_creator.py:329-415 | `tracks_found` counts the distinct ids; success exactly when something was found and the playlist was created, and then the result carries the created playlist's id and url and the number of ids the batches of 100 added; a failure has no playlist and adds nothing |
| PlaylistCreator.NothingFoundCreatesNothing | spotify-playlist-generator/src/core/playlist_creator.py:367-378 | with nothing found, the catalog is never asked to create or add, and the result is a failure with zero found |
| PlaylistCreator.TracksFoundCountsDistinctIds | spotify-playlist-generator/src/core/playlist_creator.py:365 | `tracks_found` is the number of distinct ids found |
| PlaylistCreator.RepeatedIdCountsOnce | spotify-playlist-generator/src/core/playlist_creator.py:365 | lines that all resolve to one id count as one track found |
| PlaylistCreator.ReliableCatalogAddsEverything | spotify-playlist-generator/src/core/playlist_creator.py:380-402 | when creation and every add succeed, the creation succeeds and every distinct id is added |
| PlaylistCreator.ReadTracksFromFile | spotify-playlist-generator/src/core/playlist_creator.py:417-432 | a missing or non-UTF-8 file gives nothing; otherwise the stripped non-blank lines |
| PlaylistCreator.ReadersDifferOnlyInComments | spotify-playlist-generator/src/core/playlist_creator.py:417-432 | on a UTF-8 file, the generic reader returns exactly this reader's lines minus the comment lines |
| PlaylistCreator.CreateFromFile | spotify-playlist-generator/src/core/playlist_creator.py:300-327 | an unreadable or empty file gives (False, None); otherwise success and URL are those of creating from the read lines |
| PlaylistCreator.BlankFileReachesNoCatalog | spotify-playlist-generator/src/core/playlist_creator.py:314-316 | a file of blank lines gives (False, None) whatever the catalog does |
| PlaylistCreator.FailedSection | spotify-playlist-generator/src/core/playlist_creator.py:451-456 | a header, the first five failed lines in order, and a "… and N more" line exactly when more than five failed |
| PlaylistCreator.SummaryLines | spotify-playlist-generator/src/core/playlist_creator.py:439-456 | the success header, the statistics header, then the bullets for requested, found, added and failed counts; the URL line exactly when there is a URL; and the failed section as the tail |
| PlaylistCreator.GetCreationSummary | spotify-playlist-generator/src/core/playlist_creator.py:434-458 | a failure gives the one-line failure text; a success starts with the success header and, split at its newlines, gives back the summary lines (`PlaylistCreator.SummaryReadsBack`) |
| PlaylistCreator.SummaryReadsBack | spotify-playlist-generator/src/core/playlist_creator.py:434-458 | splitting a success summary at newlines gives back its lines, except that the failed header's leading newline shows up as an extra empty line |
| FileUtils.FilterLines | spotify-playlist-generator/src/utils/file_utils.py:44-48 | every line kept is non-blank, stripped and not a comment |
| FileUtils.FilterLinesIsStrippedKept | spotify-playlist-generator/src/utils/file_utils.py:44-48 | the result is the stripped form of exactly the lines passing the condition, in file order |
| FileUtils.FilterLinesAppend | spotify-playlist-generator/src/utils/file_utils.py:44-48 | filtering works line by line: the filter of two concatenated parts is the concatenation of their filters |
| FileUtils.FilterLinesIdempotent | spotify-playlist-generator/src/utils/file_utils.py:44-48 | filtering filtered lines changes nothing |
| FileUtils.StrippedLines | main.py:153-154 | the readers without a comment filter keep stripped, non-blank lines |
| FileUtils.FilterLinesDropsOnlyComments | spotify-playlist-generator/src/utils/file_utils.py:44-48 | the comment filter is the only difference from the readers without one |
| FileUtils.FirstDecoding | spotify-playlist-generator/src/utils/file_utils.py:41-57 | the first encoding that decodes, with every earlier one failing |
| FileUtils.ReadPlaylistFile | spotify-playlist-generator/src/utils/file_utils.py:17-59 | missing path and non-file are rejected before reading; success exactly when some encoding decodes, and then the first such encoding's lines are filtered |
| FileUtils.Utf8ComesFirst | spotify-playlist-generator/src/utils/file_utils.py:39-51 | a file that decodes as UTF-8 is read as UTF-8 |
| FileUtils.ChecksPrecedeReading | spotify-playlist-generator/src/utils/file_utils.py:33-37 | when the existence or kind check fails, the result does not depend on the content |
| FileUtils.ValidatePlaylistFile | spotify-playlist-generator/src/utils/file_utils.py:61-98 | the first failing check names the problem (missing, not a file, empty, too large, unreadable, no tracks, too many tracks) |
| FileUtils.ValidIffReadable | spotify-playlist-generator/src/utils/file_utils.py:74-98 | valid exactly for a non-empty regular file of at most 10 MiB that reads to between 1 and 10 000 track lines |
| FileUtils.UndecodableFileMessage | spotify-playlist-generator/src/utils/file_utils.py:87-96 | an undecodable file is reported with the intended decoding message (see Left out) |
| Config.GetEnv | spotify-playlist-generator/src/utils/config.py:88-93 | `os.getenv` gives the variable when it is set and the default otherwise |
| Config.GetBoolEnv | spotify-playlist-generator/src/utils/config.py:151-156 | an unset variable gives the default; a set one is true exactly when its lower-cased value is one of the true words |
| Config.SetVariableIgnoresDefault | spotify-playlist-generator/src/utils/config.py:151-156 | the default only matters for an unset variable |
| Config.BoolEnvIgnoresCase | spotify-playlist-generator/src/utils/config.py:156 | the value's case does not matter |
| Config.BoolEnvExamples | spotify-playlist-generator/src/utils/config.py:156 | "TRUE" is true and the empty string is false |
| Config.ConfigFromEnv | spotify-playlist-generator/src/utils/config.py:88-93 | unset credentials read as empty; unset redirect URI and cache path take their defaults |
| Config.GetSpotifyConfig | spotify-playlist-generator/src/utils/config.py:85-96 | the first call reads the environment and caches the answer; later calls return the cached record unchanged |
| Config.ClearCache | spotify-playlist-generator/src/utils/config.py:339-341 | clearing empties the cache |
| Config.CacheIgnoresLaterEnvironment | spotify-playlist-generator/src/utils/config.py:85-96 | once cached, later changes to the environment are not seen |
| Config.ClearedCacheRereads | spotify-playlist-generator/src/utils/config.py:339-341 | after clearing, the next call reads the environment afresh |
| Config.ValidateConfig | spotify-playlist-generator/src/utils/config.py:268-284 | each error is reported exactly when its condition holds, at most one per field and in field order (id, secret, redirect URI), and valid exactly when there is none |
| Config.ValidateSpotifyConfig | spotify-playlist-generator/src/utils/config.py:261-284 | validation checks the cached configuration and caches it as a side effect |
| Config.ValidatedIsValid | spotify-playlist-generator/src/utils/config.py:29-31 | a validated configuration satisfies `is_valid`, and an `is_valid` one without placeholders validates |
| Config.PlaceholderIsValidButRejected | spotify-playlist-generator/src/utils/config.py:273-279 | the placeholder credentials pass `is_valid` but fail validation with both placeholder errors |
| Config.PlaceholderErrors | spotify-playlist-generator/src/utils/config.py:270-279 | with placeholder id and secret and a redirect URI, validation reports exactly the two placeholder errors |
| Config.UnsetErrors | spotify-playlist-generator/src/utils/config.py:270-279 | with no id and no secret and a redirect URI, validation reports exactly the two "not set" errors |
| Config.UnsetCredentialsReported | spotify-playlist-generator/src/utils/config.py:268-277 | with nothing set, validation reports exactly the missing id and secret |
| Config.StaleCacheHidesPlaceholders | spotify-playlist-generator/src/utils/config.py:268 | a second validation after the placeholders are set still reports them as unset, whereas a fresh manager reports the placeholders |
| Config.AddRecentFile | spotify-playlist-generator/src/utils/config.py:319-329 | for a non-negative limit the list has `min(limit, n)` entries, where n counts the path once and every other entry; the path comes first and the rest is the old list without the path, in order, cut to fit; a negative limit cuts from the end as Python slices |
| Config.WithoutPath | spotify-playlist-generator/src/utils/config.py:322-323 | `if path in recent: recent.remove(path)` removes one occurrence when listed and changes nothing otherwise |
| Config.AddRecentFileIdempotent | spotify-playlist-generator/src/utils/config.py:319-329 | adding the same path twice is adding it once |
| LegacyMain.ClassifyLine | main.py:161-179 | a bare id, a URI or a URL yields its 22-character id; nothing exactly when none is present |
| LegacyMain.ClassifiersAgree | main.py:161-179 | on stripped lines, the script and the parser find an id on the same lines and the same id, except that the script prefers the URI when both a URI and a URL are present |
| LegacyMain.SplitTitleArtist | main.py:37 | `split(' - ', 1)` splits at the first separator and the parts rejoin to the line |
| LegacyMain.LegacyQueries | main.py:35-63 | three queries when the line has " - ", otherwise only the line itself |
| LegacyMain.FirstAnswer | main.py:38-63 | the first query that raises or finds something; none before it does |
| LegacyMain.SearchTrackId | main.py:23-71 | queries go out in order until one raises or finds something; when that answer has hits, the id is its first hit, except for an artist-less hit of the punctuation-free query; "" on error or when nothing is found |
| LegacyMain.HitId | main.py:58-71 | an answer with hits gives its first hit's id, except that the punctuation-free query's artist-less hit gives ""; a raised search or no hits give "" |
| LegacyMain.PlainLineSendsOneQuery | main.py:45-50 | a line without " - " sends one general query and takes its first hit |
| LegacyMain.PreciseHitWins | main.py:36-42 | a line with " - " whose precise `track:… artist:…` query finds a track takes that track's id, and nothing else is sent |
| LegacyMain.FlexibleHitWithoutArtistIsLost | main.py:53-63 | a hit of the punctuation-free query whose track lists no artists is dropped, and the line yields "" |
| LegacyMain.TrackIds | main.py:160-185 | the non-empty ids of the lines, in order |
| LegacyMain.DirectIdsAreKept | main.py:162-179 | a line holding an id always contributes that id |
| LegacyMain.SendBatches | main.py:195-201 | the unique ids go out in full batches of 100 with a shorter last one, and each call's outcome is recorded |
| LegacyMain.RunOnIds | main.py:188-201 | nothing is sent exactly when there are no ids; otherwise the de-duplicated ids are sent |
| LegacyMain.RunMain | main.py:151-201 | the file's stripped lines become ids, de-duplicated, then sent in batches of at most 100 that cover them exactly |
| LegacyMain.SentBatchesAreSlices | main.py:195-197 | batch `k` is `unique_ids[k*100 : k*100+100]` |

## Left out

- User interfaces, logging, `time.sleep` back-off and OAuth are not modelled. The Spotify Web API is reduced to the function parameters described above; the network itself is left out.
- The `difflib.SequenceMatcher.ratio` similarity is uninterpreted: the model only assumes its values lie in [0, 1].
- Floating-point arithmetic is modelled as exact real arithmetic.
- The regex class `\w` is ASCII-only here: Unicode letters and digits are not word characters. Whitespace (`\s`, `strip`, `split`, `isspace`) follows Python's Unicode definition.
- Text.Lower: `str.lower()` is modelled on ASCII letters only, so "BEYONCÉ" lower-cases to "beyoncÉ" where Python gives "beyoncé"; keyword extraction and the cache key inherit this.
- The `.` of the artist-title pattern does not match a newline. A file line never contains one after stripping, so the model does not track this.
- `create_playlist`'s description text and its clock-derived timestamp are left out; only the name, public flag and the answer's id matter.
- FileUtils.ReadPlaylistFile, FileUtils.ValidatePlaylistFile, FileUtils.UndecodableFileMessage: when every encoding fails, Python's `raise UnicodeDecodeError(msg)` passes one argument where five are required, so a `TypeError` ("function takes exactly 5 arguments (1 given)") escapes instead, and validation reports "Could not read file: function takes exactly 5 arguments (1 given)". The model carries the intended message "Could not decode file … with any supported encoding" instead.
- The outer `except Exception` of `validate_playlist_file` (file_utils.py:100-101) only catches errors of the file system calls, which the `FileFacts` record answers without raising.
- Config file loading and saving (JSON), `load_dotenv`, and the UI and app getters of the config manager are left out. They are I/O and carry no logic beyond defaults.
- `get_recent_files` filters the list by file existence. That check is I/O and is not modelled.
- `create_sample_playlist`, `backup_file` and `ensure_directory` write files and are left out.
- `get_playlist_info`, `is_authenticated` and `SpotifyClient.clear_cache` are network and authentication calls and are left out.
- `_get_fuzzy_scores` and the `match_details` dictionaries only feed diagnostics and are left out.
- `main.py` creates the playlist before reading the file. RunMain takes the created playlist's id as a parameter, and its success message is not modelled.
- `main.py`'s final success message prints the number of unique ids even when some batches failed. The model records every batch's outcome instead.
- A lookup answer that Python treats as false (an empty dict) is treated as found.
- In `main.py`'s third, flexible strategy, a hit without a `name` key, or whose first artist has none, raises `KeyError` in the logging line (main.py:61). The handler then makes the line yield "" (main.py:68-70). The model's tracks always carry a name, so there the model returns the hit's id where Python returns "".
- Every catalog item is assumed to carry an `id` key and every artist a `name` key: a `Track` has no way to lack either. Python reads both with `[]` (track_search.py:101 and 225, playlist_creator.py:185 and 264, spotify_client.py:185, main.py:40 and 61), and a missing key raises `KeyError`. In the search engine the whole strategy then yields no candidates (track_search.py:113-115). In `search_track` the line fails with the key as its error message and no method (playlist_creator.py:155-165), a failure the "Search failed: " clause of `TrackSearcher.SearchTrack` does not cover. In `main.py`'s third strategy the line yields "" (main.py:61, 68-70).
- TrackSearch.Fresh: states that the answer is ranked, within `max_results` and drawn from the candidates; which candidates survive the cut is stated on `TrackSearch.Rank`, to which `TrackSearch.SearchTrack` ties every uncached answer.
- The `get_cache_stats` hit-rate counters are never updated by the code and are modelled as the constant 0.

## Findings

| source | as written | input that shows it | evidently intended | confidence | as-written member | corrected member |
|---|---|---|---|---|---|---|
| spotify-playlist-generator/src/core/track_search.py:55-57 | the cache key is lower-cased artist and title only, so a cached list is returned whatever `max_results` is | a search with `max_results` 2 and then the same names with `max_results` 1, on a catalog that returns two matching tracks, returns two results | the key includes `max_results`, so an answer never exceeds the limit asked for | not executed | TrackSearch.CachedResultExceedsMax | TrackSearch.KeyedRespectsMax |
| spotify-playlist-generator/src/core/track_search.py:55 | the key joins artist and title with "_", which may itself occur in either | artist "a_b" with title "c" and artist "a" with title "b_c" share the key "a_b_c" | distinct (artist, title) pairs get distinct keys | not executed | TrackSearch.CacheKeyCollision | TrackSearch.KeyedSeparatesCollision |
