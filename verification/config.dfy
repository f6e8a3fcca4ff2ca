/** `config`: the Spotify credentials record, the manager that reads it
    from the environment once and caches it, the credential validation,
    the boolean environment parser and the recent-files list. The
    environment is a map from variable names to values. */
module Config {
  import opened Wrappers
  import opened Text
  import opened Seqs
  import Cleaning

  type Env = map<string, string>

  const DefaultRedirectUri := "http://127.0.0.1:8888/callback"
  const DefaultCachePath := ".spotify_cache"

  datatype SpotifyConfig = SpotifyConfig(
    clientId: string,
    clientSecret: string,
    redirectUri: string,
    cachePath: string)

  /** `SpotifyConfig.is_valid`: the id, the secret and the redirect URI are
      all non-empty; the cache path plays no part. */
  predicate IsValid(c: SpotifyConfig) {
    c.clientId != "" && c.clientSecret != "" && c.redirectUri != ""
  }

  /** `os.getenv(key, default)`. */
  function GetEnv(env: Env, key: string, default: string): (v: string)
    ensures key in env ==> v == env[key]
    ensures key !in env ==> v == default
  {
    if key in env then env[key] else default
  }

  // --------------------------------------------------------------- booleans

  const TrueWords := ["true", "1", "yes", "on"]

  /** `_get_bool_env`: the default when the variable is unset, otherwise
      whether its lowercased value is one of the true words. */
  function GetBoolEnv(env: Env, key: string, default: bool): (b: bool)
    ensures key !in env ==> b == default
    ensures key in env ==> (b <==> exists k :: 0 <= k < |TrueWords| && Lower(env[key]) == TrueWords[k])
  {
    if key !in env then default else Lower(env[key]) in TrueWords
  }

  /** A set variable decides on its own: the same value gives the same answer
      whatever the default. */
  lemma SetVariableIgnoresDefault(env: Env, key: string)
    requires key in env
    ensures GetBoolEnv(env, key, true) == GetBoolEnv(env, key, false)
  {
  }

  /** Upper- and lower-case spellings of a value mean the same. */
  lemma {:induction false} BoolEnvIgnoresCase(env: Env, key: string, v: string, default: bool)
    ensures GetBoolEnv(env[key := v], key, default) == GetBoolEnv(env[key := Lower(v)], key, default)
  {
    Cleaning.LowerIdempotent(v);
  }

  /** "TRUE" counts as true, and a variable set to "" is false even when the
      default is true. */
  lemma BoolEnvExamples(env: Env, key: string)
    ensures GetBoolEnv(env[key := "TRUE"], key, false)
    ensures !GetBoolEnv(env[key := ""], key, true)
  {
    assert Lower("TRUE") == "true";
  }

  // ---------------------------------------------------------- cached config

  /** The manager's cache of the Spotify section. */
  datatype Manager = Manager(cached: Option<SpotifyConfig>)

  const NewManager := Manager(None)

  /** The record the environment describes, with the program's defaults. */
  function ConfigFromEnv(env: Env): (c: SpotifyConfig)
    ensures "SPOTIPY_CLIENT_ID" !in env ==> c.clientId == ""
    ensures "SPOTIPY_CLIENT_SECRET" !in env ==> c.clientSecret == ""
    ensures "SPOTIPY_REDIRECT_URI" !in env ==> c.redirectUri == DefaultRedirectUri
    ensures "SPOTIFY_CACHE_PATH" !in env ==> c.cachePath == DefaultCachePath
  {
    SpotifyConfig(
      GetEnv(env, "SPOTIPY_CLIENT_ID", ""),
      GetEnv(env, "SPOTIPY_CLIENT_SECRET", ""),
      GetEnv(env, "SPOTIPY_REDIRECT_URI", DefaultRedirectUri),
      GetEnv(env, "SPOTIFY_CACHE_PATH", DefaultCachePath))
  }

  /** `get_spotify_config`: the cached record when there is one, otherwise
      the one read from the environment, which is then cached. */
  function GetSpotifyConfig(m: Manager, env: Env): (r: (SpotifyConfig, Manager))
    ensures r.1.cached == Some(r.0)
    ensures m.cached.Some? ==> r.0 == m.cached.value && r.1 == m
    ensures m.cached.None? ==> r.0 == ConfigFromEnv(env)
  {
    match m.cached
    case Some(c) => (c, m)
    case None =>
      var c := ConfigFromEnv(env);
      (c, Manager(Some(c)))
  }

  /** `clear_cache`. */
  function ClearCache(m: Manager): (r: Manager)
    ensures r.cached.None?
  {
    Manager(None)
  }

  /** Once read, the record no longer follows the environment. */
  lemma CacheIgnoresLaterEnvironment(m: Manager, env1: Env, env2: Env)
    ensures var (c1, m1) := GetSpotifyConfig(m, env1);
      GetSpotifyConfig(m1, env2) == (c1, m1)
  {
  }

  /** After `clear_cache` the next read sees the current environment. */
  lemma ClearedCacheRereads(m: Manager, env: Env)
    ensures GetSpotifyConfig(ClearCache(m), env).0 == ConfigFromEnv(env)
  {
  }

  // ------------------------------------------------------------- validation

  const ClientIdPlaceholder := "your_client_id_here"
  const ClientSecretPlaceholder := "your_client_secret_here"

  const ClientIdNotSet := "SPOTIPY_CLIENT_ID is not set"
  const ClientIdPlaceholderError := "SPOTIPY_CLIENT_ID still contains placeholder value"
  const ClientSecretNotSet := "SPOTIPY_CLIENT_SECRET is not set"
  const ClientSecretPlaceholderError := "SPOTIPY_CLIENT_SECRET still contains placeholder value"
  const RedirectUriNotSet := "SPOTIPY_REDIRECT_URI is not set"

  function IdErrors(c: SpotifyConfig): seq<string> {
    if c.clientId == "" then [ClientIdNotSet]
    else if c.clientId == ClientIdPlaceholder then [ClientIdPlaceholderError]
    else []
  }

  function SecretErrors(c: SpotifyConfig): seq<string> {
    if c.clientSecret == "" then [ClientSecretNotSet]
    else if c.clientSecret == ClientSecretPlaceholder then [ClientSecretPlaceholderError]
    else []
  }

  function UriErrors(c: SpotifyConfig): seq<string> {
    if c.redirectUri == "" then [RedirectUriNotSet] else []
  }

  /** The checks of `validate_spotify_config` on a record: each error is
      reported exactly when its condition holds, at most one per field, in
      field order. */
  function ValidateConfig(c: SpotifyConfig): (r: (bool, seq<string>))
    ensures r.0 <==> |r.1| == 0
    ensures |r.1| <= 3
    ensures ClientIdNotSet in r.1 <==> c.clientId == ""
    ensures ClientIdPlaceholderError in r.1 <==> c.clientId == ClientIdPlaceholder
    ensures ClientSecretNotSet in r.1 <==> c.clientSecret == ""
    ensures ClientSecretPlaceholderError in r.1 <==> c.clientSecret == ClientSecretPlaceholder
    ensures RedirectUriNotSet in r.1 <==> c.redirectUri == ""
    ensures forall k :: 0 <= k < |r.1| ==>
      r.1[k] in {ClientIdNotSet, ClientIdPlaceholderError, ClientSecretNotSet,
                 ClientSecretPlaceholderError, RedirectUriNotSet}
    ensures forall i, j :: 0 <= i < j < |r.1| ==> FieldOf(r.1[i]) < FieldOf(r.1[j])
  {
    var errors := IdErrors(c) + SecretErrors(c) + UriErrors(c);
    ErrorsInFieldOrder(c);
    (|errors| == 0, errors)
  }

  /** The field an error message is about: 0 for the client id, 1 for the
      client secret, 2 for the redirect URI. */
  function FieldOf(message: string): nat {
    if message == ClientIdNotSet || message == ClientIdPlaceholderError then 0
    else if message == ClientSecretNotSet || message == ClientSecretPlaceholderError then 1
    else 2
  }

  lemma ErrorsInFieldOrder(c: SpotifyConfig)
    ensures var errors := IdErrors(c) + SecretErrors(c) + UriErrors(c);
      forall i, j :: 0 <= i < j < |errors| ==> FieldOf(errors[i]) < FieldOf(errors[j])
  {
    var a, b, u := IdErrors(c), SecretErrors(c), UriErrors(c);
    assert forall k :: 0 <= k < |a| ==> FieldOf(a[k]) == 0;
    assert forall k :: 0 <= k < |b| ==> FieldOf(b[k]) == 1;
    assert forall k :: 0 <= k < |u| ==> FieldOf(u[k]) == 2;
    var errors := a + b + u;
    forall i, j | 0 <= i < j < |errors|
      ensures FieldOf(errors[i]) < FieldOf(errors[j])
    {
      assert |a| <= 1 && |b| <= 1 && |u| <= 1;
      if i < |a| {
        assert errors[i] == a[i];
      } else if i < |a| + |b| {
        assert errors[i] == b[i - |a|];
      }
      if j < |a| + |b| {
        if j >= |a| {
          assert errors[j] == b[j - |a|];
        }
      } else {
        assert errors[j] == u[j - |a| - |b|];
      }
    }
  }

  /** `validate_spotify_config`: reads the record through the cache, so a
      validation also fills the cache. */
  function ValidateSpotifyConfig(m: Manager, env: Env): (r: ((bool, seq<string>), Manager))
    ensures r.1 == GetSpotifyConfig(m, env).1
    ensures r.0 == ValidateConfig(GetSpotifyConfig(m, env).0)
  {
    var (c, m1) := GetSpotifyConfig(m, env);
    (ValidateConfig(c), m1)
  }

  /** A record that passes validation is valid; the converse fails for the
      placeholder values, which `is_valid` accepts. */
  lemma ValidatedIsValid(c: SpotifyConfig)
    ensures ValidateConfig(c).0 ==> IsValid(c)
    ensures IsValid(c) && c.clientId != ClientIdPlaceholder && c.clientSecret != ClientSecretPlaceholder ==>
      ValidateConfig(c).0
  {
  }

  lemma PlaceholderIsValidButRejected()
    ensures var c := SpotifyConfig(ClientIdPlaceholder, ClientSecretPlaceholder, DefaultRedirectUri, DefaultCachePath);
      IsValid(c) && ValidateConfig(c) == (false, [ClientIdPlaceholderError, ClientSecretPlaceholderError])
  {
    var c := SpotifyConfig(ClientIdPlaceholder, ClientSecretPlaceholder, DefaultRedirectUri, DefaultCachePath);
    PlaceholderErrors(c);
  }

  /** The errors of a record holding both placeholders and a redirect URI. */
  lemma PlaceholderErrors(c: SpotifyConfig)
    requires c.clientId == ClientIdPlaceholder && c.clientSecret == ClientSecretPlaceholder && c.redirectUri != ""
    ensures ValidateConfig(c) == (false, [ClientIdPlaceholderError, ClientSecretPlaceholderError])
  {
    assert IdErrors(c) + SecretErrors(c) + UriErrors(c) == [ClientIdPlaceholderError, ClientSecretPlaceholderError];
  }

  /** The errors of a record with neither credential and a redirect URI. */
  lemma UnsetErrors(c: SpotifyConfig)
    requires c.clientId == "" && c.clientSecret == "" && c.redirectUri != ""
    ensures ValidateConfig(c) == (false, [ClientIdNotSet, ClientSecretNotSet])
  {
    assert IdErrors(c) + SecretErrors(c) + UriErrors(c) == [ClientIdNotSet, ClientSecretNotSet];
  }

  /** With the credentials unset, a fresh manager reports both as not set. */
  lemma UnsetCredentialsReported(env: Env)
    requires "SPOTIPY_CLIENT_ID" !in env && "SPOTIPY_CLIENT_SECRET" !in env
    requires "SPOTIPY_REDIRECT_URI" !in env
    ensures ValidateSpotifyConfig(NewManager, env).0 == (false, [ClientIdNotSet, ClientSecretNotSet])
  {
    UnsetErrors(ConfigFromEnv(env));
  }

  /** A validation run once with the credentials unset keeps reporting them
      unset after the environment gains the placeholder values: the cached
      record is validated, and no placeholder error appears. */
  lemma StaleCacheHidesPlaceholders(env1: Env, env2: Env)
    requires "SPOTIPY_CLIENT_ID" !in env1 && "SPOTIPY_CLIENT_SECRET" !in env1
    requires "SPOTIPY_REDIRECT_URI" !in env1
    requires env2 == env1["SPOTIPY_CLIENT_ID" := ClientIdPlaceholder]["SPOTIPY_CLIENT_SECRET" := ClientSecretPlaceholder]
    ensures var (_, m1) := ValidateSpotifyConfig(NewManager, env1);
      ValidateSpotifyConfig(m1, env2).0 == (false, [ClientIdNotSet, ClientSecretNotSet])
    ensures ValidateSpotifyConfig(NewManager, env2).0 ==
      (false, [ClientIdPlaceholderError, ClientSecretPlaceholderError])
  {
    UnsetErrors(ConfigFromEnv(env1));
    var c2 := ConfigFromEnv(env2);
    assert c2.clientId == ClientIdPlaceholder && c2.clientSecret == ClientSecretPlaceholder;
    assert c2.redirectUri == DefaultRedirectUri;
    PlaceholderErrors(c2);
  }

  // ----------------------------------------------------------- recent files

  /** The list update of `add_recent_file`: drop the path's first
      occurrence, put it in front, keep the first `limit` entries (a
      negative `limit` counts from the end, as Python's slice does). */
  function AddRecentFile(recent: seq<string>, path: string, limit: int): (r: seq<string>)
    ensures limit >= 1 ==> |r| > 0 && r[0] == path
    ensures limit >= 0 ==> |r| <= limit
    ensures |r| <= |recent| + 1
    ensures limit >= 0 ==>
      |r| == if limit < |WithoutPath(recent, path)| + 1 then limit else |WithoutPath(recent, path)| + 1
    ensures limit < 0 ==>
      |r| == if -limit < |WithoutPath(recent, path)| + 1 then |WithoutPath(recent, path)| + 1 + limit else 0
    ensures |r| > 0 ==> r[0] == path && r[1..] == WithoutPath(recent, path)[..|r| - 1]
    ensures |r| > 0 ==> IsSubseq(r[1..], recent)
    ensures Count(recent, path) <= 1 ==> Count(r, path) <= 1
    ensures limit >= 1 && Count(recent, path) <= 1 ==> Count(r, path) == 1
  {
    var removed := WithoutPath(recent, path);
    var r := SliceTo([path] + removed, limit);
    assert |r| > 0 ==> r[1..] == removed[..|r| - 1];
    RecentFacts(recent, path, removed, r);
    r
  }

  /** `if path in recent: recent.remove(path)`: the list without the
      path's first occurrence. */
  function WithoutPath(recent: seq<string>, path: string): (r: seq<string>)
    ensures path in recent ==> |r| == |recent| - 1 && Count(r, path) == Count(recent, path) - 1
    ensures path !in recent ==> r == recent
  {
    if path in recent then
      RemoveFirstCount(recent, path);
      RemoveFirst(recent, path)
    else recent
  }

  lemma RecentFacts(recent: seq<string>, path: string, removed: seq<string>, r: seq<string>)
    requires removed == if path in recent then RemoveFirst(recent, path) else recent
    requires |r| <= |removed| + 1 && r == ([path] + removed)[..|r|]
    ensures |r| > 0 ==> IsSubseq(r[1..], recent)
    ensures Count(recent, path) <= 1 ==> Count(r, path) <= 1
    ensures Count(recent, path) <= 1 && |r| > 0 ==> Count(r, path) == 1
  {
    if |r| > 0 {
      assert r[1..] == removed[..|r| - 1];
      RecentTailIsSubseq(recent, path, removed, |r| - 1);
      if Count(recent, path) <= 1 {
        RemovedLacksPath(recent, path, removed);
        assert r == [path] + removed[..|r| - 1];
        RecentCount(path, removed, |r| - 1);
      }
    }
  }

  /** What follows the new path is drawn, in order, from the old list. */
  lemma RecentTailIsSubseq(recent: seq<string>, path: string, removed: seq<string>, n: nat)
    requires removed == if path in recent then RemoveFirst(recent, path) else recent
    requires n <= |removed|
    ensures IsSubseq(removed[..n], recent)
  {
    if path in recent {
      RemoveFirstIsSubseq(recent, path);
    } else {
      SubseqSelf(recent);
    }
    PrefixIsSubseq(removed, n);
    SubseqTrans(removed[..n], removed, recent);
  }

  /** Removing the one occurrence of the path leaves none. */
  lemma RemovedLacksPath(recent: seq<string>, path: string, removed: seq<string>)
    requires removed == if path in recent then RemoveFirst(recent, path) else recent
    requires Count(recent, path) <= 1
    ensures Count(removed, path) == 0
  {
    CountAbsent(recent, path);
    if path in recent {
      RemoveFirstCount(recent, path);
    }
  }

  /** The path put in front of a prefix of a list without it occurs once. */
  lemma RecentCount(path: string, removed: seq<string>, n: nat)
    requires Count(removed, path) == 0 && n <= |removed|
    ensures Count([path] + removed[..n], path) == 1
  {
    CountPrefix(removed, n, path);
    CountAppend([path], removed[..n], path);
  }

  /** Adding the same path twice in a row changes nothing the second time. */
  lemma AddRecentFileIdempotent(recent: seq<string>, path: string, limit: int)
    requires limit >= 0
    ensures AddRecentFile(AddRecentFile(recent, path, limit), path, limit) == AddRecentFile(recent, path, limit)
  {
    var r := AddRecentFile(recent, path, limit);
    if |r| > 0 {
      assert r[0] == path;
      assert RemoveFirst(r, path) == r[1..];
      assert [path] + r[1..] == r;
    }
  }
}
