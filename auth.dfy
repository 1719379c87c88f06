/**
  The bearer-key gate of the server (`get_api_key`, `require_api_key`): a
  credentials string that must itself begin with "Bearer ", and a keys file
  whose `master_key` the key must equal.

  The credentials are what `HTTPBearer` hands over, or nothing. That parser
  has already taken the scheme word off the `Authorization` header (section
  2.1 of RFC 6750), so the string modelled here is the text after it: the
  code demands that the text after the scheme word itself begin with
  "Bearer ": a standard single-"Bearer" header gets the 401, and the simplest
  header that passes is `Bearer Bearer <key>`. The keys file is a parameter
  (`KeysFile`) instead of a file read.
*/
module Auth {
  import opened Json

  /** An HTTP error response: status code and `detail` text. */
  datatype HttpError = HttpError(status: int, detail: string)

  const BearerPrefix: string := "Bearer "

  const AuthorizationRequired: string := "Authorization header required"
  const BadFormat: string := "Invalid authorization format. Use 'Bearer <api-key>'"
  const KeysNotFound: string := "API keys configuration not found"
  const NoMasterKey: string := "Internal error. report to developer with timeframe"
  const InvalidKey: string := "Invalid API key"
  /** The body the web framework sends for an exception no handler caught. */
  const UncaughtError: string := "Internal Server Error"

  /** What `load_keys` finds: no file, a file `json.load` refuses, or a parsed value. */
  datatype KeysFile = Missing | Unparseable | Parsed(keys: JsonValue)

  predicate StartsWith(s: string, prefix: string) {
    |prefix| <= |s| && s[..|prefix|] == prefix
  }

  predicate OccursAt(s: string, pat: string, i: nat) {
    i + |pat| <= |s| && s[i..i + |pat|] == pat
  }

  predicate Occurs(s: string, pat: string) {
    exists i: nat | i <= |s| :: OccursAt(s, pat, i)
  }

  /** Python's `s.replace(pat, "")`: every non-overlapping occurrence of `pat`,
      scanning left to right, is removed. */
  function RemoveAll(s: string, pat: string): (r: string)
    requires pat != []
    ensures |r| <= |s|
    ensures StartsWith(s, pat) ==> |r| <= |s| - |pat|
    decreases |s|
  {
    if |s| < |pat| then s
    else if s[..|pat|] == pat then RemoveAll(s[|pat|..], pat)
    else [s[0]] + RemoveAll(s[1..], pat)
  }

  /** With no occurrence of the pattern, `replace` returns the string unchanged. */
  lemma {:induction false} RemoveAllAbsent(s: string, pat: string)
    requires pat != [] && !Occurs(s, pat)
    ensures RemoveAll(s, pat) == s
    decreases |s|
  {
    if |s| >= |pat| {
      assert !OccursAt(s, pat, 0);
      assert s[..|pat|] != pat;
      forall i: nat | OccursAt(s[1..], pat, i) ensures OccursAt(s, pat, i + 1) {
        assert s[1..][i..i + |pat|] == s[i + 1..i + 1 + |pat|];
      }
      RemoveAllAbsent(s[1..], pat);
      assert [s[0]] + s[1..] == s;
    }
  }

  /** The scan of `replace` for every input: text before the first occurrence
      is kept, that occurrence is dropped, and the scan resumes right after it. */
  lemma {:induction false} RemoveAllFirstOccurrence(a: string, pat: string, b: string)
    requires pat != []
    requires forall i :: 0 <= i < |a| ==> !OccursAt(a + pat + b, pat, i)
    ensures RemoveAll(a + pat + b, pat) == a + RemoveAll(b, pat)
    decreases |a|
  {
    var s := a + pat + b;
    if a == [] {
      assert s == pat + b;
      assert s[..|pat|] == pat && s[|pat|..] == b;
    } else {
      assert !OccursAt(s, pat, 0);
      assert s[..|pat|] != pat;
      assert s[1..] == a[1..] + pat + b;
      forall i | 0 <= i < |a[1..]| ensures !OccursAt(a[1..] + pat + b, pat, i) {
        assert !OccursAt(s, pat, i + 1);
        if i + |pat| <= |s[1..]| {
          assert s[1..][i..i + |pat|] == s[i + 1..i + 1 + |pat|];
        }
      }
      RemoveAllFirstOccurrence(a[1..], pat, b);
      assert [a[0]] + (a[1..] + RemoveAll(b, pat)) == a + RemoveAll(b, pat);
    }
  }

  /** `get_api_key`: the credentials must be present and start with "Bearer ";
      the key is what remains after `replace("Bearer ", "")`. */
  function GetApiKey(credentials: Option<string>): (r: Result<string, HttpError>)
    ensures r.Err? <==> credentials.None? || !StartsWith(credentials.value, BearerPrefix)
    ensures r.Err? ==> r.error.status == 401
    ensures r.Ok? ==> |r.value| <= |credentials.value| - |BearerPrefix|
    ensures r.Ok? ==> r.value == RemoveAll(credentials.value, BearerPrefix)
  {
    match credentials
    case None => Err(HttpError(401, AuthorizationRequired))
    case Some(token) =>
      if !StartsWith(token, BearerPrefix) then Err(HttpError(401, BadFormat))
      else Ok(RemoveAll(token, BearerPrefix))
  }

  /** The plain case: "Bearer " followed by a key that does not itself contain
      "Bearer " yields exactly that key. */
  lemma BearerTokenYieldsKey(key: string)
    requires !Occurs(key, BearerPrefix)
    ensures GetApiKey(Some(BearerPrefix + key)) == Ok(key)
  {
    var token := BearerPrefix + key;
    assert token[..|BearerPrefix|] == BearerPrefix;
    assert token[|BearerPrefix|..] == key;
    RemoveAllAbsent(key, BearerPrefix);
  }

  /** `replace` strips every occurrence, not only the prefix: an inner
      "Bearer " vanishes from the key. */
  lemma ReplaceStripsInnerOccurrence()
    ensures GetApiKey(Some("Bearer abcBearer def")) == Ok("abcdef")
  {
    assert RemoveAll("def", BearerPrefix) == "def";
    assert "Bearer def"[..7] == BearerPrefix && "Bearer def"[7..] == "def";
    assert RemoveAll("Bearer def", BearerPrefix) == "def";
    assert "cBearer def"[..7][1] != BearerPrefix[1] && "cBearer def"[1..] == "Bearer def";
    assert RemoveAll("cBearer def", BearerPrefix) == "cdef";
    assert "bcBearer def"[..7][1] != BearerPrefix[1] && "bcBearer def"[1..] == "cBearer def";
    assert RemoveAll("bcBearer def", BearerPrefix) == "bcdef";
    assert "abcBearer def"[..7][1] != BearerPrefix[1] && "abcBearer def"[1..] == "bcBearer def";
    assert RemoveAll("abcBearer def", BearerPrefix) == "abcdef";
    assert "Bearer abcBearer def"[..7] == BearerPrefix && "Bearer abcBearer def"[7..] == "abcBearer def";
  }

  /** Removing one "Bearer " can splice a new one together, so the key may
      still contain the scheme word. */
  lemma ReplaceCanSpliceScheme()
    ensures GetApiKey(Some("Bearer BeBearer arer x")) == Ok("Bearer x")
  {
    assert RemoveAll("arer x", BearerPrefix) == "arer x";
    assert "Bearer arer x"[..7] == BearerPrefix && "Bearer arer x"[7..] == "arer x";
    assert RemoveAll("Bearer arer x", BearerPrefix) == "arer x";
    assert "eBearer arer x"[..7][1] != BearerPrefix[1] && "eBearer arer x"[1..] == "Bearer arer x";
    assert RemoveAll("eBearer arer x", BearerPrefix) == "earer x";
    assert "BeBearer arer x"[..7][2] != BearerPrefix[2] && "BeBearer arer x"[1..] == "eBearer arer x";
    assert RemoveAll("BeBearer arer x", BearerPrefix) == "Bearer x";
    assert "Bearer BeBearer arer x"[..7] == BearerPrefix && "Bearer BeBearer arer x"[7..] == "BeBearer arer x";
  }

  /** `load_keys`: a missing file is reported as a configuration error; a file
      that does not parse escapes as an uncaught exception. */
  function LoadKeys(file: KeysFile): (r: Result<JsonValue, HttpError>)
    ensures r.Err? ==> r.error.status == 500
    ensures r.Ok? <==> file.Parsed?
  {
    match file
    case Missing => Err(HttpError(500, KeysNotFound))
    case Unparseable => Err(HttpError(500, UncaughtError))
    case Parsed(keys) => Ok(keys)
  }

  /** The configured master key, when the keys file holds a usable one:
      present and truthy under `keys.get("master_key")`. */
  predicate HasMasterKey(file: KeysFile) {
    file.Parsed? && file.keys.JObject? && PyTruthy(Get(file.keys.fields, "master_key", JNull))
  }

  /** `require_api_key`: the token format is checked first, then the keys are
      loaded, then the key is compared with `master_key`. */
  function RequireApiKey(credentials: Option<string>, file: KeysFile): (r: Result<string, HttpError>)
    // a malformed or absent token is 401 whatever the configuration
    ensures GetApiKey(credentials).Err? ==> r.Err? && r.error.status == 401
    // a configuration without a usable master key is 500 once the token is well formed
    ensures GetApiKey(credentials).Ok? && !HasMasterKey(file) ==> r.Err? && r.error.status == 500
    // success means the key sent is exactly the configured master key
    ensures r.Ok? <==>
      && GetApiKey(credentials).Ok?
      && HasMasterKey(file)
      && file.keys.fields["master_key"] == JStr(GetApiKey(credentials).value)
    // a well-formed key that differs from a usable master key is the client's 401
    ensures GetApiKey(credentials).Ok? && HasMasterKey(file)
      && file.keys.fields["master_key"] != JStr(GetApiKey(credentials).value)
      ==> r == Err(HttpError(401, InvalidKey))
    ensures r.Ok? ==> r.value != [] && file.keys.fields["master_key"] == JStr(r.value)
    ensures r.Err? ==> r.error.status == 401 || r.error.status == 500
  {
    match GetApiKey(credentials)
    case Err(e) => Err(e)
    case Ok(apiKey) =>
      match LoadKeys(file)
      case Err(e) => Err(e)
      case Ok(keys) =>
        if !keys.JObject? then Err(HttpError(500, UncaughtError))  // `keys.get` on a non-dict raises
        else
          var masterKey := Get(keys.fields, "master_key", JNull);
          if !PyTruthy(masterKey) then Err(HttpError(500, NoMasterKey))
          else if masterKey != JStr(apiKey) then Err(HttpError(401, InvalidKey))
          else Ok(apiKey)
  }

  /** The 500 responses never carry the key or the reason it is unusable in
      more than the fixed texts above. */
  lemma ConfigurationErrorsAreGeneric(credentials: Option<string>, file: KeysFile)
    requires RequireApiKey(credentials, file).Err? && RequireApiKey(credentials, file).error.status == 500
    ensures RequireApiKey(credentials, file).error.detail in {KeysNotFound, NoMasterKey, UncaughtError}
  {
  }
}
