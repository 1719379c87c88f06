/**
  The extension and the server together: the background script's lookup of
  one video, answered by the server's fetch endpoint over the store.
*/
module EndToEnd {
  import opened Json
  import opened VideoId
  import opened VideoStore
  import Api
  import opened Background

  /** The JSON the fetch endpoint sends for each of its three kinds of body. */
  function BodyJson(body: Api.Body): JsonValue
    requires body.Anonymous? || body.BlockedFalse? || body.Detail?
  {
    match body
    case Anonymous(videoId, blocked) => JObject(map["videoId" := JStr(videoId), "blocked" := blocked])
    case BlockedFalse => JObject(map["blocked" := JBool(false)])
    case Detail(detail) => JObject(map["detail" := JStr(detail)])
  }

  /** A fetch-endpoint response as `fetch` hands it to the extension: `ok`
      for a 2xx status, and the decoded body. */
  function AsFetched(resp: Api.Response): FetchOutcome
    requires resp.body.Anonymous? || resp.body.BlockedFalse? || resp.body.Detail?
  {
    Fetched(200 <= resp.status < 300, Some(BodyJson(resp.body)))
  }

  /** The extension asks about `videoId`: from the cache when it hits, else
      from the server's GET /api/videos/{id}. It answers blocked exactly on a
      hit or when the store holds the ID with a `blocked` that JavaScript finds
      truthy, and only then can the ID enter the cache. */
  method AskServer(db: Database, cache: BlockCache, videoId: string, now: int, later: int) returns (isBlocked: bool)
    modifies cache
    ensures var hit := CacheHit(old(cache.State()), videoId, now);
      var stored := FindOne(db.docs, videoId);
      && (isBlocked <==> hit || (IsValidYoutubeId(videoId) && stored.Some? && JsTruthy(stored.value.blocked)))
      && cache.blockedVideosCache == old(cache.blockedVideosCache) + (if isBlocked && !hit then {videoId} else {})
      && (!isBlocked || hit ==> cache.State() == old(cache.State()))
      && (isBlocked && !hit ==> cache.cacheTimestamp == later)
  {
    var fetched := NetworkError;
    if !CacheHit(cache.State(), videoId, now) {
      var resp := Api.GetVideo(db, videoId);
      fetched := AsFetched(resp);
    }
    isBlocked := cache.CheckVideoBlocked(videoId, now, fetched, later);
  }

  /** No type check guards `blocked`, and the two sides read it differently: a
      record stored with `"blocked": "false"` or `[]` is reported blocked to
      the extension, yet neither is counted by `get_stats`. */
  lemma NonBooleanBlockedDisagrees(videoId: string)
    ensures ReportsBlocked(BodyJson(Api.Anonymous(videoId, JStr("false")))) && !MatchesTrue(JStr("false"))
    ensures ReportsBlocked(BodyJson(Api.Anonymous(videoId, JArray([])))) && !MatchesTrue(JArray([]))
  {
    var body := BodyJson(Api.Anonymous(videoId, JStr("false")));
    assert "blocked" in body.fields && body.fields["blocked"] == JStr("false");
    var body' := BodyJson(Api.Anonymous(videoId, JArray([])));
    assert "blocked" in body'.fields && body'.fields["blocked"] == JArray([]);
  }
}
