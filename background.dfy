/**
  The extension's background script: a cache of video IDs known to be blocked,
  with one timestamp shared by all of them, consulted before asking the server,
  and emptied by a periodic timer.

  `Date.now()` and `fetch` are inputs: `now` is the clock read by the freshness
  test, `later` the one read when an ID is cached, and `FetchOutcome` what the
  request to the server gave.
*/
module Background {
  import opened Json

  /** `CACHE_DURATION`: five minutes, in milliseconds. */
  const CacheDuration: int := 5 * 60 * 1000

  /** What `fetch` and `response.json()` give: a rejected request, or a
      response with its `ok` flag and the decoded body (`None` when decoding
      rejects). */
  datatype FetchOutcome = NetworkError | Fetched(ok: bool, json: Option<JsonValue>)

  /** `data.blocked` is truthy. On `null` the property read throws, and the
      `catch` makes that a plain "not blocked", so null needs no case of its own. */
  predicate ReportsBlocked(data: JsonValue) {
    data.JObject? && "blocked" in data.fields && JsTruthy(data.fields["blocked"])
  }

  /** The request reached the server, the response was OK and it says blocked. */
  predicate ServerSaysBlocked(fetched: FetchOutcome) {
    fetched.Fetched? && fetched.ok && fetched.json.Some? && ReportsBlocked(fetched.json.value)
  }

  /** The cache as a value: the blocked IDs and `cacheTimestamp`. */
  datatype CacheState = CacheState(blockedIds: set<string>, timestamp: int)

  /** The cache answers alone: it is fresh and holds the ID. */
  predicate CacheHit(c: CacheState, videoId: string, now: int) {
    now - c.timestamp < CacheDuration && videoId in c.blockedIds
  }

  /** `checkVideoBlocked` as a function of the cache: the answer and the cache afterwards. */
  function Check(c: CacheState, videoId: string, now: int, fetched: FetchOutcome, later: int): (r: (bool, CacheState))
    ensures r.0 <==> CacheHit(c, videoId, now) || ServerSaysBlocked(fetched)
    ensures c.blockedIds <= r.1.blockedIds <= c.blockedIds + {videoId}
  {
    if CacheHit(c, videoId, now) then (true, c)
    else if ServerSaysBlocked(fetched) then (true, CacheState(c.blockedIds + {videoId}, later))
    else (false, c)
  }

  /** A hit answers true without the server: the outcome of `fetch` does not matter. */
  lemma HitSkipsFetch(c: CacheState, videoId: string, now: int, f1: FetchOutcome, f2: FetchOutcome, later: int)
    requires CacheHit(c, videoId, now)
    ensures Check(c, videoId, now, f1, later) == Check(c, videoId, now, f2, later) == (true, c)
  {
  }

  /** A miss answered OK with a truthy `blocked` adds exactly that ID and moves
      the timestamp to `later`; every other answer is false or a hit, and
      leaves the cache alone. */
  lemma CheckChangesCacheOnlyOnBlockedReply(c: CacheState, videoId: string, now: int, fetched: FetchOutcome, later: int)
    ensures var (answer, after) := Check(c, videoId, now, fetched, later);
      && (!CacheHit(c, videoId, now) && ServerSaysBlocked(fetched) ==>
            answer && after == CacheState(c.blockedIds + {videoId}, later))
      && (CacheHit(c, videoId, now) || !ServerSaysBlocked(fetched) ==> after == c)
      && (answer <==> CacheHit(c, videoId, now) || ServerSaysBlocked(fetched))
  {
  }

  /** Caching an ID renews the shared window: until `CacheDuration` after
      `later`, the new ID and every ID cached before it answer from the cache. */
  lemma CachedIdsHitUntilExpiry(c: CacheState, videoId: string, now: int, fetched: FetchOutcome,
                                later: int, now': int)
    requires !CacheHit(c, videoId, now) && ServerSaysBlocked(fetched)
    requires now' - later < CacheDuration
    ensures var after := Check(c, videoId, now, fetched, later).1;
      forall id :: id in after.blockedIds ==> CacheHit(after, id, now')
    ensures CacheHit(Check(c, videoId, now, fetched, later).1, videoId, now')
  {
  }

  /** A "not found" reply (404 `{"blocked": false}`), an OK reply saying not
      blocked, and a failed request all answer false unless the cache hits. */
  lemma UnblockedRepliesAnswerFalse(c: CacheState, videoId: string, now: int, later: int)
    ensures Check(c, videoId, now, Fetched(false, Some(JObject(map["blocked" := JBool(false)]))), later)
            == (CacheHit(c, videoId, now), c)
    ensures Check(c, videoId, now, Fetched(true, Some(JObject(map["blocked" := JBool(false)]))), later)
            == (CacheHit(c, videoId, now), c)
    ensures Check(c, videoId, now, NetworkError, later) == (CacheHit(c, videoId, now), c)
  {
  }

  /** What happens to the cache: a check, or the interval callback. */
  datatype Event = Lookup(videoId: string, now: int, fetched: FetchOutcome, later: int) | Tick

  function Apply(c: CacheState, e: Event): CacheState {
    match e
    case Lookup(videoId, now, fetched, later) => Check(c, videoId, now, fetched, later).1
    case Tick => CacheState({}, 0)
  }

  /** The cache after a run of events, oldest first. */
  function Run(c: CacheState, events: seq<Event>): CacheState
    decreases |events|
  {
    if events == [] then c else Run(Apply(c, events[0]), events[1..])
  }

  /** The IDs some lookup in `events` heard the server call blocked. */
  function Reported(events: seq<Event>): set<string>
    decreases |events|
  {
    if events == [] then {}
    else
      var e := events[0];
      (if e.Lookup? && ServerSaysBlocked(e.fetched) then {e.videoId} else {}) + Reported(events[1..])
  }

  /** Only IDs that were already cached, or that the server called blocked
      during the run, are ever cached. */
  lemma {:induction false} RunCachesOnlyReported(c: CacheState, events: seq<Event>)
    ensures Run(c, events).blockedIds <= c.blockedIds + Reported(events)
    decreases |events|
  {
    if events != [] {
      var next := Apply(c, events[0]);
      RunCachesOnlyReported(next, events[1..]);
    }
  }

  /** Between two resets the set of cached IDs only grows. */
  lemma {:induction false} RunWithoutTickGrows(c: CacheState, events: seq<Event>)
    requires forall i :: 0 <= i < |events| ==> events[i].Lookup?
    ensures c.blockedIds <= Run(c, events).blockedIds
    decreases |events|
  {
    if events != [] {
      var next := Apply(c, events[0]);
      RunWithoutTickGrows(next, events[1..]);
    }
  }

  /** After a reset, only IDs the server called blocked since then are cached. */
  lemma TickForgetsEverything(c: CacheState, events: seq<Event>)
    ensures Run(c, [Tick] + events).blockedIds <= Reported(events)
  {
    assert ([Tick] + events)[1..] == events;
    RunCachesOnlyReported(CacheState({}, 0), events);
  }

  /** How a message-listener promise settles, and the reply it sends. */
  datatype Settled = Resolved(isBlocked: bool) | Rejected

  /** `.then(isBlocked => ...)` and `.catch(() => ({isBlocked: false}))`. */
  function MessageReply(s: Settled): (r: bool)
    ensures r ==> s.Resolved?
    ensures s.Resolved? ==> r == s.isBlocked
  {
    match s
    case Resolved(isBlocked) => isBlocked
    case Rejected => false
  }

  /** The module-level `blockedVideosCache` and `cacheTimestamp`. */
  class BlockCache {
    var blockedVideosCache: set<string>
    var cacheTimestamp: int

    function State(): CacheState
      reads this
    {
      CacheState(blockedVideosCache, cacheTimestamp)
    }

    constructor ()
      ensures State() == CacheState({}, 0)
    {
      blockedVideosCache := {};
      cacheTimestamp := 0;
    }

    /** `checkVideoBlocked(videoId)`. */
    method CheckVideoBlocked(videoId: string, now: int, fetched: FetchOutcome, later: int) returns (isBlocked: bool)
      modifies this
      ensures (isBlocked, State()) == Check(old(State()), videoId, now, fetched, later)
      ensures old(blockedVideosCache) <= blockedVideosCache
    {
      if now - cacheTimestamp < CacheDuration {
        if videoId in blockedVideosCache {
          return true;
        }
      }
      match fetched
      case NetworkError =>
        return false;
      case Fetched(ok, json) =>
        if ok {
          match json
          case None =>
            return false;
          case Some(data) =>
            if ReportsBlocked(data) {
              blockedVideosCache := blockedVideosCache + {videoId};
              cacheTimestamp := later;
              return true;
            }
        }
        return false;
    }

    /** The `setInterval` callback. */
    method ClearCache()
      modifies this
      ensures State() == CacheState({}, 0)
    {
      blockedVideosCache := {};
      cacheTimestamp := 0;
    }

    /** The `chrome.runtime.onMessage` listener: answers "checkVideo" messages
        with `{isBlocked}` and ignores every other action. */
    method OnMessage(action: string, videoId: string, now: int, fetched: FetchOutcome, later: int)
      returns (reply: Option<bool>)
      modifies this
      ensures action == "checkVideo" ==>
        var (answer, after) := Check(old(State()), videoId, now, fetched, later);
        reply == Some(answer) && State() == after
      ensures action != "checkVideo" ==> reply == None && State() == old(State())
    {
      if action == "checkVideo" {
        var isBlocked := CheckVideoBlocked(videoId, now, fetched, later);
        reply := Some(MessageReply(Resolved(isBlocked)));
      } else {
        reply := None;
      }
    }
  }
}
