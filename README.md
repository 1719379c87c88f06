# YouTube block service: verified model

This project models the request pipeline of a small service that answers "is
this YouTube video blocked?", together with the block cache kept by its
browser extension. It has four parts.

- **Video-ID check** (`VideoId`). This is `re.match(r'^[a-zA-Z0-9_-]{11}$', id)`,
  written as the regular-expression engine runs it. Python's `$` also matches
  before one final newline, so the check accepts eleven ID characters followed
  by an optional `"\n"`.
- **Video store** (`VideoStore`). The `Database` class holds the collection as
  a sequence of documents in insertion order. `find_one` and `update_one` act on
  the first match. The `_id` index always holds. `create_indexes` adds the
  unique `videoId` index, and `Valid()` keeps it from then on.
  `update_video_status` writes the literal string `"datetime.utcnow()"` into
  `updatedAt`. It returns MongoDB's `modified_count`, which is 0 when the
  `$set` changes nothing.
- **Bearer-key gate** (`Auth`). The string checked is the credentials part
  that `HTTPBearer` hands over, which is the `Authorization` header with its
  scheme word (in any letter case) already removed. The code still demands
  that this string start with `"Bearer "`, so a standard
  `Authorization: Bearer <key>` header is refused with 401, and the simplest
  header that passes is `Bearer Bearer <key>`. The
  key is taken out with `str.replace`, which removes every occurrence, not
  only the prefix. The keys file becomes a parameter. A usable, non-empty
  `master_key` must equal the key.
- **Request handlers** (`Api`). Create, fetch, stats and update are methods
  over a `Database`. The `try` bodies of create and update are specified by
  the functions `CreateStep` and `UpdateStep`. Their `except Exception` clause
  (`Surface`) turns every exception into a 500, including the handlers' own
  400, 404 and 409.
- **Extension cache** (`Background`). `BlockCache` holds a set of blocked IDs
  and one shared timestamp. `checkVideoBlocked`, the interval reset and the
  message listener are its methods. `Date.now()` and `fetch` are inputs.
  `EndToEnd` connects the cache to the server's fetch endpoint.

Three behaviours of the code that a reader might not expect are modelled as
written:
- A second create of the same ID does not return the stored record. It raises
  409, and the client receives that as a 500.
- The ID check also accepts an ID followed by one `"\n"`, because of the `$`
  behaviour above.
- The update endpoint does not call the bearer-key gate. `Auth` is modelled
  on its own.

## Model

| member | source | states |
|---|---|---|
| VideoId.RepeatClass | main.py:20 | `[a-zA-Z0-9_-]{n}` from position i succeeds iff the next n characters all lie in the class, and it ends at i + n |
| VideoId.DollarAt | main.py:20 | `$` succeeds at position i iff what remains of the string is empty or exactly one newline |
| VideoId.IsValidYoutubeId | main.py:18-20 | true iff the string is 11 class characters, optionally followed by exactly one "\n" |
| VideoId.TrailingNewlineAccepted | main.py:20 | a valid 11-character ID stays valid with one trailing newline, but not with two or with any other trailing character |
| VideoId.ValidIdExamples | main.py:18-20 | a real ID is accepted with or without a trailing newline; the empty string, a 10-character ID and an ID containing `!` are rejected |
| Json.PyTruthy | main.py:34-41 | Python's truth test is false exactly on None, False, zero and the empty string, list and dict |
| Json.JsTruthy | client/background.js:29 | JavaScript's truth test on decoded JSON is false exactly on null, false, 0 and the empty string; empty arrays and objects are truthy |
| Json.PyTruthyIsJsTruthy | client/background.js:29 | every value the server finds truthy the extension finds truthy too, but an empty array is truthy only to the extension |
| VideoStore.IndexOf | database.py:20-21 | gives the position of the first document with that videoId, with no earlier match; None iff no document matches |
| VideoStore.FindOne | database.py:20-21 | `find_one` gives a stored document carrying the queried ID, and gives None exactly when no document has that ID |
| VideoStore.FindOneUnderIndex | database.py:13-14 | under the unique index, `find_one` on a stored record's ID gives back that record |
| VideoStore.MatchesTrue | database.py:32 | the query `{"blocked": True}` matches a value equal to true, or an array holding true among its elements, and nothing else |
| VideoStore.CountBlocked | database.py:30-33 | the count of documents matching `{"blocked": True}` never exceeds the total count |
| VideoStore.Insert | database.py:16-18 | `insert_one` is refused iff the `_id` is already stored, or the `videoId` is stored while the unique index exists; otherwise the collection gains the document at its end and nothing else changes |
| VideoStore.SetStatus | database.py:24-27 | the `$set` replaces `blocked` and writes the literal `"datetime.utcnow()"` into `updatedAt`; `_id`, `videoId`, `addedAt` and `addedBy` stay |
| VideoStore.ApplyUpdate | database.py:23-28 | `modified_count` is at most 1; it is 0 and the store is unchanged for an unknown ID or a `$set` that changes nothing; it is 1 exactly when the matched record really changes |
| VideoStore.InsertKeepsIndexes | database.py:13-18 | an insert keeps `_id` unique and, once indexed, `videoId` unique; an insert of an ID already stored is refused under the index |
| VideoStore.UpdateTouchesOnlyMatch | database.py:23-28 | an update changes only the first matching record, only its `blocked` and `updatedAt`, and keeps every `videoId` and `_id` |
| VideoStore.UpdateKeepsIndexes | database.py:23-28 | an update keeps both unique indexes |
| VideoStore.UpdateThenRead | database.py:20-28 | after a modifying update the record read back has the new `blocked` and the literal `"datetime.utcnow()"`; repeating the same update reports 0 and changes nothing |
| VideoStore.CountBlockedAppend | database.py:30-33 | inserting a record adds one to the blocked count exactly when the new record matches `{"blocked": True}` |
| VideoStore.CountBlockedReplace | database.py:30-33 | replacing one record changes the blocked count by the difference between the new and old record's contribution |
| VideoStore.StatsAfterUpdate | database.py:23-33 | after an update the total is unchanged; the blocked count rises by one when a record becomes `true`, falls by one when it stops being `true`, and stays put for an unknown ID |
| VideoStore.Database.constructor | database.py:8-11 | connecting to a collection that already obeys its indexes gives a valid store holding exactly those documents |
| VideoStore.Database.CreateIndexes | database.py:13-14 | succeeds iff no two records share a videoId, then the index holds; the documents never change; a second call changes nothing |
| VideoStore.Database.AddVideo | database.py:16-18 | inserts and returns the `_id` unless an index refuses the document, in which case the store is unchanged; the indexes still hold |
| VideoStore.Database.GetVideo | database.py:20-21 | returns the first record with that ID; under the index, the only one |
| VideoStore.Database.VideoExists | database.py:35-36 | true exactly when `get_video` would return a record, that is, when some record has that ID |
| VideoStore.Database.UpdateVideoStatus | database.py:23-28 | the new collection and the returned count are those of `ApplyUpdate`; the indexes still hold |
| VideoStore.Database.GetStats | database.py:30-33 | returns the number of records and the number matching `{"blocked": True}`, and the second never exceeds the first |
| Auth.RemoveAll | auth.py:34 | `replace(pat, "")` never lengthens the string, and it removes at least one copy of a leading pattern |
| Auth.RemoveAllAbsent | auth.py:34 | with no occurrence of the pattern, `replace` returns the string unchanged |
| Auth.RemoveAllFirstOccurrence | auth.py:34 | for every string: the text before the first occurrence is kept, that occurrence is dropped, and the scan resumes right after it, as `str.replace` does |
| Auth.GetApiKey | auth.py:19-35 | fails with 401 iff the credentials are absent or do not start with "Bearer "; otherwise the key is the token with every "Bearer " removed by the left-to-right scan of `replace`, and is shorter than the token by at least the prefix |
| Auth.BearerTokenYieldsKey | auth.py:28-35 | "Bearer " followed by a key that does not contain "Bearer " yields exactly that key |
| Auth.ReplaceStripsInnerOccurrence | auth.py:34 | "Bearer abcBearer def" yields the key "abcdef": an inner "Bearer " is removed too |
| Auth.ReplaceCanSpliceScheme | auth.py:34 | "Bearer BeBearer arer x" yields "Bearer x": one removal can splice together a new "Bearer " |
| Auth.LoadKeys | auth.py:8-17 | a missing or unreadable keys file is a 500; only a parsed file gives keys |
| Auth.RequireApiKey | auth.py:37-57 | a bad token is 401 whatever the keys file holds; a good token without a usable master key is 500; a good token whose key differs from a usable `master_key` is the 401 "Invalid API key"; success iff the key equals the non-empty configured `master_key`; no other status |
| Auth.ConfigurationErrorsAreGeneric | auth.py:44-49 | every 500 from the gate carries one of three fixed texts |
| Api.Surface | main.py:68-72 | the `except Exception` clause: a result is 200, every exception is 500 with that exception as its detail |
| Api.CreateStep | main.py:30-66 | a successful create adds exactly the new record at the end; a failed one leaves the store unchanged; success needs a valid request and an ID not yet stored |
| Api.CreateRejectsBeforeStore | main.py:33-45 | a bad body, a missing or invalid videoId, or a missing addedBy fails the same way whatever the store holds, never as the 409, and changes nothing |
| Api.CreateRecordFromBody | main.py:47-63 | the record takes videoId and addedBy from the body; `blocked` is the body's value when the key is present, even null, and false only when absent; create succeeds iff the request is valid, the ID is new and the `_id` is fresh |
| Api.CreateTwiceConflicts | main.py:57-61 | repeating a successful create raises the 409 without inserting, and the client receives a 500 |
| Api.FailuresSurfaceAs500 | main.py:34-134 | for every input, the HTTPExceptions create raises itself are 400 or 409, those of update 400 or 404, and each reaches the client as a 500 |
| Api.UpdateStep | main.py:103-128 | a failed update leaves the store unchanged; a successful one needs a valid ID, a stored record and a non-null `blocked`, and returns the re-read record with that status and the literal `updatedAt`; and a well-formed update whose `$set` modifies the record does succeed |
| Api.UpdateOutcome | main.py:104-128 | for a valid ID and a non-null `blocked`: `modified_count` 1 gives the stored record with the new status and the updated store; 0 gives the 404 "Video not found" with the store unchanged |
| Api.UpdateRejectsBeforeStore | main.py:104-117 | an invalid ID, or a body whose `blocked` is missing or null, raises a 400 whatever the store holds, and the store is unchanged |
| Api.UpdateUnknownIsNotFound | main.py:118-123 | a well-formed update of an ID not in the store raises "Video not found" and changes nothing |
| Api.UpdateRepeatIsNotFound | main.py:118-123 | repeating a successful update raises "Video not found", because `modified_count` is 0 |
| Api.AddVideo | main.py:27-72 | the response and the new store are those of `CreateStep` passed through the `except` clause; the indexes still hold |
| Api.GetVideo | main.py:74-93 | invalid ID gives 400; an ID not in the store gives 404 with `{"blocked": false}`; a stored one gives 200 with only videoId and blocked, never the whole record |
| Api.GetStats | main.py:95-98 | 200 with the record count and the `{"blocked": True}` count, the latter not above the former |
| Api.UpdateVideoStatus | main.py:100-134 | the response and the new store are those of `UpdateStep` passed through the `except` clause; no authorization is checked; the indexes still hold |
| Background.Check | client/background.js:10-41 | `checkVideoBlocked` answers true iff the cache hits or the server replies OK with a truthy `blocked`; the cached set never loses an ID and gains at most the one asked about |
| Background.HitSkipsFetch | client/background.js:13-17 | a fresh cache holding the ID answers true, and the outcome of `fetch` makes no difference |
| Background.CheckChangesCacheOnlyOnBlockedReply | client/background.js:13-36 | a miss answered OK with a truthy `blocked` answers true, adds exactly that ID and moves the shared timestamp to the time of caching; a hit or any other reply leaves the cache unchanged; the answer is true iff the cache hits or the server says blocked |
| Background.CachedIdsHitUntilExpiry | client/background.js:13-31 | after an ID is cached, it and every ID cached before it answer from the cache until five minutes after the new timestamp |
| Background.UnblockedRepliesAnswerFalse | client/background.js:27-40 | the 404 `{"blocked": false}`, an OK not-blocked reply and a failed request answer false unless the cache hits, and leave the cache unchanged |
| Background.RunCachesOnlyReported | client/background.js:27-33 | over any run of lookups and resets, the only IDs cached are those cached at the start or reported blocked by the server during the run |
| Background.RunWithoutTickGrows | client/background.js:30 | between resets the set of cached IDs only grows |
| Background.TickForgetsEverything | client/background.js:57-60 | after a reset, only IDs that the server reported blocked since then are cached |
| Background.BlockCache.constructor | client/background.js:5-6 | the cache starts empty with timestamp 0 |
| Background.BlockCache.CheckVideoBlocked | client/background.js:10-41 | the answer and the new cache are those of `Check`, and the set never loses an ID |
| Background.BlockCache.ClearCache | client/background.js:57-60 | the interval callback empties the set and resets the timestamp to 0 |
| Background.MessageReply | client/background.js:46-51 | the listener replies with the resolved answer, and with false when the promise is rejected |
| Background.BlockCache.OnMessage | client/background.js:44-54 | a "checkVideo" message is answered with the check's result; any other action gets no reply and leaves the cache unchanged |
| EndToEnd.AskServer | client/background.js:13-32 | a lookup is blocked iff the cache hits, or the ID is valid and stored with a `blocked` that JavaScript finds truthy; only then is the ID added to the cache, and the shared timestamp moves to the time of caching |
| EndToEnd.NonBooleanBlockedDisagrees | client/background.js:29 | a stored `blocked` of `"false"` or `[]` reads as blocked to the extension, but `get_stats` does not count it |

## Left out

- The rate limiter: it does not appear in these source files.
- The web framework: the FastAPI app, CORS middleware, uvicorn startup, the `startup` hook that calls `create_indexes` (which is modelled) and the `/` health check.
- The `HTTPBearer` dependency: the modelled credentials are the string it hands over, which is the header value after the scheme word. Its own 403 for a missing header or a non-bearer scheme is not modelled, and because of it the absent-credentials case of `get_api_key` cannot arise in the running server; the model keeps that branch as written.
- Reading `keys.json`: this is the `KeysFile` parameter.
- The Motor client, the connection settings and environment loading. Store failures other than a unique-index refusal (lost connection, timeouts) are not modelled.
- Clocks and identifiers: `datetime.utcnow()`, `Date.now()` and the driver-generated `_id` are inputs. How datetimes are written into JSON responses is not modelled.
- The text of `str(e)` in the 500 detail: the model keeps the exception itself (`Raised`), not its formatting.
- JSON decoding is an input: a decoded value, or none when decoding fails. Numbers are exact reals, with no floating-point rounding and no NaN.
- VideoStore.ApplyUpdate: "the `$set` changes nothing" is value equality of the model's documents. MongoDB's BSON comparison, which tells apart types such as `1` and `1.0`, is not modelled.
- Concurrency: requests run one at a time, so the race between the exists-check and the insert in create is not modelled.
- Concurrency in the extension: a lookup is atomic in the model. In the script another lookup or the interval reset can run while `checkVideoBlocked` awaits `fetch`, between the freshness test and the `add`; those interleavings are not modelled.
- Logging: `print("No masterkey!")` in `require_api_key` and the `console.error` calls of the background script have no effect on results and are dropped.
- The extension's `fetch` URL building and headers; a `videoId` that is not a string in a message.
- Background.BlockCache.OnMessage: the `.catch` branch cannot be reached, because `checkVideoBlocked` catches every error itself. The model always replies through `.then`; `MessageReply` still maps a rejection to `false`.
- `client/content.js`, `client/blocked.js`, `client/popup.js` and `compress_client.py`: DOM, browser-storage and packaging code with no logic of this core.
