/**
  The four request handlers of the server (create, fetch, stats, update), each a
  fixed sequence of checks followed by calls on the `Database` object.

  Create and update run their whole body inside `try ... except Exception`,
  which turns every exception, the handlers' own 400, 404 and 409 included,
  into a 500 whose detail is the exception caught. `Raised` records which
  exception that was; `Surface` is the `except` clause.

  A request body is `None` when `request.json()` raises, otherwise the decoded
  JSON value (which `data.get` then needs to be an object).
*/
module Api {
  import opened Json
  import opened VideoId
  import opened VideoStore

  const InvalidIdDetail: string := "Invalid YouTube video ID"
  const AddedByRequired: string := "addedBy is required"
  const AlreadyExists: string := "Video already exists"
  const BlockedRequired: string := "blocked field is required"
  const NotFoundDetail: string := "Video not found"

  /** An exception raised inside the `try` of create or update. */
  datatype Raised =
    | HttpRaised(status: int, detail: string)  // an HTTPException of the handler itself
    | MalformedBody                            // `request.json()` failed, or `data.get` on a non-object
    | IdNotString                              // `re.match` on a `videoId` that is not a string
    | StoreFailed(error: StoreError)           // `insert_one` refused the document

  /** The JSON body of a response. */
  datatype Body =
    | Doc(video: Video)                                // a whole record, `_id` as a string
    | Anonymous(videoId: string, blocked: JsonValue)   // `{"videoId": ..., "blocked": ...}`
    | BlockedFalse                                     // `{"blocked": false}`
    | Counts(totalVideos: nat, totalBlocked: nat)      // `{"totalVideos": ..., "totalBlocked": ...}`
    | Detail(detail: string)                           // `{"detail": ...}` of an HTTPException
    | Wrapped(cause: Raised)                           // `{"detail": str(e)}` of the `except` clause

  datatype Response = Response(status: int, body: Body)

  /** The result of a mutating handler's `try` body and the collection afterwards. */
  datatype Step = Step(outcome: Result<Video, Raised>, after: seq<Video>)

  /** The `except Exception` clause of create and update. */
  function Surface(outcome: Result<Video, Raised>): (r: Response)
    ensures r.status == 200 <==> outcome.Ok?
    ensures r.status == 500 <==> outcome.Err?
    ensures outcome.Err? ==> r.body.Wrapped? && r.body.cause == outcome.error
  {
    match outcome
    case Ok(video) => Response(200, Doc(video))
    case Err(e) => Response(500, Wrapped(e))
  }

  /** The checks create makes before it touches the store: an object body, a
      truthy string `videoId` that passes the ID check, and a truthy `addedBy`. */
  predicate CreateRequestValid(request: Option<JsonValue>) {
    && request.Some? && request.value.JObject?
    && var videoId := Get(request.value.fields, "videoId", JNull);
    && videoId.JStr? && IsValidYoutubeId(videoId.s)
    && PyTruthy(Get(request.value.fields, "addedBy", JNull))
  }

  /** The `try` body of `add_video`, on collection `docs`; `addedAt` and
      `updatedAt` are the two `datetime.utcnow()` readings and `oid` the `_id`
      the driver generates. */
  function CreateStep(docs: seq<Video>, uniqueIndex: bool, request: Option<JsonValue>,
                      addedAt: int, updatedAt: int, oid: string): (r: Step)
    ensures r.outcome.Ok? ==> r.after == docs + [r.outcome.value]
    ensures r.outcome.Err? ==> r.after == docs
    ensures r.outcome.Ok? ==> CreateRequestValid(request) && FindOne(docs, r.outcome.value.videoId).None?
  {
    if request.None? || !request.value.JObject? then Step(Err(MalformedBody), docs)
    else
      var data := request.value.fields;
      var videoId := Get(data, "videoId", JNull);
      if !PyTruthy(videoId) then Step(Err(HttpRaised(400, InvalidIdDetail)), docs)
      else if !videoId.JStr? then Step(Err(IdNotString), docs)
      else if !IsValidYoutubeId(videoId.s) then Step(Err(HttpRaised(400, InvalidIdDetail)), docs)
      else
        var addedBy := Get(data, "addedBy", JNull);
        if !PyTruthy(addedBy) then Step(Err(HttpRaised(400, AddedByRequired)), docs)
        else
          var doc := Video(oid, videoId.s, Get(data, "blocked", JBool(false)), At(addedAt), addedBy, At(updatedAt));
          if FindOne(docs, videoId.s).Some? then Step(Err(HttpRaised(409, AlreadyExists)), docs)
          else
            match Insert(docs, uniqueIndex, doc)
            case Err(e) => Step(Err(StoreFailed(e)), docs)
            case Ok(after) => Step(Ok(doc), after)
  }

  /** A request failing the ID or `addedBy` check is refused the same way
      whatever the store holds, and the store is left as it was. */
  lemma CreateRejectsBeforeStore(docs: seq<Video>, uniqueIndex: bool, request: Option<JsonValue>,
                                 addedAt: int, updatedAt: int, oid: string)
    requires !CreateRequestValid(request)
    ensures var r := CreateStep(docs, uniqueIndex, request, addedAt, updatedAt, oid);
      && r.outcome.Err? && r.after == docs
      && r.outcome == CreateStep([], false, request, addedAt, updatedAt, oid).outcome
      && r.outcome.error != HttpRaised(409, AlreadyExists)
  {
  }

  /** A created record takes `videoId` and `addedBy` from the body, `blocked`
      from the body when the key is present (even as null) and false only when
      it is absent; and a valid request for a new ID with a fresh `_id` is created. */
  lemma CreateRecordFromBody(docs: seq<Video>, uniqueIndex: bool, request: Option<JsonValue>,
                             addedAt: int, updatedAt: int, oid: string)
    requires OidsUnique(docs) && (uniqueIndex ==> IdsUnique(docs))
    ensures var r := CreateStep(docs, uniqueIndex, request, addedAt, updatedAt, oid);
      r.outcome.Ok? ==>
        var data := request.value.fields;
        && r.outcome.value == Video(oid, data["videoId"].s,
                                    if "blocked" in data then data["blocked"] else JBool(false),
                                    At(addedAt), data["addedBy"], At(updatedAt))
    ensures var r := CreateStep(docs, uniqueIndex, request, addedAt, updatedAt, oid);
      r.outcome.Ok? <==>
        && CreateRequestValid(request)
        && FindOne(docs, request.value.fields["videoId"].s).None?
        && !HasOid(docs, oid)
  {
  }

  /** Creating an ID that is already stored never inserts: it raises the 409,
      which the client receives as a 500. So a second identical create fails. */
  lemma CreateTwiceConflicts(docs: seq<Video>, uniqueIndex: bool, request: Option<JsonValue>,
                             addedAt: int, updatedAt: int, oid: string,
                             addedAt': int, updatedAt': int, oid': string)
    requires CreateStep(docs, uniqueIndex, request, addedAt, updatedAt, oid).outcome.Ok?
    ensures var after := CreateStep(docs, uniqueIndex, request, addedAt, updatedAt, oid).after;
      var again := CreateStep(after, uniqueIndex, request, addedAt', updatedAt', oid');
      && again == Step(Err(HttpRaised(409, AlreadyExists)), after)
      && Surface(again.outcome).status == 500
  {
    var first := CreateStep(docs, uniqueIndex, request, addedAt, updatedAt, oid);
    var after := first.after;
    assert after[|docs|].videoId == first.outcome.value.videoId;
  }

  /** The handlers' own HTTPExceptions are 400 and 409 in create, 400 and 404
      in update, and the client never sees any of them: each reaches it as a 500. */
  lemma FailuresSurfaceAs500(docs: seq<Video>, uniqueIndex: bool, request: Option<JsonValue>,
                             addedAt: int, updatedAt: int, oid: string,
                             videoId: string, update: Option<JsonValue>)
    ensures var c := CreateStep(docs, uniqueIndex, request, addedAt, updatedAt, oid).outcome;
      c.Err? && c.error.HttpRaised? ==> c.error.status in {400, 409} && Surface(c).status == 500
    ensures var u := UpdateStep(docs, videoId, update).outcome;
      u.Err? && u.error.HttpRaised? ==> u.error.status in {400, 404} && Surface(u).status == 500
  {
  }

  /** The `try` body of `update_video_status` on collection `docs`. */
  function UpdateStep(docs: seq<Video>, videoId: string, request: Option<JsonValue>): (r: Step)
    ensures r.outcome.Err? ==> r.after == docs
    ensures r.outcome.Ok? ==>
      && IsValidYoutubeId(videoId)
      && FindOne(docs, videoId).Some?
      && request.Some? && request.value.JObject? && "blocked" in request.value.fields
      && var blocked := request.value.fields["blocked"];
      && blocked != JNull
      && r.after == ApplyUpdate(docs, videoId, blocked).0
      && r.outcome.value == SetStatus(FindOne(docs, videoId).value, blocked)
    // and it succeeds whenever the checks pass and the `$set` modifies the record
    ensures IsValidYoutubeId(videoId) && request.Some? && request.value.JObject?
      && Get(request.value.fields, "blocked", JNull) != JNull
      && ApplyUpdate(docs, videoId, Get(request.value.fields, "blocked", JNull)).1 == 1
      ==> r.outcome.Ok?
  {
    if !IsValidYoutubeId(videoId) then Step(Err(HttpRaised(400, InvalidIdDetail)), docs)
    else if request.None? || !request.value.JObject? then Step(Err(MalformedBody), docs)
    else
      var blocked := Get(request.value.fields, "blocked", JNull);
      if blocked == JNull then Step(Err(HttpRaised(400, BlockedRequired)), docs)
      else
        var (after, modified) := ApplyUpdate(docs, videoId, blocked);
        if modified == 0 then Step(Err(HttpRaised(404, NotFoundDetail)), after)
        else
          UpdateThenRead(docs, videoId, blocked);
          Step(Ok(FindOne(after, videoId).value), after)
  }

  /** An invalid ID, or a body whose `blocked` is missing or null, is refused
      with a 400 whatever the store holds, before the store is called. */
  lemma UpdateRejectsBeforeStore(docs: seq<Video>, videoId: string, request: Option<JsonValue>)
    requires !IsValidYoutubeId(videoId) ||
             (request.Some? && request.value.JObject? && Get(request.value.fields, "blocked", JNull) == JNull)
    ensures var r := UpdateStep(docs, videoId, request);
      && r.after == docs
      && r.outcome.Err? && r.outcome.error.HttpRaised? && r.outcome.error.status == 400
      && r.outcome == UpdateStep([], videoId, request).outcome
  {
  }

  /** A well-formed update returns the re-read record, carrying the new status,
      exactly when `modified_count` is 1; otherwise it is the 404 and the store
      is unchanged. */
  lemma UpdateOutcome(docs: seq<Video>, videoId: string, request: Option<JsonValue>)
    requires IsValidYoutubeId(videoId) && request.Some? && request.value.JObject?
    requires Get(request.value.fields, "blocked", JNull) != JNull
    ensures var blocked := Get(request.value.fields, "blocked", JNull);
      var (after, modified) := ApplyUpdate(docs, videoId, blocked);
      && (modified == 1 ==>
            UpdateStep(docs, videoId, request) == Step(Ok(SetStatus(FindOne(docs, videoId).value, blocked)), after))
      && (modified == 0 ==>
            UpdateStep(docs, videoId, request) == Step(Err(HttpRaised(404, NotFoundDetail)), docs))
  {
  }

  /** An update of an ID the store does not hold is the 404 "Video not found"
      and changes nothing. */
  lemma UpdateUnknownIsNotFound(docs: seq<Video>, videoId: string, request: Option<JsonValue>)
    requires IsValidYoutubeId(videoId) && request.Some? && request.value.JObject?
    requires Get(request.value.fields, "blocked", JNull) != JNull
    requires FindOne(docs, videoId).None?
    ensures UpdateStep(docs, videoId, request) == Step(Err(HttpRaised(404, NotFoundDetail)), docs)
  {
  }

  /** Because `modified_count` is 0 when the `$set` changes nothing, repeating
      a successful update is reported as "Video not found". */
  lemma UpdateRepeatIsNotFound(docs: seq<Video>, videoId: string, request: Option<JsonValue>)
    requires UpdateStep(docs, videoId, request).outcome.Ok?
    ensures var after := UpdateStep(docs, videoId, request).after;
      UpdateStep(after, videoId, request) == Step(Err(HttpRaised(404, NotFoundDetail)), after)
  {
    var blocked := request.value.fields["blocked"];
    UpdateThenRead(docs, videoId, blocked);
  }

  /** POST /api/videos. */
  method AddVideo(db: Database, request: Option<JsonValue>, addedAt: int, updatedAt: int, oid: string)
    returns (resp: Response)
    requires db.Valid()
    modifies db
    ensures db.Valid() && db.uniqueIndex == old(db.uniqueIndex)
    ensures var step := CreateStep(old(db.docs), old(db.uniqueIndex), request, addedAt, updatedAt, oid);
      resp == Surface(step.outcome) && db.docs == step.after
  {
    if request.None? || !request.value.JObject? {
      return Surface(Err(MalformedBody));
    }
    var data := request.value.fields;
    var videoId := Get(data, "videoId", JNull);
    if !PyTruthy(videoId) {
      return Surface(Err(HttpRaised(400, InvalidIdDetail)));
    }
    if !videoId.JStr? {
      return Surface(Err(IdNotString));
    }
    if !IsValidYoutubeId(videoId.s) {
      return Surface(Err(HttpRaised(400, InvalidIdDetail)));
    }
    var addedBy := Get(data, "addedBy", JNull);
    if !PyTruthy(addedBy) {
      return Surface(Err(HttpRaised(400, AddedByRequired)));
    }
    var blocked := Get(data, "blocked", JBool(false));
    var doc := Video(oid, videoId.s, blocked, At(addedAt), addedBy, At(updatedAt));
    var present := db.VideoExists(videoId.s);
    if present {
      return Surface(Err(HttpRaised(409, AlreadyExists)));
    }
    var inserted := db.AddVideo(doc);
    if inserted.Err? {
      return Surface(Err(StoreFailed(inserted.error)));
    }
    resp := Surface(Ok(doc));
  }

  /** GET /api/videos/{video_id}: anonymous, and a default "not blocked" 404
      for an ID the store does not hold. */
  method GetVideo(db: Database, videoId: string) returns (resp: Response)
    ensures !IsValidYoutubeId(videoId) ==> resp == Response(400, Detail(InvalidIdDetail))
    ensures IsValidYoutubeId(videoId) && FindOne(db.docs, videoId).None? ==> resp == Response(404, BlockedFalse)
    ensures IsValidYoutubeId(videoId) && FindOne(db.docs, videoId).Some? ==>
      resp == Response(200, Anonymous(videoId, FindOne(db.docs, videoId).value.blocked))
    ensures !resp.body.Doc?
  {
    if !IsValidYoutubeId(videoId) {
      return Response(400, Detail(InvalidIdDetail));
    }
    var video := db.GetVideo(videoId);
    if video.None? {
      return Response(404, BlockedFalse);
    }
    resp := Response(200, Anonymous(video.value.videoId, video.value.blocked));
  }

  /** GET /api/stats. */
  method GetStats(db: Database) returns (resp: Response)
    ensures resp == Response(200, Counts(|db.docs|, CountBlocked(db.docs)))
    ensures resp.body.totalBlocked <= resp.body.totalVideos
  {
    var totalVideos, totalBlocked := db.GetStats();
    resp := Response(200, Counts(totalVideos, totalBlocked));
  }

  /** PUT /api/videos/{video_id}; no authorization is checked here. */
  method UpdateVideoStatus(db: Database, videoId: string, request: Option<JsonValue>) returns (resp: Response)
    requires db.Valid()
    modifies db
    ensures db.Valid() && db.uniqueIndex == old(db.uniqueIndex)
    ensures var step := UpdateStep(old(db.docs), videoId, request);
      resp == Surface(step.outcome) && db.docs == step.after
  {
    if !IsValidYoutubeId(videoId) {
      return Surface(Err(HttpRaised(400, InvalidIdDetail)));
    }
    if request.None? || !request.value.JObject? {
      return Surface(Err(MalformedBody));
    }
    var blocked := Get(request.value.fields, "blocked", JNull);
    if blocked == JNull {
      return Surface(Err(HttpRaised(400, BlockedRequired)));
    }
    var modified := db.UpdateVideoStatus(videoId, blocked);
    if modified == 0 {
      return Surface(Err(HttpRaised(404, NotFoundDetail)));
    }
    UpdateThenRead(old(db.docs), videoId, blocked);
    var video := db.GetVideo(videoId);
    resp := Surface(Ok(video.value));
  }
}
