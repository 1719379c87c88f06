/**
  The server's document store: one collection of video records, reached through
  the `Database` object, which wraps `insert_one`, `find_one`, `update_one` and
  `count_documents` on that collection.

  The collection is a sequence of documents in natural (insertion) order, so
  that `find_one` and `update_one` act on the first match, as the store does.
  The store always keeps `_id` unique; after `create_indexes` it also keeps
  `videoId` unique, and that is the invariant `Valid` carries.
*/
module VideoStore {
  import opened Json

  /** A timestamp field: a real instant (opaque, supplied by the caller) or, as
      `update_video_status` writes it, a plain string. */
  datatype Stamp = At(instant: int) | Text(text: string)

  /** What `update_video_status` stores in `updatedAt`: the string itself, not a time. */
  const UtcNowLiteral: string := "datetime.utcnow()"

  /** One stored document. `oid` is the `_id` the driver generated, already
      rendered as a string; `blocked` and `addedBy` hold whatever JSON the
      client sent, since no handler checks their types. */
  datatype Video = Video(
    oid: string,
    videoId: string,
    blocked: JsonValue,
    addedAt: Stamp,
    addedBy: JsonValue,
    updatedAt: Stamp)

  /** A write refused by a unique index (`_id`, or `videoId` once indexed). */
  datatype StoreError = DuplicateKey(index: string)

  predicate IdsUnique(docs: seq<Video>) {
    forall i, j | 0 <= i < j < |docs| :: docs[i].videoId != docs[j].videoId
  }

  predicate OidsUnique(docs: seq<Video>) {
    forall i, j | 0 <= i < j < |docs| :: docs[i].oid != docs[j].oid
  }

  predicate HasOid(docs: seq<Video>, oid: string) {
    exists i | 0 <= i < |docs| :: docs[i].oid == oid
  }

  /** Position of the first document whose `videoId` is `id`. */
  function IndexOf(docs: seq<Video>, id: string): (r: Option<nat>)
    ensures r.Some? ==> r.value < |docs| && docs[r.value].videoId == id
    ensures r.Some? ==> forall j :: 0 <= j < r.value ==> docs[j].videoId != id
    ensures r.None? ==> forall j :: 0 <= j < |docs| ==> docs[j].videoId != id
  {
    if docs == [] then None
    else if docs[0].videoId == id then Some(0)
    else match IndexOf(docs[1..], id)
      case None => None
      case Some(k) => Some(k + 1)
  }

  /** `find_one({"videoId": id})`. */
  function FindOne(docs: seq<Video>, id: string): (r: Option<Video>)
    ensures r.Some? ==> r.value in docs && r.value.videoId == id
    ensures r.None? <==> forall j :: 0 <= j < |docs| ==> docs[j].videoId != id
  {
    match IndexOf(docs, id)
    case None => None
    case Some(k) => Some(docs[k])
  }

  /** Under the unique index, `find_one` returns THE record with that ID. */
  lemma FindOneUnderIndex(docs: seq<Video>, k: nat)
    requires IdsUnique(docs) && k < |docs|
    ensures FindOne(docs, docs[k].videoId) == Some(docs[k])
  {
    var i := IndexOf(docs, docs[k].videoId);
    assert i.Some?;
  }

  /** The query `{"blocked": True}`: equal to true, or an array holding true. */
  predicate MatchesTrue(v: JsonValue): (r: bool)
    ensures v.JArray? ==> (r <==> exists k :: 0 <= k < |v.items| && v.items[k] == JBool(true))
    ensures !v.JArray? ==> (r <==> v == JBool(true))
  {
    v == JBool(true) || (v.JArray? && JBool(true) in v.items)
  }

  /** `count_documents({"blocked": True})`. */
  function CountBlocked(docs: seq<Video>): (n: nat)
    ensures n <= |docs|
  {
    if docs == [] then 0
    else CountBlocked(docs[..|docs| - 1]) + (if MatchesTrue(docs[|docs| - 1].blocked) then 1 else 0)
  }

  /** `insert_one(video)` on a collection with the `_id` index and, when
      `uniqueIndex`, the unique `videoId` index. */
  function Insert(docs: seq<Video>, uniqueIndex: bool, video: Video): (r: Result<seq<Video>, StoreError>)
    ensures r.Err? <==>
      || (exists j :: 0 <= j < |docs| && docs[j].oid == video.oid)
      || (uniqueIndex && exists j :: 0 <= j < |docs| && docs[j].videoId == video.videoId)
    ensures r.Ok? ==> |r.value| == |docs| + 1 && r.value[..|docs|] == docs && r.value[|docs|] == video
  {
    if HasOid(docs, video.oid) then Err(DuplicateKey("_id"))
    else if uniqueIndex && FindOne(docs, video.videoId).Some? then Err(DuplicateKey("videoId"))
    else Ok(docs + [video])
  }

  /** What the `$set` of `update_video_status` makes of one document. */
  function SetStatus(video: Video, blocked: JsonValue): (r: Video)
    ensures r.blocked == blocked && r.updatedAt == Text(UtcNowLiteral)
    ensures r.oid == video.oid && r.videoId == video.videoId
    ensures r.addedAt == video.addedAt && r.addedBy == video.addedBy
  {
    video.(blocked := blocked, updatedAt := Text(UtcNowLiteral))
  }

  /** `update_one({"videoId": id}, {"$set": ...})`: the documents afterwards and
      `modified_count`, which is 0 when nothing matched or when the `$set`
      left the matched document as it was. */
  function ApplyUpdate(docs: seq<Video>, id: string, blocked: JsonValue): (r: (seq<Video>, nat))
    ensures r.1 <= 1
    ensures r.1 == 0 ==> r.0 == docs
    ensures FindOne(docs, id).None? ==> r == (docs, 0)
    ensures r.1 == 1 <==> FindOne(docs, id).Some? && SetStatus(FindOne(docs, id).value, blocked) != FindOne(docs, id).value
  {
    match IndexOf(docs, id)
    case None => (docs, 0)
    case Some(k) =>
      var updated := SetStatus(docs[k], blocked);
      if updated == docs[k] then (docs, 0) else (docs[k := updated], 1)
  }

  /** Inserting keeps both unique indexes, and a record whose ID is already
      stored is refused once `videoId` is indexed. */
  lemma InsertKeepsIndexes(docs: seq<Video>, uniqueIndex: bool, video: Video)
    requires OidsUnique(docs) && (uniqueIndex ==> IdsUnique(docs))
    ensures uniqueIndex && FindOne(docs, video.videoId).Some? ==> Insert(docs, uniqueIndex, video).Err?
    ensures Insert(docs, uniqueIndex, video).Ok? ==>
      var after := Insert(docs, uniqueIndex, video).value;
      OidsUnique(after) && (uniqueIndex ==> IdsUnique(after))
  {
    if Insert(docs, uniqueIndex, video).Ok? {
      var after := docs + [video];
      assert !HasOid(docs, video.oid);
      forall i, j | 0 <= i < j < |after| ensures after[i].oid != after[j].oid {
        if j == |docs| {
          assert after[i] == docs[i];
        }
      }
      if uniqueIndex {
        forall i, j | 0 <= i < j < |after| ensures after[i].videoId != after[j].videoId {
          if j == |docs| {
            assert after[i] == docs[i];
          }
        }
      }
    }
  }

  /** An update changes at most the matched record, and there only `blocked`
      and `updatedAt`; `videoId` and `_id` of every record stay put. */
  lemma UpdateTouchesOnlyMatch(docs: seq<Video>, id: string, blocked: JsonValue)
    ensures var after := ApplyUpdate(docs, id, blocked).0;
      && |after| == |docs|
      && (forall j :: 0 <= j < |docs| ==> after[j].videoId == docs[j].videoId && after[j].oid == docs[j].oid)
      && (forall j :: 0 <= j < |docs| && after[j] != docs[j] ==>
            IndexOf(docs, id) == Some(j) && after[j] == SetStatus(docs[j], blocked))
  {
  }

  /** Every record keeps its `videoId` and `_id`, so both indexes survive an update. */
  lemma UpdateKeepsIndexes(docs: seq<Video>, id: string, blocked: JsonValue)
    requires OidsUnique(docs)
    ensures OidsUnique(ApplyUpdate(docs, id, blocked).0)
    ensures IdsUnique(docs) ==> IdsUnique(ApplyUpdate(docs, id, blocked).0)
  {
    UpdateTouchesOnlyMatch(docs, id, blocked);
  }

  /** Replacing a record by one with the same `videoId` moves no first match. */
  lemma IndexOfSameIds(docs: seq<Video>, k: nat, video: Video, id: string)
    requires k < |docs| && video.videoId == docs[k].videoId
    ensures IndexOf(docs[k := video], id) == IndexOf(docs, id)
  {
    var a, b := IndexOf(docs[k := video], id), IndexOf(docs, id);
    if a.Some? {
      assert docs[a.value].videoId == id;
    }
    if b.Some? {
      assert docs[k := video][b.value].videoId == id;
    }
  }

  /** After a successful update the re-read record carries the new status, and
      repeating the same update changes nothing and reports 0. */
  lemma UpdateThenRead(docs: seq<Video>, id: string, blocked: JsonValue)
    requires ApplyUpdate(docs, id, blocked).1 == 1
    ensures var after := ApplyUpdate(docs, id, blocked).0;
      && FindOne(after, id) == Some(SetStatus(FindOne(docs, id).value, blocked))
      && ApplyUpdate(after, id, blocked) == (after, 0)
  {
    var k := IndexOf(docs, id).value;
    var updated := SetStatus(docs[k], blocked);
    IndexOfSameIds(docs, k, updated, id);
    assert SetStatus(updated, blocked) == updated;
  }

  /** Appending one record adds one to the total and one to the blocked count
      exactly when the new record matches `{"blocked": True}`. */
  lemma CountBlockedAppend(docs: seq<Video>, video: Video)
    ensures CountBlocked(docs + [video]) == CountBlocked(docs) + (if MatchesTrue(video.blocked) then 1 else 0)
  {
    assert (docs + [video])[..|docs|] == docs;
  }

  /** Replacing one record moves the blocked count by that record's contribution. */
  lemma {:induction false} CountBlockedReplace(docs: seq<Video>, k: nat, video: Video)
    requires k < |docs|
    ensures CountBlocked(docs[k := video]) + (if MatchesTrue(docs[k].blocked) then 1 else 0)
         == CountBlocked(docs) + (if MatchesTrue(video.blocked) then 1 else 0)
  {
    var n := |docs| - 1;
    var after := docs[k := video];
    if k == n {
      assert after[..n] == docs[..n];
    } else {
      assert after[..n] == docs[..n][k := video];
      CountBlockedReplace(docs[..n], k, video);
    }
  }

  /** What `get_stats` reports after an update: the same total, and a blocked
      count that moves by at most one, in the direction of the new status. */
  lemma StatsAfterUpdate(docs: seq<Video>, id: string, blocked: JsonValue)
    ensures var after := ApplyUpdate(docs, id, blocked).0;
      && |after| == |docs|
      && (FindOne(docs, id).Some? && MatchesTrue(blocked) && !MatchesTrue(FindOne(docs, id).value.blocked) ==>
            CountBlocked(after) == CountBlocked(docs) + 1)
      && (FindOne(docs, id).Some? && !MatchesTrue(blocked) && MatchesTrue(FindOne(docs, id).value.blocked) ==>
            CountBlocked(after) + 1 == CountBlocked(docs))
      && (FindOne(docs, id).None? ==> CountBlocked(after) == CountBlocked(docs))
  {
    match IndexOf(docs, id)
    case None =>
    case Some(k) =>
      var updated := SetStatus(docs[k], blocked);
      if updated != docs[k] {
        CountBlockedReplace(docs, k, updated);
      }
  }

  /** The `Database` object: the collection and whether `create_indexes` has
      established the unique index on `videoId`. */
  class Database {
    var docs: seq<Video>
    var uniqueIndex: bool

    ghost predicate Valid()
      reads this
    {
      OidsUnique(docs) && (uniqueIndex ==> IdsUnique(docs))
    }

    /** Connects to an existing collection, which obeys its own indexes. */
    constructor (existing: seq<Video>, indexed: bool)
      requires OidsUnique(existing) && (indexed ==> IdsUnique(existing))
      ensures Valid() && docs == existing && uniqueIndex == indexed
    {
      docs := existing;
      uniqueIndex := indexed;
    }

    /** `create_index("videoId", unique=True)`: refused while two records share
        an ID; otherwise the index exists afterwards. Idempotent. */
    method CreateIndexes() returns (r: Result<(), StoreError>)
      requires Valid()
      modifies this
      ensures Valid() && docs == old(docs)
      ensures r.Ok? <==> IdsUnique(docs)
      ensures uniqueIndex <==> old(uniqueIndex) || r.Ok?
    {
      if IdsUnique(docs) {
        uniqueIndex := true;
        r := Ok(());
      } else {
        r := Err(DuplicateKey("videoId"));
      }
    }

    /** `add_video`: `insert_one`, giving back the inserted `_id`. */
    method AddVideo(video: Video) returns (r: Result<string, StoreError>)
      requires Valid()
      modifies this
      ensures Valid() && uniqueIndex == old(uniqueIndex)
      ensures match Insert(old(docs), uniqueIndex, video)
        case Ok(after) => r == Ok(video.oid) && docs == after
        case Err(e) => r == Err(e) && docs == old(docs)
    {
      InsertKeepsIndexes(docs, uniqueIndex, video);
      match Insert(docs, uniqueIndex, video)
      case Ok(after) =>
        docs := after;
        r := Ok(video.oid);
      case Err(e) =>
        r := Err(e);
    }

    /** `get_video`: the first record with that ID, if any. */
    method GetVideo(videoId: string) returns (r: Option<Video>)
      ensures r == FindOne(docs, videoId)
      ensures uniqueIndex && Valid() ==> forall j :: 0 <= j < |docs| && docs[j].videoId == videoId ==> r == Some(docs[j])
    {
      r := FindOne(docs, videoId);
      if uniqueIndex && Valid() {
        forall j | 0 <= j < |docs| && docs[j].videoId == videoId
          ensures r == Some(docs[j])
        {
          FindOneUnderIndex(docs, j);
        }
      }
    }

    /** `video_exists`: `find_one(...) is not None`, that is, exactly when
        `get_video` returns a record. */
    method VideoExists(videoId: string) returns (b: bool)
      ensures b <==> FindOne(docs, videoId).Some?
      ensures b <==> exists j :: 0 <= j < |docs| && docs[j].videoId == videoId
    {
      var found := GetVideo(videoId);
      b := found.Some?;
    }

    /** `update_video_status`: sets `blocked` and the literal `updatedAt` on the
        first match and returns `modified_count`. */
    method UpdateVideoStatus(videoId: string, blocked: JsonValue) returns (modified: nat)
      requires Valid()
      modifies this
      ensures Valid() && uniqueIndex == old(uniqueIndex)
      ensures (docs, modified) == ApplyUpdate(old(docs), videoId, blocked)
    {
      UpdateKeepsIndexes(docs, videoId, blocked);
      var result := ApplyUpdate(docs, videoId, blocked);
      docs := result.0;
      modified := result.1;
    }

    /** `get_stats`: the number of records and the number matching `{"blocked": True}`. */
    method GetStats() returns (totalVideos: nat, totalBlocked: nat)
      ensures totalVideos == |docs| && totalBlocked == CountBlocked(docs)
      ensures totalBlocked <= totalVideos
    {
      totalVideos := |docs|;
      totalBlocked := CountBlocked(docs);
    }
  }
}
