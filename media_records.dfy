/**
 * The media-metadata record helpers: `create_media_record`,
 * `delete_media_record` and `get_record_by_file_id`, over the table store.
 * A record's primary key is `file_id` then `timestamp`.
 */
module MediaRecords {
  import opened Wrappers
  import opened TableStore

  /** The primary key of a media record. */
  function RecordKey(fileId: Value, timestamp: Value): (pk: PrimaryKey)
    ensures |pk| == 2 && pk[0] == ("file_id", fileId) && pk[1] == ("timestamp", timestamp)
  {
    [("file_id", fileId), ("timestamp", timestamp)]
  }

  /**
   * The attribute columns `create_media_record` writes: six fixed columns,
   * `species` and `count` even when they are None, then `thumbnail_url` only
   * when it is truthy.
   */
  function MediaColumns(ossUrl: Value, fileType: Value, tags: Value, userId: Value,
                        species: Value, count: Value, thumbnailUrl: Value): (cols: seq<(string, Value)>)
    ensures |cols| == if Truthy(thumbnailUrl) then 7 else 6
    ensures cols[..6] == [("oss_url", ossUrl), ("file_type", fileType), ("tags", tags),
                          ("user_id", userId), ("species", species), ("count", count)]
    ensures Truthy(thumbnailUrl) ==> cols[6] == ("thumbnail_url", thumbnailUrl)
  {
    var fixed := [("oss_url", ossUrl), ("file_type", fileType), ("tags", tags),
                  ("user_id", userId), ("species", species), ("count", count)];
    if Truthy(thumbnailUrl) then fixed + [("thumbnail_url", thumbnailUrl)] else fixed
  }

  /** The flat record a created row reads back as. */
  function MediaFields(fileId: Value, timestamp: Value, ossUrl: Value, fileType: Value, tags: Value,
                       userId: Value, species: Value, count: Value, thumbnailUrl: Value): Record
  {
    var fixed := map["file_id" := fileId, "timestamp" := timestamp, "oss_url" := ossUrl,
                     "file_type" := fileType, "tags" := tags, "user_id" := userId,
                     "species" := species, "count" := count];
    if Truthy(thumbnailUrl) then fixed["thumbnail_url" := thumbnailUrl] else fixed
  }

  /** The exception `create_media_record` raises when the put fails. */
  function CreateFailure(e: StoreError): string {
    "Failed to create record: " + ErrorText(e) + ". Check parameters!"
  }

  /** The exception `delete_media_record` raises when the delete fails. */
  function DeleteFailure(e: StoreError): string {
    "Deletion failed: " + ErrorText(e) + ". Check file_id and timestamp!"
  }

  /**
   * `create_media_record`: put the row with condition IGNORE, so an existing
   * row under the same key is overwritten; True on success, the wrapped
   * error otherwise, with the table unchanged.
   */
  method CreateMediaRecord(store: Store, tableName: string, fileId: Value, timestamp: Value,
                           ossUrl: Value, fileType: Value, tags: Value, userId: Value,
                           species: Value, count: Value, thumbnailUrl: Value, now: int)
    returns (r: Result<bool>)
    modifies store
    ensures var err := CheckRequest(old(store.tables), tableName, RecordKey(fileId, timestamp), Ignore);
      && (err.None? ==> r == Ok(true) && store.tables == Put(old(store.tables), tableName,
            RecordKey(fileId, timestamp),
            MediaColumns(ossUrl, fileType, tags, userId, species, count, thumbnailUrl), now))
      && (err.Some? ==> r == Err(CreateFailure(err.value)) && store.tables == old(store.tables))
  {
    var primaryKey := [("file_id", fileId), ("timestamp", timestamp)];
    var attributeColumns := [("oss_url", ossUrl), ("file_type", fileType), ("tags", tags),
                             ("user_id", userId), ("species", species), ("count", count)];
    if Truthy(thumbnailUrl) {
      attributeColumns := attributeColumns + [("thumbnail_url", thumbnailUrl)];
    }
    var e := store.PutRow(tableName, primaryKey, attributeColumns, Ignore, now);
    if e.Some? {
      return Err(CreateFailure(e.value));
    }
    return Ok(true);
  }

  /**
   * `delete_media_record`: delete with condition EXPECT_EXIST, so an absent
   * key is an error and leaves the table unchanged.
   */
  method DeleteMediaRecord(store: Store, tableName: string, fileId: Value, timestamp: Value)
    returns (r: Result<bool>)
    modifies store
    ensures var err := CheckRequest(old(store.tables), tableName, RecordKey(fileId, timestamp), ExpectExist);
      && (err.None? ==> r == Ok(true) && store.tables == Delete(old(store.tables), tableName, RecordKey(fileId, timestamp)))
      && (err.Some? ==> r == Err(DeleteFailure(err.value)) && store.tables == old(store.tables))
  {
    var primaryKey := [("file_id", fileId), ("timestamp", timestamp)];
    var e := store.DeleteRow(tableName, primaryKey, ExpectExist);
    if e.Some? {
      return Err(DeleteFailure(e.value));
    }
    return Ok(true);
  }

  /** The key `get_record_by_file_id` reads: a falsy timestamp is sent as None. */
  function QueryKey(fileId: Value, timestamp: Value): PrimaryKey {
    RecordKey(fileId, if Truthy(timestamp) then timestamp else VNone)
  }

  /** The exception `get_record_by_file_id` raises: client errors by their message, service errors by `str(e)`. */
  function QueryFailure(e: StoreError): string {
    match e
    case ClientError(m) => "Query failed (SDK Error): " + m
    case ServiceError(_, _) => "Query failed: " + ErrorText(e)
  }

  /**
   * What `get_record_by_file_id` returns for the tables `ts`: None when there
   * is no row or the row has no primary key, otherwise the row flattened.
   */
  function RecordByFileId(ts: Tables, tableName: string, fileId: Value, timestamp: Value): Result<Option<Record>> {
    match Lookup(ts, tableName, QueryKey(fileId, timestamp))
    case Failed(e) => Err(QueryFailure(e))
    case Done(None) => Ok(None)
    case Done(Some(row)) => if |row.primaryKey| == 0 then Ok(None) else Ok(Some(Flatten(row)))
  }

  /**
   * `get_record_by_file_id`: read the row, take it out of a tuple response
   * when the store answers with one, and merge its columns.
   */
  method GetRecordByFileId(store: Store, tableName: string, fileId: Value, timestamp: Value)
    returns (r: Result<Option<Record>>)
    ensures r == RecordByFileId(store.tables, tableName, fileId, timestamp)
  {
    var primaryKey := [("file_id", fileId)];
    if Truthy(timestamp) {
      primaryKey := primaryKey + [("timestamp", timestamp)];
    } else {
      primaryKey := primaryKey + [("timestamp", VNone)];
    }
    assert primaryKey == QueryKey(fileId, timestamp);
    var response := store.GetRow(tableName, primaryKey);
    if response.Failed? {
      return Err(QueryFailure(response.error));
    }
    var rowData: Option<Row>;
    match response.value {
      case Triple(_, row, _) => rowData := row;
      case Bare(row) => rowData := row;
    }
    if rowData.None? || |rowData.value.primaryKey| == 0 {
      return Ok(None);
    }
    var record := FlattenRow(rowData.value);
    return Ok(Some(record));
  }

  /** A created row flattens to exactly the fields written. */
  lemma FlattenCreatedRow(fileId: Value, timestamp: Value, ossUrl: Value, fileType: Value, tags: Value,
                          userId: Value, species: Value, count: Value, thumbnailUrl: Value, now: int)
    ensures Flatten(Row(RecordKey(fileId, timestamp),
        Stamp(MediaColumns(ossUrl, fileType, tags, userId, species, count, thumbnailUrl), now)))
      == MediaFields(fileId, timestamp, ossUrl, fileType, tags, userId, species, count, thumbnailUrl)
  {
    var cols := MediaColumns(ossUrl, fileType, tags, userId, species, count, thumbnailUrl);
    PairsStamp(cols, now);
    var pk := RecordKey(fileId, timestamp);
    assert Assign(map[], pk[..1]) == map["file_id" := fileId] by {
      assert pk[..1][..0] == [];
    }
    var m := Assign(map[], pk);
    assert m == map["file_id" := fileId, "timestamp" := timestamp] by {
      assert pk[..1] == [("file_id", fileId)];
    }
    var c0, c1, c2 := ("oss_url", ossUrl), ("file_type", fileType), ("tags", tags);
    var c3, c4, c5 := ("user_id", userId), ("species", species), ("count", count);
    var fixed := [c0, c1, c2, c3, c4, c5];
    AssignSix(m, c0, c1, c2, c3, c4, c5);
    if Truthy(thumbnailUrl) {
      assert cols[..6] == fixed;
    } else {
      assert cols == fixed;
    }
  }

  /** Six assignments in a row. */
  lemma AssignSix(m: Record, c0: (string, Value), c1: (string, Value), c2: (string, Value),
                  c3: (string, Value), c4: (string, Value), c5: (string, Value))
    ensures Assign(m, [c0, c1, c2, c3, c4, c5])
      == m[c0.0 := c0.1][c1.0 := c1.1][c2.0 := c2.1][c3.0 := c3.1][c4.0 := c4.1][c5.0 := c5.1]
  {
    var fixed := [c0, c1, c2, c3, c4, c5];
    assert fixed[..1][..0] == [];
    assert Assign(m, fixed[..1]) == m[c0.0 := c0.1];
    assert fixed[..2][..1] == fixed[..1];
    assert Assign(m, fixed[..2]) == m[c0.0 := c0.1][c1.0 := c1.1];
    assert fixed[..3][..2] == fixed[..2];
    assert Assign(m, fixed[..3]) == m[c0.0 := c0.1][c1.0 := c1.1][c2.0 := c2.1];
    assert fixed[..4][..3] == fixed[..3];
    assert Assign(m, fixed[..4]) == m[c0.0 := c0.1][c1.0 := c1.1][c2.0 := c2.1][c3.0 := c3.1];
    assert fixed[..5][..4] == fixed[..4];
    assert Assign(m, fixed[..5]) == m[c0.0 := c0.1][c1.0 := c1.1][c2.0 := c2.1][c3.0 := c3.1][c4.0 := c4.1];
    assert fixed[..5] == fixed[..|fixed| - 1];
  }

  /**
   * Round trip: once `create_media_record` has succeeded, looking the record
   * up by its exact `file_id` and (non-zero) `timestamp` returns the written
   * fields, whatever was stored under that key before.
   */
  lemma CreateThenGet(ts: Tables, tableName: string, fileId: Value, timestamp: Value, ossUrl: Value,
                      fileType: Value, tags: Value, userId: Value, species: Value, count: Value,
                      thumbnailUrl: Value, now: int)
    requires CheckRequest(ts, tableName, RecordKey(fileId, timestamp), Ignore).None?
    requires Truthy(timestamp)
    ensures RecordByFileId(Put(ts, tableName, RecordKey(fileId, timestamp),
        MediaColumns(ossUrl, fileType, tags, userId, species, count, thumbnailUrl), now), tableName, fileId, timestamp)
      == Ok(Some(MediaFields(fileId, timestamp, ossUrl, fileType, tags, userId, species, count, thumbnailUrl)))
  {
    var cols := MediaColumns(ossUrl, fileType, tags, userId, species, count, thumbnailUrl);
    PutThenLookup(ts, tableName, RecordKey(fileId, timestamp), cols, now, tableName, RecordKey(fileId, timestamp));
    FlattenCreatedRow(fileId, timestamp, ossUrl, fileType, tags, userId, species, count, thumbnailUrl, now);
  }

  /** Once `delete_media_record` has succeeded, the record reads back as absent. */
  lemma DeleteThenGet(ts: Tables, tableName: string, fileId: Value, timestamp: Value)
    requires CheckRequest(ts, tableName, RecordKey(fileId, timestamp), ExpectExist).None?
    requires Truthy(timestamp)
    ensures RecordByFileId(Delete(ts, tableName, RecordKey(fileId, timestamp)), tableName, fileId, timestamp) == Ok(None)
  {
    assert QueryKey(fileId, timestamp) == RecordKey(fileId, timestamp);
    DeleteThenLookup(ts, tableName, RecordKey(fileId, timestamp), tableName, RecordKey(fileId, timestamp));
  }

  /**
   * Creating or deleting one record leaves every other record as it reads:
   * a lookup of any other key in any table gives what it gave before.
   */
  lemma OthersUntouched(ts: Tables, tableName: string, fileId: Value, timestamp: Value,
                        cols: seq<(string, Value)>, now: int,
                        tableName2: string, fileId2: Value, timestamp2: Value)
    requires tableName in ts
    requires (tableName2, QueryKey(fileId2, timestamp2)) != (tableName, RecordKey(fileId, timestamp))
    ensures RecordByFileId(Put(ts, tableName, RecordKey(fileId, timestamp), cols, now), tableName2, fileId2, timestamp2)
      == RecordByFileId(ts, tableName2, fileId2, timestamp2)
    ensures RecordByFileId(Delete(ts, tableName, RecordKey(fileId, timestamp)), tableName2, fileId2, timestamp2)
      == RecordByFileId(ts, tableName2, fileId2, timestamp2)
  {
    PutKeepsOthers(ts, tableName, RecordKey(fileId, timestamp), cols, now, tableName2, QueryKey(fileId2, timestamp2));
    DeleteKeepsOthers(ts, tableName, RecordKey(fileId, timestamp), tableName2, QueryKey(fileId2, timestamp2));
  }

  /**
   * A falsy timestamp (0 or None) does not find the latest record: the key
   * holds None, which the client refuses, so the call raises.
   */
  lemma FalsyTimestampRaises(ts: Tables, tableName: string, fileId: Value, timestamp: Value)
    requires !Truthy(timestamp)
    ensures RecordByFileId(ts, tableName, fileId, timestamp)
      == Err(QueryFailure(ClientError("primary key value must not be None")))
  {
    var pk := QueryKey(fileId, timestamp);
    assert pk[1].1 == VNone;
    assert CheckRequest(ts, tableName, pk, Ignore) == Some(ClientError("primary key value must not be None"));
  }

  /** A lookup that finds a row returns a record holding the key it was looked up by. */
  lemma FoundRecordHasKey(ts: Tables, tableName: string, fileId: Value, timestamp: Value)
    requires RecordByFileId(ts, tableName, fileId, timestamp).Ok?
    requires RecordByFileId(ts, tableName, fileId, timestamp).value.Some?
    requires forall c :: c in ts[tableName][QueryKey(fileId, timestamp)] ==> c.name != "file_id" && c.name != "timestamp"
    ensures var record := RecordByFileId(ts, tableName, fileId, timestamp).value.value;
      "file_id" in record && record["file_id"] == fileId && "timestamp" in record && record["timestamp"] == timestamp
  {
    var pk := QueryKey(fileId, timestamp);
    var row := Row(pk, ts[tableName][pk]);
    FlattenKeepsKey(row, 0);
    FlattenKeepsKey(row, 1);
  }
}
