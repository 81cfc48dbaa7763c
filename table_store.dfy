/**
 * The Tablestore table the media records live in: rows keyed by their
 * primary-key columns, each holding attribute columns stamped with the time
 * they were written, and the SDK calls the project makes on it (`put_row`,
 * `delete_row`, `get_row`). Rows as the SDK returns them are flattened into
 * one dictionary by `simplify_rows` and `get_record_by_file_id` alike.
 */
module TableStore {
  import opened Wrappers

  /** The column values the project stores: None, booleans, integers and strings. */
  datatype Value = VNone | VBool(b: bool) | VInt(i: int) | VStr(s: string)

  /** Python's `bool(v)`. */
  predicate Truthy(v: Value) {
    match v
    case VNone => false
    case VBool(b) => b
    case VInt(i) => i != 0
    case VStr(s) => s != ""
  }

  type PrimaryKey = seq<(string, Value)>

  /** An attribute column as a read returns it: name, value and write timestamp. */
  datatype Column = Column(name: string, value: Value, ts: int)

  /** A row as the SDK returns it: `primary_key` and `attribute_columns`. */
  datatype Row = Row(primaryKey: PrimaryKey, attributes: seq<Column>)

  type Table = map<PrimaryKey, seq<Column>>
  type Tables = map<string, Table>

  /** The error an SDK call raises: raised by the client itself, or returned by the service. */
  datatype StoreError = ClientError(message: string) | ServiceError(code: string, message: string)

  /** `str(e)` of the SDK's exceptions. */
  function ErrorText(e: StoreError): string {
    match e
    case ClientError(m) => m
    case ServiceError(c, m) => "ErrorCode: " + c + ", ErrorMessage: " + m
  }

  datatype RowExistence = Ignore | ExpectExist | ExpectNotExist

  /** The media table's schema: `file_id` a string, then `timestamp` an integer. */
  predicate WellFormedKey(pk: PrimaryKey) {
    |pk| == 2 && pk[0].0 == "file_id" && pk[0].1.VStr? && pk[1].0 == "timestamp" && pk[1].1.VInt?
  }

  /**
   * Why a request on `pk` in `table` fails, if it does: the client refuses a
   * None key value, the service refuses a missing table, a key that does not
   * match the schema and a row-existence condition that does not hold.
   */
  function CheckRequest(ts: Tables, table: string, pk: PrimaryKey, cond: RowExistence): (r: Option<StoreError>)
    ensures r.None? <==> (table in ts && WellFormedKey(pk) &&
      (cond == ExpectExist ==> pk in ts[table]) && (cond == ExpectNotExist ==> pk !in ts[table]))
  {
    if exists i :: 0 <= i < |pk| && pk[i].1 == VNone then
      Some(ClientError("primary key value must not be None"))
    else if table !in ts then
      Some(ServiceError("OTSObjectNotExist", "Requested table does not exist."))
    else if !WellFormedKey(pk) then
      Some(ServiceError("OTSParameterInvalid", "Validate PK name or type fail."))
    else if cond == ExpectExist && pk !in ts[table] then
      Some(ServiceError("OTSConditionCheckFail", "Condition check failed."))
    else if cond == ExpectNotExist && pk in ts[table] then
      Some(ServiceError("OTSConditionCheckFail", "Condition check failed."))
    else None
  }

  /** Stored attribute columns carry the time of the write. */
  function Stamp(attrs: seq<(string, Value)>, now: int): (cols: seq<Column>)
    ensures |cols| == |attrs|
    ensures forall i :: 0 <= i < |attrs| ==> cols[i] == Column(attrs[i].0, attrs[i].1, now)
  {
    seq(|attrs|, i requires 0 <= i < |attrs| => Column(attrs[i].0, attrs[i].1, now))
  }

  /** The name and value of each attribute column, timestamps dropped. */
  function Pairs(cols: seq<Column>): (kvs: seq<(string, Value)>)
    ensures |kvs| == |cols|
    ensures forall i :: 0 <= i < |cols| ==> kvs[i] == (cols[i].name, cols[i].value)
  {
    seq(|cols|, i requires 0 <= i < |cols| => (cols[i].name, cols[i].value))
  }

  /** Reading back what was written gives the written names and values. */
  lemma PairsStamp(attrs: seq<(string, Value)>, now: int)
    ensures Pairs(Stamp(attrs, now)) == attrs
  {
  }

  /** `put_row`: the whole row is replaced; every other row and table is kept. */
  function Put(ts: Tables, table: string, pk: PrimaryKey, attrs: seq<(string, Value)>, now: int): Tables
    requires table in ts
  {
    ts[table := ts[table][pk := Stamp(attrs, now)]]
  }

  /** `delete_row`. */
  function Delete(ts: Tables, table: string, pk: PrimaryKey): Tables
    requires table in ts
  {
    ts[table := ts[table] - {pk}]
  }

  /** What an SDK call returns, or the error it raises. */
  datatype Reply<+T> = Done(value: T) | Failed(error: StoreError)

  /** `get_row`: the row, or None when no row has that key. */
  function Lookup(ts: Tables, table: string, pk: PrimaryKey): (r: Reply<Option<Row>>)
    ensures r.Done? <==> CheckRequest(ts, table, pk, Ignore).None?
    ensures r.Failed? ==> r.error == CheckRequest(ts, table, pk, Ignore).value
    ensures r.Done? ==> (r.value.Some? <==> pk in ts[table])
    ensures r.Done? && r.value.Some? ==> r.value.value == Row(pk, ts[table][pk])
  {
    match CheckRequest(ts, table, pk, Ignore)
    case Some(e) => Failed(e)
    case None => Done(if pk in ts[table] then Some(Row(pk, ts[table][pk])) else None)
  }

  /** A put overwrites only its own row: a read of that key returns what was put, a read of any other key is unchanged. */
  lemma PutThenLookup(ts: Tables, table: string, pk: PrimaryKey, attrs: seq<(string, Value)>, now: int,
                      table2: string, pk2: PrimaryKey)
    requires table in ts && CheckRequest(ts, table, pk, Ignore).None?
    ensures Lookup(Put(ts, table, pk, attrs, now), table, pk) == Done(Some(Row(pk, Stamp(attrs, now))))
    ensures (table2, pk2) != (table, pk) ==>
      Lookup(Put(ts, table, pk, attrs, now), table2, pk2) == Lookup(ts, table2, pk2)
  {
  }

  /** Reads of other keys do not see a put, whether or not the put itself was accepted. */
  lemma PutKeepsOthers(ts: Tables, table: string, pk: PrimaryKey, attrs: seq<(string, Value)>, now: int,
                       table2: string, pk2: PrimaryKey)
    requires table in ts && (table2, pk2) != (table, pk)
    ensures Lookup(Put(ts, table, pk, attrs, now), table2, pk2) == Lookup(ts, table2, pk2)
  {
    var ts' := Put(ts, table, pk, attrs, now);
    assert table2 in ts' <==> table2 in ts;
    if table2 in ts {
      assert pk2 in ts'[table2] <==> pk2 in ts[table2];
      if pk2 in ts[table2] {
        assert ts'[table2][pk2] == ts[table2][pk2];
      }
    }
  }

  /** Reads of other keys do not see a delete. */
  lemma DeleteKeepsOthers(ts: Tables, table: string, pk: PrimaryKey, table2: string, pk2: PrimaryKey)
    requires table in ts && (table2, pk2) != (table, pk)
    ensures Lookup(Delete(ts, table, pk), table2, pk2) == Lookup(ts, table2, pk2)
  {
    var ts' := Delete(ts, table, pk);
    assert table2 in ts' <==> table2 in ts;
    if table2 in ts {
      assert pk2 in ts'[table2] <==> pk2 in ts[table2];
      if pk2 in ts[table2] {
        assert ts'[table2][pk2] == ts[table2][pk2];
      }
    }
  }

  /** After a delete the key reads back as absent, and every other key reads as before. */
  lemma DeleteThenLookup(ts: Tables, table: string, pk: PrimaryKey, table2: string, pk2: PrimaryKey)
    requires table in ts && CheckRequest(ts, table, pk, ExpectExist).None?
    ensures Lookup(Delete(ts, table, pk), table, pk) == Done(None)
    ensures (table2, pk2) != (table, pk) ==>
      Lookup(Delete(ts, table, pk), table2, pk2) == Lookup(ts, table2, pk2)
  {
  }

  /** The shapes `get_row` answers in: a tuple `(consumed, row, next_token)` or the row alone. */
  datatype GetRowResponse =
    | Triple(consumed: int, row: Option<Row>, nextToken: Option<string>)
    | Bare(row: Option<Row>)

  /** The table service. `tupleResponses` fixes which of the two response shapes reads return. */
  class Store {
    var tables: Tables
    const tupleResponses: bool

    constructor (initial: Tables, tupleResponses: bool)
      ensures tables == initial && this.tupleResponses == tupleResponses
    {
      tables := initial;
      this.tupleResponses := tupleResponses;
    }

    method PutRow(table: string, pk: PrimaryKey, attrs: seq<(string, Value)>, cond: RowExistence, now: int)
      returns (r: Option<StoreError>)
      modifies this
      ensures r == CheckRequest(old(tables), table, pk, cond)
      ensures r.None? ==> tables == Put(old(tables), table, pk, attrs, now)
      ensures r.Some? ==> tables == old(tables)
    {
      r := CheckRequest(tables, table, pk, cond);
      if r.None? {
        tables := Put(tables, table, pk, attrs, now);
      }
    }

    method DeleteRow(table: string, pk: PrimaryKey, cond: RowExistence) returns (r: Option<StoreError>)
      modifies this
      ensures r == CheckRequest(old(tables), table, pk, cond)
      ensures r.None? ==> tables == Delete(old(tables), table, pk)
      ensures r.Some? ==> tables == old(tables)
    {
      r := CheckRequest(tables, table, pk, cond);
      if r.None? {
        tables := Delete(tables, table, pk);
      }
    }

    /** `get_row`: the stored row, or None, in this store's response shape. */
    function GetRow(table: string, pk: PrimaryKey): (r: Reply<GetRowResponse>)
      reads this
      ensures r.Done? <==> Lookup(tables, table, pk).Done?
      ensures r.Done? ==> r.value.row == Lookup(tables, table, pk).value && (r.value.Triple? <==> tupleResponses)
      ensures r.Failed? ==> r.error == Lookup(tables, table, pk).error
    {
      match Lookup(tables, table, pk)
      case Failed(e) => Failed(e)
      case Done(row) => Done(if tupleResponses then Triple(1, row, None) else Bare(row))
    }
  }

  /*
   * Flattening a row into one dictionary: the primary-key columns are written
   * first, then the attribute columns, each assignment replacing any earlier
   * value under the same name.
   */

  type Record = map<string, Value>

  /** `for k, v in kvs: m[k] = v`. */
  function Assign(m: Record, kvs: seq<(string, Value)>): Record
    decreases |kvs|
  {
    if |kvs| == 0 then m
    else Assign(m, kvs[..|kvs| - 1])[kvs[|kvs| - 1].0 := kvs[|kvs| - 1].1]
  }

  function Names(kvs: seq<(string, Value)>): set<string> {
    set i | 0 <= i < |kvs| :: kvs[i].0
  }

  /** The flat record of a row: primary key first, then attributes without their timestamps. */
  function Flatten(row: Row): Record {
    Assign(Assign(map[], row.primaryKey), Pairs(row.attributes))
  }

  /** The record holds exactly the names already there and the names assigned. */
  lemma {:induction false} AssignKeys(m: Record, kvs: seq<(string, Value)>)
    ensures Assign(m, kvs).Keys == m.Keys + Names(kvs)
    decreases |kvs|
  {
    if |kvs| > 0 {
      var init := kvs[..|kvs| - 1];
      AssignKeys(m, init);
      assert Names(kvs) == Names(init) + {kvs[|kvs| - 1].0} by {
        forall n | n in Names(kvs) ensures n in Names(init) + {kvs[|kvs| - 1].0} {
          var i :| 0 <= i < |kvs| && kvs[i].0 == n;
          if i < |kvs| - 1 {
            assert init[i] == kvs[i];
          }
        }
        forall n | n in Names(init) ensures n in Names(kvs) {
          var i :| 0 <= i < |init| && init[i].0 == n;
          assert kvs[i] == init[i];
        }
      }
    }
  }

  /** The value under a name is the one assigned last under it. */
  lemma {:induction false} AssignLastWins(m: Record, kvs: seq<(string, Value)>, i: nat)
    requires i < |kvs|
    requires forall j :: i < j < |kvs| ==> kvs[j].0 != kvs[i].0
    ensures kvs[i].0 in Assign(m, kvs) && Assign(m, kvs)[kvs[i].0] == kvs[i].1
    decreases |kvs|
  {
    if i < |kvs| - 1 {
      var init := kvs[..|kvs| - 1];
      assert init[i] == kvs[i];
      AssignLastWins(m, init, i);
    }
  }

  /** A name no pair assigns keeps its earlier value. */
  lemma {:induction false} AssignUntouched(m: Record, kvs: seq<(string, Value)>, k: string)
    requires k !in Names(kvs)
    ensures (k in Assign(m, kvs) <==> k in m) && (k in m ==> Assign(m, kvs)[k] == m[k])
    decreases |kvs|
  {
    if |kvs| > 0 {
      var init := kvs[..|kvs| - 1];
      assert kvs[|kvs| - 1].0 in Names(kvs);
      assert k !in Names(init);
      AssignUntouched(m, init, k);
    }
  }

  /** The flat record's names are the primary-key names and the attribute names. */
  lemma FlattenKeys(row: Row)
    ensures Flatten(row).Keys == Names(row.primaryKey) + Names(Pairs(row.attributes))
  {
    AssignKeys(map[], row.primaryKey);
    AssignKeys(Assign(map[], row.primaryKey), Pairs(row.attributes));
  }

  /** A primary-key column that no later key column and no attribute renames keeps its value. */
  lemma FlattenKeepsKey(row: Row, i: nat)
    requires i < |row.primaryKey|
    requires forall j :: i < j < |row.primaryKey| ==> row.primaryKey[j].0 != row.primaryKey[i].0
    requires forall j :: 0 <= j < |row.attributes| ==> row.attributes[j].name != row.primaryKey[i].0
    ensures row.primaryKey[i].0 in Flatten(row) && Flatten(row)[row.primaryKey[i].0] == row.primaryKey[i].1
  {
    var k := row.primaryKey[i].0;
    AssignLastWins(map[], row.primaryKey, i);
    var kvs := Pairs(row.attributes);
    assert k !in Names(kvs);
    AssignUntouched(Assign(map[], row.primaryKey), kvs, k);
  }

  /**
   * An attribute column's value is in the flat record unless a later attribute
   * has the same name; it wins over a primary-key column of that name.
   */
  lemma FlattenAttributeWins(row: Row, i: nat)
    requires i < |row.attributes|
    requires forall j :: i < j < |row.attributes| ==> row.attributes[j].name != row.attributes[i].name
    ensures row.attributes[i].name in Flatten(row) && Flatten(row)[row.attributes[i].name] == row.attributes[i].value
  {
    AssignLastWins(Assign(map[], row.primaryKey), Pairs(row.attributes), i);
  }

  /** Write timestamps play no part: rows that differ only in them flatten alike. */
  lemma FlattenIgnoresTimestamps(pk: PrimaryKey, a: seq<Column>, b: seq<Column>)
    requires |a| == |b|
    requires forall i :: 0 <= i < |a| ==> a[i].name == b[i].name && a[i].value == b[i].value
    ensures Flatten(Row(pk, a)) == Flatten(Row(pk, b))
  {
    assert Pairs(a) == Pairs(b);
  }

  /** The two loops that fill the record: key columns, then attribute columns. */
  method FlattenRow(row: Row) returns (record: Record)
    ensures record == Flatten(row)
  {
    record := map[];
    var i := 0;
    while i < |row.primaryKey|
      invariant 0 <= i <= |row.primaryKey|
      invariant record == Assign(map[], row.primaryKey[..i])
    {
      assert row.primaryKey[..i + 1][..i] == row.primaryKey[..i];
      record := record[row.primaryKey[i].0 := row.primaryKey[i].1];
      i := i + 1;
    }
    assert row.primaryKey[..i] == row.primaryKey;
    ghost var base := record;
    var kvs := Pairs(row.attributes);
    var j := 0;
    while j < |row.attributes|
      invariant 0 <= j <= |row.attributes|
      invariant record == Assign(base, kvs[..j])
    {
      assert kvs[..j + 1][..j] == kvs[..j];
      var column := row.attributes[j];
      record := record[column.name := column.value];
      j := j + 1;
    }
    assert kvs[..j] == kvs;
  }
}
