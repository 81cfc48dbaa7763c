/**
 * `multi_condition_query` and `simplify_rows`: the Boolean search request
 * sent to the table store's search index, the filter that request states,
 * and the flattening of the rows that come back.
 */
module MultiTagQuery {
  import opened Wrappers
  import opened JsonValue
  import opened TableStore
  import opened Tally

  const DefaultTable := "bird_media_meta"
  const DefaultIndex := "bird_media_index"
  /** The most rows one search returns. */
  const Limit := 100

  /** A stored column value as JSON, for comparing it with a term and for the response body. */
  function ToJson(v: Value): (j: Json)
    ensures j.JNull? <==> v.VNone?
  {
    match v
    case VNone => JNull
    case VBool(b) => JBool(b)
    case VInt(i) => JInt(i)
    case VStr(s) => JStr(s)
  }

  /** A flat record as the JSON object `json.dumps` writes. */
  function RecordJson(r: Record): (j: Json)
    ensures j.JObj? && j.fields.Keys == r.Keys
    ensures forall k :: k in r ==> j.fields[k] == ToJson(r[k])
  {
    JObj(map k | k in r :: ToJson(r[k]))
  }

  /**
   * The Boolean query: two range clauses on `count` (must), one term clause
   * on `species` per excluded value (must-not) and one per included value
   * (should), of which at least `minimumShouldMatch` must hold when there
   * are any.
   */
  datatype BoolQuery = BoolQuery(countMin: int, countMax: int, mustNot: seq<Json>, should: seq<Json>,
                                 minimumShouldMatch: int)

  /** The whole search request: query, sort on `count`, row limit and whether the total is counted. */
  datatype SearchRequest = SearchRequest(table: string, index: string, query: BoolQuery,
                                         sortField: string, ascending: bool, limit: nat, getTotalCount: bool)

  function SpeciesOf(r: Record): Option<Json> {
    if "species" in r then Some(ToJson(r["species"])) else None
  }

  function CountOf(r: Record): Option<int> {
    if "count" in r && r["count"].VInt? then Some(r["count"].i) else None
  }

  /** How many should clauses a record satisfies: one per occurrence of its species among them. */
  function ShouldHits(should: seq<Json>, r: Record): nat {
    match SpeciesOf(r)
    case None => 0
    case Some(s) => Count(should, s)
  }

  /** What the search index keeps for a query. */
  predicate Matches(q: BoolQuery, r: Record) {
    && CountOf(r).Some? && q.countMin <= CountOf(r).value && CountOf(r).value <= q.countMax
    && (forall i :: 0 <= i < |q.mustNot| ==> SpeciesOf(r) != Some(q.mustNot[i]))
    && (|q.should| == 0 || ShouldHits(q.should, r) >= q.minimumShouldMatch)
  }

  /**
   * The filter described by the query's parameters when at most one include
   * term must match: a count in the closed range, a species not excluded,
   * and, when there are include terms and one is required, a species among them.
   */
  predicate Wanted(r: Record, countMin: int, countMax: int, includeTerms: seq<Json>, excludeTerms: seq<Json>, msm: int) {
    && CountOf(r).Some? && countMin <= CountOf(r).value <= countMax
    && (SpeciesOf(r).None? || SpeciesOf(r).value !in excludeTerms)
    && (includeTerms == [] || msm <= 0 || (SpeciesOf(r).Some? && SpeciesOf(r).value in includeTerms))
  }

  /** The terms `for s in v` yields; None becomes the empty list. */
  function Terms(v: Json): (r: Option<seq<Json>>)
    ensures v == JNull ==> r == Some([])
  {
    if v == JNull then Some([]) else Iterate(v)
  }

  /** The request `multi_condition_query` sends. */
  function Request(tableName: string, indexName: string, countMin: int, countMax: int,
                   includeTerms: seq<Json>, msm: int, excludeTerms: seq<Json>): (req: SearchRequest)
    ensures req.query.countMin == countMin && req.query.countMax == countMax
    ensures req.query.should == includeTerms && req.query.mustNot == excludeTerms && req.query.minimumShouldMatch == msm
    ensures req.sortField == "count" && req.ascending && req.limit == Limit && req.getTotalCount
  {
    SearchRequest(tableName, indexName, BoolQuery(countMin, countMax, excludeTerms, includeTerms, msm), "count", true, Limit, true)
  }

  /** `simplify_rows` as a function: one flat record per row, in order. */
  function Simplified(rows: seq<Row>): (records: seq<Record>)
    ensures |records| == |rows|
    ensures forall i :: 0 <= i < |rows| ==> records[i] == Flatten(rows[i])
  {
    seq(|rows|, i requires 0 <= i < |rows| => Flatten(rows[i]))
  }

  /** `simplify_rows`: the loop over the rows, each flattened by the two inner loops. */
  method SimplifyRows(rows: seq<Row>) returns (result: seq<Record>)
    ensures result == Simplified(rows)
  {
    result := [];
    var i := 0;
    while i < |rows|
      invariant 0 <= i <= |rows|
      invariant result == Simplified(rows[..i])
    {
      var record := FlattenRow(rows[i]);
      result := result + [record];
      i := i + 1;
    }
    assert rows[..i] == rows;
  }

  /** The search service: the rows it returns for a request, or the error it raises. */
  type Search = SearchRequest -> Result<seq<Row>>

  /** What a search service that implements the request returns: few enough rows, all matching, sorted by count. */
  predicate Honours(req: SearchRequest, rows: seq<Row>) {
    && |rows| <= req.limit
    && (forall i :: 0 <= i < |rows| ==> Matches(req.query, Flatten(rows[i])))
    && (forall i, j :: 0 <= i < j < |rows| && CountOf(Flatten(rows[i])).Some? && CountOf(Flatten(rows[j])).Some? ==>
          (if req.ascending then CountOf(Flatten(rows[i])).value <= CountOf(Flatten(rows[j])).value
           else CountOf(Flatten(rows[i])).value >= CountOf(Flatten(rows[j])).value))
  }

  datatype QueryRows = RawRows(rows: seq<Row>) | FlatRows(records: seq<Record>)

  /** A raw row as `json.dumps` writes its tuples: `[[[name, value], ...], [[name, value, ts], ...]]`. */
  function RawRowJson(row: Row): Json {
    JArr([JArr(seq(|row.primaryKey|, i requires 0 <= i < |row.primaryKey| =>
                 JArr([JStr(row.primaryKey[i].0), ToJson(row.primaryKey[i].1)]))),
          JArr(seq(|row.attributes|, i requires 0 <= i < |row.attributes| =>
                 JArr([JStr(row.attributes[i].name), ToJson(row.attributes[i].value), JInt(row.attributes[i].ts)])))])
  }

  /** The list `multi_condition_query` returns, as JSON. */
  function RowsJson(q: QueryRows): (j: Json)
    ensures j.JArr? && |j.items| == (if q.RawRows? then |q.rows| else |q.records|)
  {
    match q
    case RawRows(rows) => JArr(seq(|rows|, i requires 0 <= i < |rows| => RawRowJson(rows[i])))
    case FlatRows(records) => JArr(seq(|records|, i requires 0 <= i < |records| => RecordJson(records[i])))
  }

  /**
   * `multi_condition_query`: a `species` or `species_not` of None counts as
   * empty, every other value is iterated for its terms; the search result is
   * returned as is with `originalOutput`, simplified otherwise.
   */
  function MultiConditionQuery(search: Search, tableName: string, indexName: string, countMin: int, countMax: int,
                               species: Json, msm: int, speciesNot: Json, originalOutput: bool): Result<QueryRows>
  {
    if Terms(species).None? || Terms(speciesNot).None? then
      Err("TypeError: the species terms are not iterable")
    else
      match search(Request(tableName, indexName, countMin, countMax, Terms(species).value, msm, Terms(speciesNot).value))
      case Err(e) => Err(e)
      case Ok(rows) => Ok(if originalOutput then RawRows(rows) else FlatRows(Simplified(rows)))
  }

  /**
   * With at most one required match, the query keeps exactly the records the
   * parameters describe: inclusive count bounds, excluded species dropped,
   * included species kept.
   */
  lemma MatchesWanted(countMin: int, countMax: int, includeTerms: seq<Json>, excludeTerms: seq<Json>, msm: int, r: Record)
    requires msm <= 1
    ensures Matches(BoolQuery(countMin, countMax, excludeTerms, includeTerms, msm), r)
        <==> Wanted(r, countMin, countMax, includeTerms, excludeTerms, msm)
  {
    if SpeciesOf(r).Some? {
      CountPositive(includeTerms, SpeciesOf(r).value);
    }
  }

  /**
   * One record has one species, so it satisfies at most one should clause
   * per distinct term: given distinct include terms, a requirement of two or
   * more matches keeps nothing.
   */
  lemma MoreThanOneMatchKeepsNothing(q: BoolQuery, r: Record)
    requires q.minimumShouldMatch > 1 && |q.should| > 0 && NoDuplicates(q.should)
    ensures !Matches(q, r)
  {
    if SpeciesOf(r).Some? {
      CountNoDuplicates(q.should, SpeciesOf(r).value);
    }
  }

  /** With at most one required match, repeated include terms change nothing: they act as a set. */
  lemma IncludeTermsActAsSet(countMin: int, countMax: int, includeTerms: seq<Json>, excludeTerms: seq<Json>, msm: int, r: Record)
    requires msm <= 1
    ensures Matches(BoolQuery(countMin, countMax, excludeTerms, includeTerms, msm), r)
        <==> Matches(BoolQuery(countMin, countMax, excludeTerms, Distinct(includeTerms), msm), r)
  {
    MatchesWanted(countMin, countMax, includeTerms, excludeTerms, msm, r);
    MatchesWanted(countMin, countMax, Distinct(includeTerms), excludeTerms, msm, r);
    DistinctSpec(includeTerms);
    if includeTerms != [] {
      assert includeTerms[0] in Distinct(includeTerms);
    }
  }

  /** A record that meets a query with include terms and at least one required match has one of those species. */
  lemma IncludedSpecies(q: BoolQuery, r: Record)
    requires Matches(q, r) && |q.should| > 0 && q.minimumShouldMatch >= 1
    ensures SpeciesOf(r).Some? && SpeciesOf(r).value in q.should
  {
    CountPositive(q.should, SpeciesOf(r).value);
  }

  /**
   * What a successful call returns when the search service implements the
   * request: at most 100 flat records, each with its count in the closed
   * range, a species not excluded and, when include terms are given and at
   * least one must match, a species among them, in ascending order of count.
   */
  lemma QueryResultProperties(search: Search, tableName: string, indexName: string, countMin: int, countMax: int,
                              species: Json, msm: int, speciesNot: Json)
    requires Terms(species).Some? && Terms(speciesNot).Some?
    requires var req := Request(tableName, indexName, countMin, countMax, Terms(species).value, msm, Terms(speciesNot).value);
      search(req).Ok? ==> Honours(req, search(req).value)
    requires MultiConditionQuery(search, tableName, indexName, countMin, countMax, species, msm, speciesNot, false).Ok?
    ensures var out := MultiConditionQuery(search, tableName, indexName, countMin, countMax, species, msm, speciesNot, false).value;
      && out.FlatRows? && |out.records| <= Limit
      && (forall i :: 0 <= i < |out.records| ==>
            CountOf(out.records[i]).Some? && countMin <= CountOf(out.records[i]).value <= countMax
            && (SpeciesOf(out.records[i]).None? || SpeciesOf(out.records[i]).value !in Terms(speciesNot).value)
            && (Terms(species).value == [] || msm <= 0 ||
                (SpeciesOf(out.records[i]).Some? && SpeciesOf(out.records[i]).value in Terms(species).value)))
      && (forall i, j :: 0 <= i < j < |out.records| ==> CountOf(out.records[i]).value <= CountOf(out.records[j]).value)
  {
    var req := Request(tableName, indexName, countMin, countMax, Terms(species).value, msm, Terms(speciesNot).value);
    var rows := search(req).value;
    var out := MultiConditionQuery(search, tableName, indexName, countMin, countMax, species, msm, speciesNot, false).value;
    assert out.records == Simplified(rows);
    forall i | 0 <= i < |out.records|
      ensures SpeciesOf(out.records[i]).None? || SpeciesOf(out.records[i]).value !in Terms(speciesNot).value
      ensures Terms(species).value == [] || msm <= 0 ||
        (SpeciesOf(out.records[i]).Some? && SpeciesOf(out.records[i]).value in Terms(species).value)
    {
      assert Matches(req.query, Flatten(rows[i]));
      if Terms(species).value != [] && msm > 0 {
        IncludedSpecies(req.query, Flatten(rows[i]));
      }
    }
  }
}
