/**
 * The query gateway function: it reads the search parameters from the
 * request body, refuses `minimum_should_match` above 1, fills in defaults
 * and answers with the flat records the search returns.
 */
module QueryHandler {
  import opened Wrappers
  import opened JsonValue
  import opened TableStore
  import opened MultiTagQuery
  import opened HttpTrigger

  const MsmTooLarge := "minimum_should_match must be less than or equal to 1"
  /** `int(2e9)`, the default upper bound on `count`. */
  const DefaultCountMax := 2000000000

  /** The response, and the search request sent on the way to it, if any. */
  datatype QueryOutcome = QueryOutcome(response: HttpOutcome, issued: Option<SearchRequest>)

  /** `"minimum_should_match" in req_body and req_body["minimum_should_match"] > 1`; None where it raises. */
  function MsmAboveOne(body: Json): Option<bool> {
    match PyIn("minimum_should_match", body)
    case None => None
    case Some(false) => Some(false)
    case Some(true) =>
      match Field(body, "minimum_should_match")
      case None => None
      case Some(v) => PyGreater(v, 1)
  }

  /** The search parameters read with `req_body.get`, the three numbers through `int()`. */
  datatype Params = Params(species: Json, speciesNot: Json, countMin: int, countMax: int, msm: int)

  function ReadParams(fields: map<string, Json>): Option<Params> {
    var countMin := PyInt(GetOr(fields, "count_min", JInt(1)));
    var countMax := PyInt(GetOr(fields, "count_max", JInt(DefaultCountMax)));
    var msm := PyInt(GetOr(fields, "minimum_should_match", JInt(1)));
    if countMin.None? || countMax.None? || msm.None? then None
    else Some(Params(GetOr(fields, "species", JArr([])), GetOr(fields, "species_not", JArr([])),
                     countMin.value, countMax.value, msm.value))
  }

  function RequestFor(p: Params): Option<SearchRequest> {
    if Terms(p.species).None? || Terms(p.speciesNot).None? then None
    else Some(Request(DefaultTable, DefaultIndex, p.countMin, p.countMax, Terms(p.species).value, p.msm,
                      Terms(p.speciesNot).value))
  }

  /** `handler` of the query function, with the search service given. */
  function Handle(event: string, codecs: Codecs, search: Search): QueryOutcome {
    match ReadRequest(event, codecs)
    case Stop(outcome) => QueryOutcome(outcome, None)
    case Parsed(body) =>
      match MsmAboveOne(body)
      case None => QueryOutcome(Crash("TypeError: minimum_should_match cannot be compared with 1"), None)
      case Some(true) => QueryOutcome(Http(400, Message("error", MsmTooLarge)), None)
      case Some(false) =>
        if !body.JObj? then QueryOutcome(Crash("AttributeError: the body has no attribute 'get'"), None)
        else match ReadParams(body.fields)
          case None => QueryOutcome(Crash("ValueError: invalid literal for int()"), None)
          case Some(p) =>
            var result := MultiConditionQuery(search, DefaultTable, DefaultIndex, p.countMin, p.countMax,
                                              p.species, p.msm, p.speciesNot, false);
            var response := match result
              case Err(e) => Crash(e)
              case Ok(rows) => Http(200, RowsJson(rows));
            QueryOutcome(response, RequestFor(p))
  }

  /** An event that is not JSON, or has no `body`, is answered with a string and no search is made. */
  lemma NoBodyNoSearch(event: string, codecs: Codecs, search: Search)
    requires codecs.loads(event).Err? || (codecs.loads(event).value.JObj? && "body" !in codecs.loads(event).value.fields)
    ensures Handle(event, codecs, search).issued.None?
    ensures Handle(event, codecs, search).response.Text?
  {
  }

  /** `minimum_should_match` above 1 is answered with 400 and no search is made. */
  lemma AboveOneRejected(event: string, codecs: Codecs, search: Search, fields: map<string, Json>, n: int)
    requires ReadRequest(event, codecs) == Parsed(JObj(fields))
    requires "minimum_should_match" in fields && fields["minimum_should_match"] == JInt(n) && n > 1
    ensures Handle(event, codecs, search) == QueryOutcome(Http(400, Message("error", MsmTooLarge)), None)
  {
    assert MsmAboveOne(JObj(fields)) == Some(true);
  }

  /**
   * A value of at most 1, 0 and negative values included, passes the check
   * and is the one the search request carries, whatever the other fields are.
   */
  lemma AtMostOnePasses(event: string, codecs: Codecs, search: Search, fields: map<string, Json>, n: int)
    requires ReadRequest(event, codecs) == Parsed(JObj(fields))
    requires "minimum_should_match" in fields && fields["minimum_should_match"] == JInt(n) && n <= 1
    requires ReadParams(fields).Some?
    ensures MsmAboveOne(JObj(fields)) == Some(false)
    ensures ReadParams(fields).value.msm == n
    ensures Handle(event, codecs, search).issued == RequestFor(ReadParams(fields).value)
    ensures Handle(event, codecs, search).issued.Some? ==>
      Handle(event, codecs, search).issued.value.query.minimumShouldMatch == n
  {
    assert MsmAboveOne(JObj(fields)) == Some(false);
    SearchIssued(event, codecs, search, fields, ReadParams(fields).value);
  }

  /**
   * Each field the body leaves out takes its default, whatever the other
   * fields are: no species terms, counts from 1 to 2e9, one match required.
   */
  lemma Defaults(event: string, codecs: Codecs, search: Search, fields: map<string, Json>)
    requires ReadRequest(event, codecs) == Parsed(JObj(fields))
    requires MsmAboveOne(JObj(fields)) == Some(false) && ReadParams(fields).Some?
    ensures var p := ReadParams(fields).value;
      && ("count_min" !in fields ==> p.countMin == 1)
      && ("count_max" !in fields ==> p.countMax == DefaultCountMax)
      && ("minimum_should_match" !in fields ==> p.msm == 1)
      && ("species" !in fields ==> Terms(p.species) == Some([]))
      && ("species_not" !in fields ==> Terms(p.speciesNot) == Some([]))
    ensures Handle(event, codecs, search).issued == RequestFor(ReadParams(fields).value)
    ensures var issued := Handle(event, codecs, search).issued;
      && ("species" !in fields && "species_not" !in fields ==> issued.Some?)
      && (issued.Some? ==>
            && ("count_min" !in fields ==> issued.value.query.countMin == 1)
            && ("count_max" !in fields ==> issued.value.query.countMax == DefaultCountMax)
            && ("minimum_should_match" !in fields ==> issued.value.query.minimumShouldMatch == 1)
            && ("species" !in fields ==> issued.value.query.should == [])
            && ("species_not" !in fields ==> issued.value.query.mustNot == []))
  {
    var p := ReadParams(fields).value;
    ParamDefaults(fields);
    SearchIssued(event, codecs, search, fields, p);
    RequestCarries(p);
  }

  /** `req_body.get(field, default)`: a field left out reads as its default. */
  lemma ParamDefaults(fields: map<string, Json>)
    requires ReadParams(fields).Some?
    ensures var p := ReadParams(fields).value;
      && ("count_min" !in fields ==> p.countMin == 1)
      && ("count_max" !in fields ==> p.countMax == DefaultCountMax)
      && ("minimum_should_match" !in fields ==> p.msm == 1)
      && ("species" !in fields ==> Terms(p.species) == Some([]))
      && ("species_not" !in fields ==> Terms(p.speciesNot) == Some([]))
  {
    var p := ReadParams(fields).value;
    if "species" !in fields {
      assert p.species == JArr([]);
    }
    if "species_not" !in fields {
      assert p.speciesNot == JArr([]);
    }
  }

  /** The request for some parameters carries them, and is made whenever both term lists can be iterated. */
  lemma RequestCarries(p: Params)
    ensures RequestFor(p).Some? <==> Terms(p.species).Some? && Terms(p.speciesNot).Some?
    ensures RequestFor(p).Some? ==>
      var q := RequestFor(p).value.query;
      && q.countMin == p.countMin && q.countMax == p.countMax && q.minimumShouldMatch == p.msm
      && q.should == Terms(p.species).value && q.mustNot == Terms(p.speciesNot).value
  {
  }

  /** The empty body searches with all the defaults. */
  lemma EmptyBodyDefaults(event: string, codecs: Codecs, search: Search)
    requires ReadRequest(event, codecs) == Parsed(JObj(map[]))
    ensures Handle(event, codecs, search).issued == Some(Request(DefaultTable, DefaultIndex, 1, DefaultCountMax, [], 1, []))
  {
    assert MsmAboveOne(JObj(map[])) == Some(false);
    var p := Params(JArr([]), JArr([]), 1, DefaultCountMax, 1);
    assert ReadParams(map[]) == Some(p);
    SearchIssued(event, codecs, search, map[], p);
  }

  /** Parameters that `int()` cannot read make the handler raise, and no search is made. */
  lemma UnreadableNumberRaises(event: string, codecs: Codecs, search: Search, fields: map<string, Json>)
    requires ReadRequest(event, codecs) == Parsed(JObj(fields))
    requires MsmAboveOne(JObj(fields)) == Some(false) && ReadParams(fields).None?
    ensures Handle(event, codecs, search).issued.None?
    ensures Handle(event, codecs, search).response.Crash?
  {
  }

  /** Once the check passes and the parameters are read, the request for them is the one issued. */
  lemma SearchIssued(event: string, codecs: Codecs, search: Search, fields: map<string, Json>, p: Params)
    requires ReadRequest(event, codecs) == Parsed(JObj(fields))
    requires MsmAboveOne(JObj(fields)) == Some(false) && ReadParams(fields) == Some(p)
    ensures Handle(event, codecs, search).issued == RequestFor(p)
  {
  }

  /**
   * When the search succeeds the answer is 200 with the flat records, one per
   * row in the order returned; with a search service that implements the
   * request there are at most 100 of them.
   */
  lemma SuccessBody(event: string, codecs: Codecs, search: Search)
    requires Handle(event, codecs, search).issued.Some?
    requires var req := Handle(event, codecs, search).issued.value; search(req).Ok?
    ensures var req := Handle(event, codecs, search).issued.value;
      var rows := search(req).value;
      && Handle(event, codecs, search).response
         == Http(200, JArr(seq(|rows|, i requires 0 <= i < |rows| => RecordJson(Flatten(rows[i])))))
      && (Honours(req, rows) ==> |rows| <= Limit)
  {
    var body := ReadRequest(event, codecs).body;
    var p := ReadParams(body.fields).value;
    var req := Handle(event, codecs, search).issued.value;
    var rows := search(req).value;
    assert MultiConditionQuery(search, DefaultTable, DefaultIndex, p.countMin, p.countMax, p.species, p.msm,
                               p.speciesNot, false) == Ok(FlatRows(Simplified(rows)));
    var records := Simplified(rows);
    assert seq(|records|, i requires 0 <= i < |records| => RecordJson(records[i]))
        == seq(|rows|, i requires 0 <= i < |rows| => RecordJson(Flatten(rows[i])));
  }
}
