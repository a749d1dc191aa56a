/**
 * The `query_database` tool (main.py): the pool check, the SELECT-prefix
 * gate, and the shape of its JSON reply.
 *
 * The gate is the prefix test alone: `check_sql_injection` is not called on
 * this path, so text after a leading SELECT is never inspected.
 */
module QueryTool {
  import opened Wrappers
  import opened PyStr
  import opened Db

  const NOT_SELECT: string := "Only SELECT queries are allowed"

  /** `sql.strip().upper().startswith("SELECT")`: after some leading
      whitespace come six characters that upper-case to SELECT. */
  predicate SelectOnly(sql: string): (b: bool)
    ensures b <==> SelectAfterSpace(sql)
  {
    GateIff(sql);
    StartsWith(Upper(Strip(sql)), "SELECT")
  }

  /** What is handed to `conn.fetch`: the SQL text as given, and the
      positional arguments. */
  datatype Request = Request(sql: string, args: seq<Value>)

  /** The JSON object `query_database` returns. */
  datatype QueryReply =
    | Unavailable                            // {"error": UNAVAILABLE}
    | NotSelect                              // {"error": NOT_SELECT}
    | Rows(data: seq<Row>, rowCount: int)    // {"success": true, "data": ..., "row_count": ...}
    | Failed(error: string)                  // {"success": false, "error": str(e)}
  {
    /** The "success" key, absent from the two early errors. */
    function Success(): Option<bool> {
      match this
      case Unavailable | NotSelect => None
      case Rows(_, _) => Some(true)
      case Failed(_) => Some(false)
    }

    /** The "error" key. */
    function Error(): Option<string> {
      match this
      case Unavailable => Some(UNAVAILABLE)
      case NotSelect => Some(NOT_SELECT)
      case Rows(_, _) => None
      case Failed(e) => Some(e)
    }
  }

  /** `if params: fetch(sql, *params) else fetch(sql)`: no parameters and an
      empty list both send no arguments; otherwise every parameter is sent,
      in order. */
  function Args(params: Option<seq<Value>>): (a: seq<Value>)
    ensures a == [] <==> params == None || params == Some([])
    ensures params.Some? ==> |a| == |params.value| && forall i :: 0 <= i < |a| ==> a[i] == params.value[i]
  {
    match params
    case None => []
    case Some(ps) => ps
  }

  /** `query_database(sql, params)`. `poolReady` is whether the global pool
      is set; `fetch` is the database, consulted only when the gate allows. */
  function QueryDatabase(poolReady: bool, sql: string, params: Option<seq<Value>>,
                         fetch: Request -> Fetch<seq<Row>>): (r: QueryReply)
    ensures r == Unavailable <==> !poolReady
    ensures r == NotSelect <==> poolReady && !SelectOnly(sql)
    ensures r.Rows? <==> poolReady && SelectOnly(sql) && fetch(Request(sql, Args(params))).Fetched?
    ensures r.Rows? ==> fetch(Request(sql, Args(params))) == Fetched(r.data) && r.rowCount == |r.data|
    ensures r.Failed? ==> fetch(Request(sql, Args(params))) == Raised(r.error)
  {
    if !poolReady then Unavailable
    else if !SelectOnly(sql) then NotSelect
    else match fetch(Request(sql, Args(params)))
      case Fetched(records) => Rows(records, |records|)
      case Raised(message) => Failed(message)
  }

  /** `"success": true` is reported exactly when the pool exists, the gate
      allows the query and the database returns rows. */
  lemma SuccessExactlyWhenFetched(poolReady: bool, sql: string, params: Option<seq<Value>>,
                                  fetch: Request -> Fetch<seq<Row>>)
    ensures QueryDatabase(poolReady, sql, params, fetch).Success() == Some(true) <==>
      poolReady && SelectOnly(sql) && fetch(Request(sql, Args(params))).Fetched?
  {
    var r := QueryDatabase(poolReady, sql, params, fetch);
    assert r.Success() == Some(true) <==> r.Rows?;
  }

  // ---------------------------------------------------------------------
  // The gate

  /** The gate in terms of the input alone: after some leading whitespace
      come six characters that upper-case to SELECT. */
  predicate SelectAfterSpace(sql: string) {
    exists k :: 0 <= k && k + 6 <= |sql| && AllSpace(sql[..k]) && Upper(sql[k..k + 6]) == "SELECT"
  }

  lemma GateIff(sql: string)
    ensures StartsWith(Upper(Strip(sql)), "SELECT") <==> SelectAfterSpace(sql)
  {
    if StartsWith(Upper(Strip(sql)), "SELECT") {
      SelectOnlyGivesWitness(sql);
    }
    if SelectAfterSpace(sql) {
      var k :| 0 <= k && k + 6 <= |sql| && AllSpace(sql[..k]) && Upper(sql[k..k + 6]) == "SELECT";
      WitnessGivesSelectOnly(sql, k);
    }
  }

  lemma SelectOnlyGivesWitness(sql: string)
    requires StartsWith(Upper(Strip(sql)), "SELECT")
    ensures SelectAfterSpace(sql)
  {
    var r := Strip(sql);
    var k :| SpaceAround(sql, k, r);
    SelectAtSliceStart(sql, k, r);
  }

  /** A stripped slice that starts with SELECT puts SELECT right after the
      leading whitespace. */
  lemma SelectAtSliceStart(sql: string, k: int, r: string)
    requires SpaceAround(sql, k, r) && StartsWith(Upper(r), "SELECT")
    ensures SelectAfterSpace(sql)
  {
    UpperPrefix(r, 6);
    assert r[..6] == sql[k..k + 6];
    assert AllSpace(sql[..k]);
  }

  lemma WitnessGivesSelectOnly(sql: string, k: nat)
    requires k + 6 <= |sql| && AllSpace(sql[..k]) && Upper(sql[k..k + 6]) == "SELECT"
    ensures StartsWith(Upper(Strip(sql)), "SELECT")
  {
    var r := Strip(sql);
    var i :| SpaceAround(sql, i, r);
    SliceStartsAtSelect(sql, k, i, r);
  }

  /** SELECT after leading whitespace is where the stripped slice starts,
      and the slice runs at least to its T. */
  lemma SliceStartsAtSelect(sql: string, k: nat, i: int, r: string)
    requires k + 6 <= |sql| && AllSpace(sql[..k]) && Upper(sql[k..k + 6]) == "SELECT"
    requires SpaceAround(sql, i, r) && (r == [] || !IsSpace(r[0]))
    ensures StartsWith(Upper(r), "SELECT")
  {
    assert UpperChar(sql[k]) == Upper(sql[k..k + 6])[0];
    assert UpperChar(sql[k + 5]) == Upper(sql[k..k + 6])[5];
    assert !IsSpace(sql[k]) && !IsSpace(sql[k + 5]);
    assert i <= k;
    assert forall m :: 0 <= m < k ==> IsSpace(sql[..k][m]);
    assert r != [] ==> r[0] == sql[i];
    assert i == k;
    assert |r| >= 6;
    assert r[..6] == sql[k..k + 6];
    UpperPrefix(r, 6);
  }

  /** Whatever follows an allowed query is never inspected: appending any
      text, `; DROP TABLE t` included, keeps it allowed. */
  lemma AppendStaysAllowed(sql: string, rest: string)
    requires SelectOnly(sql)
    ensures SelectOnly(sql + rest)
  {
    AppendKeepsSelect(sql, rest);
  }

  lemma AppendKeepsSelect(sql: string, rest: string)
    requires SelectAfterSpace(sql)
    ensures SelectAfterSpace(sql + rest)
  {
    var k :| 0 <= k && k + 6 <= |sql| && AllSpace(sql[..k]) && Upper(sql[k..k + 6]) == "SELECT";
    var t := sql + rest;
    assert t[..k] == sql[..k];
    assert t[k..k + 6] == sql[k..k + 6];
  }

  /** Empty and whitespace-only input is denied. */
  lemma BlankDenied(sql: string)
    requires AllSpace(sql)
    ensures !SelectOnly(sql)
  {
  }

  /** The gate ignores letter case. */
  lemma CaseInsensitiveGate(a: string, b: string)
    requires CaseVariant(a, b)
    ensures SelectOnly(a) <==> SelectOnly(b)
  {
    if SelectAfterSpace(a) {
      CaseVariantKeepsSelect(a, b);
    }
    if SelectAfterSpace(b) {
      assert CaseVariant(b, a);
      CaseVariantKeepsSelect(b, a);
    }
  }

  lemma CaseVariantKeepsSelect(a: string, b: string)
    requires CaseVariant(a, b) && SelectAfterSpace(a)
    ensures SelectAfterSpace(b)
  {
    var k :| 0 <= k && k + 6 <= |a| && AllSpace(a[..k]) && Upper(a[k..k + 6]) == "SELECT";
    CaseVariantSlice(a, b, k, k + 6);
    UpperOfCaseVariant(a[k..k + 6], b[k..k + 6]);
    SpaceSurvivesCase(a, b, k);
  }

  lemma CaseVariantSlice(a: string, b: string, i: nat, j: nat)
    requires CaseVariant(a, b) && i <= j <= |a|
    ensures CaseVariant(a[i..j], b[i..j])
  {
  }

  lemma SpaceSurvivesCase(a: string, b: string, k: nat)
    requires |a| == |b| && k <= |a|
    requires forall i :: 0 <= i < |a| ==> UpperChar(a[i]) == UpperChar(b[i])
    requires AllSpace(a[..k])
    ensures AllSpace(b[..k])
  {
    forall i | 0 <= i < k ensures IsSpace(b[i]) {
      assert IsSpace(a[..k][i]);
    }
  }

  // ---------------------------------------------------------------------
  // What the gate lets through

  /** A denied request never reaches the database: the reply is the same
      whatever the database would have done. */
  lemma DeniedNeverFetches(poolReady: bool, sql: string, params: Option<seq<Value>>,
                           f: Request -> Fetch<seq<Row>>, g: Request -> Fetch<seq<Row>>)
    requires !poolReady || !SelectOnly(sql)
    ensures QueryDatabase(poolReady, sql, params, f) == QueryDatabase(poolReady, sql, params, g)
    ensures QueryDatabase(poolReady, sql, params, f).Error().Some?
  {
  }

  /** "DROP TABLE users" is rejected before the database is touched, and its
      reply has no row count. */
  lemma DropDenied(f: Request -> Fetch<seq<Row>>)
    ensures QueryDatabase(true, "DROP TABLE users", None, f) == NotSelect
  {
    var sql := "DROP TABLE users";
    assert !IsSpace(sql[0]);
    LStripSkips(sql, 0);
    var r := RStrip(sql);
    assert r != [] && r[0] == 'D';
    assert Strip(sql) == r;
    assert Upper(r)[0] == 'D';
  }

  /** "SELECT 1; DROP TABLE t" passes the gate and is sent unchanged to the
      database, although the classifier would flag its second statement. */
  lemma CompoundDropAllowed(f: Request -> Fetch<seq<Row>>)
    ensures SelectOnly("SELECT 1; DROP TABLE t")
    ensures QueryDatabase(true, "SELECT 1; DROP TABLE t", None, f) ==
      match f(Request("SELECT 1; DROP TABLE t", []))
      case Fetched(rows) => Rows(rows, |rows|)
      case Raised(m) => Failed(m)
  {
    var sql := "SELECT 1; DROP TABLE t";
    assert sql[..0] == [];
    assert Upper(sql[0..6]) == "SELECT";
    assert SelectAfterSpace(sql);
  }
}
