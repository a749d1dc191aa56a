/**
 * The `list_tables` tool (main.py): the names of the public tables, in the
 * order the catalog returns them, and how many there are.
 */
module ListTablesTool {
  import opened Db

  /** A record of the catalog query, which selects `table_name` only. */
  datatype TableRow = TableRow(tableName: string)

  /** The JSON object `list_tables` returns. */
  datatype TablesReply =
    | Unavailable                            // {"error": UNAVAILABLE}
    | Failed(error: string)                  // {"success": false, "error": str(e)}
    | Listed(tables: seq<string>, count: int)   // {"success": true, "tables": [...], "count": ...}

  /** `[record["table_name"] for record in records]` */
  function TableNames(records: seq<TableRow>): (names: seq<string>)
    ensures |names| == |records|
    ensures forall i :: 0 <= i < |records| ==> names[i] == records[i].tableName
  {
    if records == [] then [] else [records[0].tableName] + TableNames(records[1..])
  }

  /** `list_tables()`, given the outcome of the catalog query. */
  function ListTables(poolReady: bool, fetched: Fetch<seq<TableRow>>): (r: TablesReply)
    ensures !poolReady ==> r == Unavailable
    ensures r.Failed? <==> poolReady && fetched.Raised?
    ensures r.Failed? ==> r.error == fetched.message
    ensures r.Listed? <==> poolReady && fetched.Fetched?
    ensures r.Listed? ==> r.count == |r.tables| && r.tables == TableNames(fetched.rows)
  {
    if !poolReady then Unavailable
    else match fetched
      case Raised(message) => Failed(message)
      case Fetched(records) =>
        var tables := TableNames(records);
        Listed(tables, |tables|)
  }
}
