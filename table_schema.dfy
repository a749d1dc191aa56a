/**
 * The `get_table_schema` tool (main.py): the columns the catalog lists for
 * one table, or a not-found reply when it lists none.
 */
module TableSchemaTool {
  import opened Wrappers
  import opened Db

  /** The JSON object `get_table_schema` returns. */
  datatype TableSchemaReply =
    | Unavailable                                      // {"error": UNAVAILABLE}
    | NotFound(tableName: string)                      // {"success": false, "error": "Table '<name>' not found"}
    | Failed(error: string)                            // {"success": false, "error": str(e)}
    | Described(tableName: string, columns: seq<Row>)  // {"success": true, "table_name": ..., "columns": [...]}
  {
    /** The "error" key. */
    function Error(): Option<string> {
      match this
      case Unavailable => Some(UNAVAILABLE)
      case NotFound(t) => Some("Table '" + t + "' not found")
      case Failed(e) => Some(e)
      case Described(_, _) => None
    }
  }

  /** `get_table_schema(table_name)`. `columnsOf(t)` is what the catalog
      query (columns of table `t` in ordinal order) yields. */
  function GetTableSchema(poolReady: bool, tableName: string,
                          columnsOf: string -> Fetch<seq<Row>>): (r: TableSchemaReply)
    ensures r == Unavailable <==> !poolReady
    ensures r.Failed? <==> poolReady && columnsOf(tableName).Raised?
    ensures r.NotFound? <==> poolReady && columnsOf(tableName) == Fetched([])
    ensures r.Described? <==> poolReady && columnsOf(tableName).Fetched? && columnsOf(tableName).rows != []
    ensures r.Described? ==> r.tableName == tableName && columnsOf(tableName) == Fetched(r.columns)
    ensures r.NotFound? ==> r.tableName == tableName
    ensures r.Failed? ==> columnsOf(tableName) == Raised(r.error)
  {
    if !poolReady then Unavailable
    else match columnsOf(tableName)
      case Raised(message) => Failed(message)
      case Fetched(columns) =>
        if columns == [] then NotFound(tableName)
        else Described(tableName, columns)
  }

  /** A missing table is reported as not found, never as a failure, and the
      message names the table. */
  lemma MissingTableNotFound(tableName: string, columnsOf: string -> Fetch<seq<Row>>)
    requires columnsOf(tableName) == Fetched([])
    ensures GetTableSchema(true, tableName, columnsOf).Error() == Some("Table '" + tableName + "' not found")
    ensures !GetTableSchema(true, tableName, columnsOf).Failed?
  {
  }
}
