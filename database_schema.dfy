/**
 * The `postgres://schema` resource, `get_database_schema` (main.py): the
 * joined table/column catalog rows grouped into one ordered column list per
 * table. The grouping builds a dict of lists in place; a Python dict keeps
 * insertion order, so the dict is the key order `tables` together with the
 * map `columns`.
 */
module DatabaseSchema {
  import opened Wrappers
  import opened Db

  /** A record of the catalog join. */
  datatype CatalogRow = CatalogRow(tableName: string, columnName: string, dataType: string,
                                   isNullable: string, columnDefault: Option<string>)

  /** `{"column": ..., "type": ..., "nullable": ..., "default": ...}` */
  datatype Column = Column(column: string, dataType: string, nullable: string, defaultValue: Option<string>)

  function Describe(r: CatalogRow): Column {
    Column(r.columnName, r.dataType, r.isNullable, r.columnDefault)
  }

  /** A column description keeps everything of its record but the table
      name: two records get the same description exactly when they differ
      at most in their table. */
  lemma DescribeDropsOnlyTable(a: CatalogRow, b: CatalogRow)
    ensures Describe(a) == Describe(b) <==> a.(tableName := b.tableName) == b
  {
  }

  // ---------------------------------------------------------------------
  // What the grouping computes, record by record

  /** The keys of the dict, in insertion order. */
  function TableOrder(records: seq<CatalogRow>): seq<string> {
    if records == [] then []
    else
      var before := TableOrder(records[..|records| - 1]);
      var t := records[|records| - 1].tableName;
      if t in before then before else before + [t]
  }

  /** The list the dict holds for table `t`. */
  function ColumnsOf(records: seq<CatalogRow>, t: string): seq<Column> {
    if records == [] then []
    else
      var last := records[|records| - 1];
      ColumnsOf(records[..|records| - 1], t) + (if last.tableName == t then [Describe(last)] else [])
  }

  /** Where table `t` first appears among the records; `|records|` if it does not. */
  function FirstIndex(records: seq<CatalogRow>, t: string): (k: nat)
    ensures k <= |records|
    ensures k < |records| ==> records[k].tableName == t
    ensures forall m :: 0 <= m < k && m < |records| ==> records[m].tableName != t
    ensures k == |records| ==> forall m :: 0 <= m < |records| ==> records[m].tableName != t
  {
    if records == [] then 0
    else
      var before := records[..|records| - 1];
      var k := FirstIndex(before, t);
      if k < |before| then k
      else if records[|records| - 1].tableName == t then |before|
      else |records|
  }

  // ---------------------------------------------------------------------
  // The grouping loop

  /** The `for record in records` loop of `get_database_schema`: returns the
      dict as its key order and its map. */
  method GroupByTable(records: seq<CatalogRow>) returns (tables: seq<string>, columns: map<string, seq<Column>>)
    ensures tables == TableOrder(records)
    ensures columns.Keys == set t | t in tables
    ensures forall t :: t in columns ==> columns[t] == ColumnsOf(records, t)
  {
    tables := [];
    columns := map[];
    for i := 0 to |records|
      invariant tables == TableOrder(records[..i])
      invariant columns.Keys == set t | t in tables
      invariant forall t :: t in columns ==> columns[t] == ColumnsOf(records[..i], t)
    {
      assert records[..i + 1][..i] == records[..i];
      var record := records[i];
      var tableName := record.tableName;
      if tableName !in columns {
        ColumnsOfNonEmpty(records[..i], tableName);
        columns := columns[tableName := []];
        tables := tables + [tableName];
      }
      columns := columns[tableName := columns[tableName] + [Describe(record)]];
    }
    assert records[..|records|] == records;
  }

  /** The value the resource returns: the plain-text messages of its two
      error paths, or the grouped schema written out as JSON. */
  datatype SchemaReply =
    | Message(text: string)
    | Grouped(tables: seq<string>, columns: map<string, seq<Column>>)

  const ERROR_PREFIX: string := "Error retrieving schema: "

  /** `get_database_schema()`, given the outcome of the catalog query. */
  method GetDatabaseSchema(poolReady: bool, fetched: Fetch<seq<CatalogRow>>) returns (reply: SchemaReply)
    ensures !poolReady ==> reply == Message(UNAVAILABLE)
    ensures poolReady && fetched.Raised? ==> reply == Message(ERROR_PREFIX + fetched.message)
    ensures poolReady && fetched.Fetched? ==>
      && reply.Grouped?
      && reply.tables == TableOrder(fetched.rows)
      && reply.columns.Keys == set t | t in reply.tables
      && forall t :: t in reply.columns ==> reply.columns[t] == ColumnsOf(fetched.rows, t)
  {
    if !poolReady {
      return Message(UNAVAILABLE);
    }
    match fetched
    case Raised(message) =>
      reply := Message(ERROR_PREFIX + message);
    case Fetched(records) =>
      var tables, columns := GroupByTable(records);
      reply := Grouped(tables, columns);
  }

  // ---------------------------------------------------------------------
  // Properties of the grouping

  /** Every key is a table that occurs in the records, and every table that
      occurs is a key. */
  lemma {:induction false} TableOrderMembers(records: seq<CatalogRow>, t: string)
    ensures t in TableOrder(records) <==> FirstIndex(records, t) < |records|
  {
    if records != [] {
      TableOrderMembers(records[..|records| - 1], t);
    }
  }

  /** No table is listed twice. */
  lemma {:induction false} TableOrderDistinct(records: seq<CatalogRow>)
    ensures forall i, j :: 0 <= i < j < |TableOrder(records)| ==> TableOrder(records)[i] != TableOrder(records)[j]
  {
    if records != [] {
      TableOrderDistinct(records[..|records| - 1]);
    }
  }

  /** The keys come in order of first appearance. */
  lemma {:induction false} TableOrderFirstAppearance(records: seq<CatalogRow>)
    ensures forall i, j :: 0 <= i < j < |TableOrder(records)| ==>
      FirstIndex(records, TableOrder(records)[i]) < FirstIndex(records, TableOrder(records)[j])
  {
    if records != [] {
      var before := records[..|records| - 1];
      TableOrderFirstAppearance(before);
      var order := TableOrder(records);
      forall i, j | 0 <= i < j < |order|
        ensures FirstIndex(records, order[i]) < FirstIndex(records, order[j])
      {
        TableOrderMembers(before, order[i]);
        TableOrderMembers(before, order[j]);
      }
    }
  }

  /** Each list keeps the records' order: grouping a concatenation appends
      the groups. */
  lemma {:induction false} ColumnsOfAppend(a: seq<CatalogRow>, b: seq<CatalogRow>, t: string)
    ensures ColumnsOf(a + b, t) == ColumnsOf(a, t) + ColumnsOf(b, t)
  {
    if b != [] {
      var b' := b[..|b| - 1];
      assert (a + b)[..|a + b| - 1] == a + b';
      ColumnsOfAppend(a, b', t);
    } else {
      assert a + b == a;
    }
  }

  /** A table is a key exactly when its list is non-empty. */
  lemma {:induction false} ColumnsOfNonEmpty(records: seq<CatalogRow>, t: string)
    ensures ColumnsOf(records, t) != [] <==> t in TableOrder(records)
  {
    if records != [] {
      ColumnsOfNonEmpty(records[..|records| - 1], t);
    }
  }

  /** The lengths of the lists of `tables`, added up. */
  function TotalColumns(records: seq<CatalogRow>, tables: seq<string>): nat {
    if tables == [] then 0
    else TotalColumns(records, tables[..|tables| - 1]) + |ColumnsOf(records, tables[|tables| - 1])|
  }

  lemma {:induction false} TotalColumnsGrow(before: seq<CatalogRow>, last: CatalogRow, tables: seq<string>)
    requires forall i, j :: 0 <= i < j < |tables| ==> tables[i] != tables[j]
    ensures TotalColumns(before + [last], tables) ==
      TotalColumns(before, tables) + (if last.tableName in tables then 1 else 0)
  {
    if tables != [] {
      var rest := tables[..|tables| - 1];
      TotalColumnsGrow(before, last, rest);
      assert (before + [last])[..|before|] == before;
    }
  }

  /** The lists together hold every record exactly once: their lengths add up
      to the number of records. */
  lemma {:induction false} TotalColumnsIsRecordCount(records: seq<CatalogRow>)
    ensures TotalColumns(records, TableOrder(records)) == |records|
  {
    if records != [] {
      var before := records[..|records| - 1];
      var last := records[|records| - 1];
      assert records == before + [last];
      TotalColumnsIsRecordCount(before);
      TableOrderDistinct(before);
      TotalColumnsGrow(before, last, TableOrder(before));
      if last.tableName !in TableOrder(before) {
        ColumnsOfNonEmpty(before, last.tableName);
      }
    }
  }

  /** Records of one table arrive together, as `ORDER BY t.table_name`
      makes them. */
  predicate Contiguous(records: seq<CatalogRow>) {
    forall i, j, k :: 0 <= i < j < k < |records| && records[i].tableName == records[k].tableName ==>
      records[j].tableName == records[i].tableName
  }

  /** The lists of `tables`, one after the other. */
  function Flatten(records: seq<CatalogRow>, tables: seq<string>): seq<Column> {
    if tables == [] then []
    else Flatten(records, tables[..|tables| - 1]) + ColumnsOf(records, tables[|tables| - 1])
  }

  function DescribeAll(records: seq<CatalogRow>): (cols: seq<Column>)
    ensures |cols| == |records|
    ensures forall i :: 0 <= i < |records| ==> cols[i] == Describe(records[i])
  {
    if records == [] then [] else DescribeAll(records[..|records| - 1]) + [Describe(records[|records| - 1])]
  }

  lemma {:induction false} FlattenIgnoresOtherTable(before: seq<CatalogRow>, last: CatalogRow, tables: seq<string>)
    requires last.tableName !in tables
    ensures Flatten(before + [last], tables) == Flatten(before, tables)
  {
    if tables != [] {
      FlattenIgnoresOtherTable(before, last, tables[..|tables| - 1]);
      assert (before + [last])[..|before|] == before;
    }
  }

  /** For contiguous records, the most recently inserted key is the table of
      the last record. */
  lemma {:induction false} TableOrderLast(records: seq<CatalogRow>)
    requires records != [] && Contiguous(records)
    ensures TableOrder(records) != []
    ensures TableOrder(records)[|TableOrder(records)| - 1] == records[|records| - 1].tableName
  {
    var before := records[..|records| - 1];
    var t := records[|records| - 1].tableName;
    if t in TableOrder(before) {
      TableOrderMembers(before, t);
      var k := FirstIndex(before, t);
      assert records[k].tableName == t;
      assert before[|before| - 1].tableName == t;
      TableOrderLast(before);
    }
  }

  lemma ContiguousPrefix(records: seq<CatalogRow>, n: nat)
    requires Contiguous(records) && n <= |records|
    ensures Contiguous(records[..n])
  {
  }

  /** When the records arrive grouped by table, the grouping is lossless:
      reading the lists in key order gives back every record, in order. */
  lemma {:induction false} GroupingLossless(records: seq<CatalogRow>)
    requires Contiguous(records)
    ensures Flatten(records, TableOrder(records)) == DescribeAll(records)
  {
    if records != [] {
      var before := records[..|records| - 1];
      var last := records[|records| - 1];
      assert records == before + [last];
      ContiguousPrefix(records, |before|);
      GroupingLossless(before);
      if last.tableName in TableOrder(before) {
        LosslessSameTable(before, last);
      } else {
        LosslessNewTable(before, last);
      }
    }
  }

  lemma LosslessNewTable(before: seq<CatalogRow>, last: CatalogRow)
    requires last.tableName !in TableOrder(before)
    requires Flatten(before, TableOrder(before)) == DescribeAll(before)
    ensures Flatten(before + [last], TableOrder(before + [last])) == DescribeAll(before + [last])
  {
    var records := before + [last];
    var t := last.tableName;
    var prev := TableOrder(before);
    assert records[..|records| - 1] == before;
    assert TableOrder(records) == prev + [t];
    assert (prev + [t])[..|prev|] == prev;
    FlattenIgnoresOtherTable(before, last, prev);
    ColumnsOfNonEmpty(before, t);
    calc {
      Flatten(records, prev + [t]);
      Flatten(records, prev) + ColumnsOf(records, t);
      Flatten(before, prev) + ColumnsOf(records, t);
      DescribeAll(before) + [Describe(last)];
    }
  }

  /** For contiguous records, a table seen before is the table of the
      record just before. */
  lemma RepeatedTableIsPrevious(before: seq<CatalogRow>, last: CatalogRow)
    requires Contiguous(before + [last])
    requires last.tableName in TableOrder(before)
    ensures before != [] && before[|before| - 1].tableName == last.tableName
  {
    var records := before + [last];
    TableOrderMembers(before, last.tableName);
    var k := FirstIndex(before, last.tableName);
    assert records[k].tableName == records[|before|].tableName;
    if k < |before| - 1 {
      assert records[|before| - 1].tableName == records[k].tableName;
    }
  }

  lemma LosslessSameTable(before: seq<CatalogRow>, last: CatalogRow)
    requires Contiguous(before + [last])
    requires last.tableName in TableOrder(before)
    requires Flatten(before, TableOrder(before)) == DescribeAll(before)
    ensures Flatten(before + [last], TableOrder(before + [last])) == DescribeAll(before + [last])
  {
    var records := before + [last];
    var t := last.tableName;
    var prev := TableOrder(before);
    RepeatedTableIsPrevious(before, last);
    ContiguousPrefix(records, |before|);
    assert records[..|before|] == before;
    TableOrderLast(before);
    SameTableStep(before, last);
  }

  lemma SameTableStep(before: seq<CatalogRow>, last: CatalogRow)
    requires TableOrder(before) != []
    requires TableOrder(before)[|TableOrder(before)| - 1] == last.tableName
    requires Flatten(before, TableOrder(before)) == DescribeAll(before)
    ensures Flatten(before + [last], TableOrder(before + [last])) == DescribeAll(before + [last])
  {
    var records := before + [last];
    var t := last.tableName;
    var prev := TableOrder(before);
    var rest := prev[..|prev| - 1];
    assert records[..|records| - 1] == before;
    assert TableOrder(records) == prev;
    LastNotEarlier(before);
    FlattenIgnoresOtherTable(before, last, rest);
    assert ColumnsOf(records, t) == ColumnsOf(before, t) + [Describe(last)];
    assert Flatten(records, prev) == Flatten(records, rest) + ColumnsOf(records, t);
    assert Flatten(before, prev) == Flatten(before, rest) + ColumnsOf(before, t);
    assert DescribeAll(records) == DescribeAll(before) + [Describe(last)];
  }

  lemma LastNotEarlier(records: seq<CatalogRow>)
    requires TableOrder(records) != []
    ensures TableOrder(records)[|TableOrder(records)| - 1] !in TableOrder(records)[..|TableOrder(records)| - 1]
  {
  }
}
