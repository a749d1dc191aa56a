# postgres-mcp: the query gate, the keyword classifier and the catalog tools, in Dafny

This project models the logic of the `postgres-mcp-server` tools in `main.py`. Each tool is a function or a method over values. The database, the SQL tokenizer and the transport are inputs.

- **`check_sql_injection`** (`sql_injection.dfy`). The input is the output of `sqlparse.parse`: a sequence of statements, each a sequence of top-level tokens with an optional type and a text value. A token type is modelled as its path in sqlparse's type hierarchy, so `Keyword.DML` is `["Keyword", "DML"]`. The classifier is `SqlInjection.CheckSqlInjection`, the nested scan with an early return. It is proved equal to the predicate `ContainsUnsafe`, which holds when some token of some statement meets both conditions:
  - its type is exactly `Keyword`, `Keyword.DML` or `Keyword.DDL`;
  - its upper-cased text is one of `DELETE`, `DROP` or `UPDATE`.

  Lemmas about that predicate cover:
  - the text test is the three verbs in any letter case;
  - the type test is an exact match, so other Keyword sub-types never flag;
  - only keyword-typed text matters;
  - letter case does not matter;
  - compound input is an OR over its statements;
  - empty input is safe.

  The cases of `test.py` are restated in `sql_injection_examples.dfy` over hand-built token streams.
- **`query_database`** (`query_tool.dfy`). The checks run in this order:
  1. the pool check;
  2. the gate `sql.strip().upper().startswith("SELECT")`;
  3. the call to the database and the reply `{"success", "data", "row_count"}`.

  The database is a function parameter from the request to its outcome. A denied query never consults it. An allowed one passes it the SQL text unchanged. **The gate is the prefix test alone:** `query_database` never calls `check_sql_injection`. So `"SELECT 1; DROP TABLE t"` is allowed and sent to the database (`CompoundDropAllowed`), and appending any text to an allowed query keeps it allowed (`AppendStaysAllowed`). A design that applies the classifier inside the gate as well is not what the code does. The model follows the code.
- **`get_table_schema`**, **`list_tables`** (`table_schema.dfy`, `list_tables.dfy`). These cover the reply shapes, the counts and the not-found branch.
- **`get_database_schema`** (`database_schema.dfy`). The loop that groups the joined catalog rows into a dict of per-table column lists is the method `GroupByTable`. It builds the dict step by step as an insertion-ordered key sequence plus a map. It is proved against the specification functions `TableOrder` and `ColumnsOf`. Lemmas about those functions prove:
  - the keys are distinct and listed in order of first appearance;
  - each list keeps its records' order;
  - the list lengths add up to the number of records;
  - for input grouped by table, as the catalog query's `ORDER BY` delivers it, the lists read in key order give back every record in order.

`py_str.dfy` holds Python's `isspace`, `strip`, `upper` and `startswith` as used here. `db.dfy` holds the value types of rows and of fetch outcomes, and `wrappers.dfy` holds `Option`.

## Model

| member | source | states |
|---|---|---|
| `SqlInjection.CheckSqlInjection` | main.py:50-63 | returns true exactly when some top-level token of some parsed statement has type Keyword, Keyword.DML or Keyword.DDL and an upper-cased value in UNSAFE_KEYWORDS |
| `SqlInjection.UnsafeTextAnyCase` | main.py:49-61 | the text test accepts exactly DELETE, DROP and UPDATE written in any mix of letter case |
| `SqlInjection.KeywordSubtypesNeverFlag` | main.py:59-60 | the type test is an exact match: a token of any other sub-type of Keyword (Keyword.CTE, a child of Keyword.DML, ...) never flags, whatever its text |
| `SqlInjection.OnlyKeywordTextMatters` | main.py:59-61 | two parses that agree on token types and on the text of keyword-typed tokens get the same answer: the text of literals, names and grouped tokens never matters |
| `SqlInjection.NoKeywordNoFlag` | main.py:57-63 | a parse without any keyword-typed token (including no statements at all) is never flagged |
| `SqlInjection.CaseInsensitive` | main.py:61 | changing the letter case of any token text leaves the answer unchanged |
| `SqlInjection.CompoundIsOr` | main.py:57-62 | the answer for a concatenation of statement lists is the OR of the answers for the parts |
| `SqlInjection.FlaggedAnywhere` | main.py:57-62 | a flagged statement flags the whole input, whatever statements come before or after it |
| `SqlInjectionExamples.MixedCaseDeleteFlagged` | test.py:77-91 | "dElEtE FROM users", with its verb labelled Keyword.DML, is flagged |
| `SqlInjectionExamples.LaterStatementFlagged` | test.py:44-59 | "SELECT * FROM passwords;DROP TABLE users;" is flagged by its second statement |
| `SqlInjectionExamples.LiteralInWhereNotFlagged` | test.py:11-26 | "SELECT * FROM users WHERE name = 'delete'" is not flagged: the literal sits in an untyped WHERE group |
| `SqlInjectionExamples.StringLiteralNotFlagged` | test.py:113 | "SELECT 'This contains DELETE keyword' FROM table" is not flagged: the top-level string literal is not a keyword, and the keyword TABLE is not an unsafe verb |
| `SqlInjectionExamples.BlankInputNotFlagged` | test.py:123-134 | empty input (no statements) and whitespace-only input are not flagged |
| `PyStr.Upper` | main.py:82 | the result has the input's length, agrees with it up to letter case at every position, and contains no lower-case letter |
| `PyStr.StartsWith` | main.py:83 | true exactly when the prefix is no longer than the text and matches it character by character |
| `PyStr.LStrip` | main.py:82 | the result is a suffix of the input; everything removed is whitespace; the result is empty or starts with a non-space |
| `PyStr.RStrip` | main.py:82 | removes a trailing run of whitespace and nothing else; the result ends with a non-space and is empty exactly for all-whitespace input |
| `PyStr.Strip` | main.py:82 | the stripped text is a slice of the input with only whitespace before and after it; it neither starts nor ends with whitespace and is empty exactly when the input is all whitespace |
| `QueryTool.QueryDatabase` | main.py:78-102 | the unavailable error exactly when there is no pool; the SELECT-only error exactly when there is a pool and the gate fails; rows exactly when the gate allows and fetch, given the unmodified SQL and the arguments, returns, with row_count the number of rows; otherwise the exception message fetch raised |
| `QueryTool.SuccessExactlyWhenFetched` | main.py:78-102 | "success": true appears exactly when the pool exists, the gate allows the query and the database returns rows |
| `QueryTool.SelectOnly` | main.py:82-83 | the gate holds exactly when, after some leading whitespace, six characters upper-case to SELECT |
| `QueryTool.Args` | main.py:88-91 | no arguments are sent exactly when params is missing or empty; otherwise every parameter is sent, in order |
| `QueryTool.AppendStaysAllowed` | main.py:82-84 | appending any text to an allowed query keeps it allowed: nothing after the prefix is inspected |
| `QueryTool.BlankDenied` | main.py:82-84 | empty and whitespace-only SQL is denied |
| `QueryTool.CaseInsensitiveGate` | main.py:82 | the gate's answer does not depend on letter case |
| `QueryTool.DeniedNeverFetches` | main.py:78-91 | a missing pool or a failed gate gives an error reply that is the same whatever the database would do: fetch is never consulted |
| `QueryTool.DropDenied` | main.py:82-84 | "DROP TABLE users" is answered with the SELECT-only error |
| `QueryTool.CompoundDropAllowed` | main.py:82-91 | "SELECT 1; DROP TABLE t" passes the gate and is sent unchanged, with no arguments, to the database |
| `TableSchemaTool.GetTableSchema` | main.py:116-150 | the unavailable error exactly when there is no pool; a failure carrying the exception message exactly when there is a pool and the column query raises; not found exactly when it returns no rows; described (with the fetched columns and the table name) exactly when it returns some |
| `TableSchemaTool.MissingTableNotFound` | main.py:136-139 | a table without columns yields the message "Table '<name>' not found" and is not reported as a failure |
| `ListTablesTool.TableNames` | main.py:174 | one name per record, in record order |
| `ListTablesTool.ListTables` | main.py:161-179 | the listing appears exactly when the pool exists and the query returns; count equals the number of tables, which are the records' names in order |
| `DatabaseSchema.DescribeDropsOnlyTable` | main.py:213-220 | a column description keeps every field of its record except the table name: two records get the same description exactly when they differ at most in their table |
| `DatabaseSchema.GroupByTable` | main.py:207-220 | the dict's key order is TableOrder of the records, its keys are exactly those tables, and each table's list is ColumnsOf the records for that table |
| `DatabaseSchema.GetDatabaseSchema` | main.py:185-225 | the unavailable message without a pool; "Error retrieving schema: " and the message on an exception; otherwise the grouping of the fetched records |
| `DatabaseSchema.TableOrderMembers` | main.py:208-211 | a table is a key exactly when some record carries it |
| `DatabaseSchema.TableOrderDistinct` | main.py:210-211 | no table is a key twice |
| `DatabaseSchema.TableOrderFirstAppearance` | main.py:207-211 | keys are ordered by where each table first appears among the records |
| `DatabaseSchema.ColumnsOfAppend` | main.py:213-220 | each table's list keeps the records' order: grouping a concatenation appends the lists |
| `DatabaseSchema.ColumnsOfNonEmpty` | main.py:210-213 | a table's list is non-empty exactly when the table is a key |
| `DatabaseSchema.TotalColumnsIsRecordCount` | main.py:207-220 | the lengths of the lists add up to the number of records |
| `DatabaseSchema.GroupingLossless` | main.py:201-220 | for records that arrive grouped by table, reading the lists in key order gives back every record's column description, in order |

## Left out

- `sqlparse.parse` and its lexer are not modelled. The parsed statements are an input, and which words sqlparse labels as keywords is assumed in the token streams of `sql_injection_examples.dfy`, not derived.
- asyncpg is not modelled: `create_pool`, `pool.acquire`, `pool.close` and the `lifespan` context manager. The pool is the flag `poolReady`. The result of `conn.fetch` is an input or a function parameter. An exception raised anywhere inside the `try` is its message.
- FastMCP server construction, the tool and resource registration, and `mcp.run()` are transport plumbing and are left out.
- The environment and `.env` configuration, `DATABASE_URL` and `PORT` are configuration only and are left out.
- `json.dumps` formatting is left out, including `indent=2` and `default=str` for dates and decimals. Replies are datatypes whose constructors name the JSON keys. Column values are an abstract `Value` type.
- The SQL text of the catalog queries is left out, and so is the ordering they request. `GroupingLossless` assumes the records arrive grouped by table, as `ORDER BY t.table_name` makes them. The other grouping properties hold for any order.
- Concurrency across tool calls and the global `pool` assignment are not modelled.
- `PyStr.Upper` is ASCII case folding only. Python's `str.upper()` maps some non-ASCII characters to ASCII letters (U+017F, long s, becomes "S"), so "ſelect 1" passes the source's gate but not the model's. `strip()` is modelled with Python's full whitespace set.
- `dict(record)` is modelled as the row itself, a map from column name to value. Records with duplicate column names are not modelled.
- The KeyError that `record["table_name"]` and the other subscripts would raise on a row missing a column is not modelled. Catalog rows are typed records, because the catalog queries always select those columns.
