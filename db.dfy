/**
 * What the tools receive from asyncpg, as values: a column value, a row
 * (`dict(record)`), and the outcome of `conn.fetch`, which either returns the
 * records or raises.
 */
module Db {
  import opened Wrappers

  /** A column value; `Other` stands for dates, decimals and the like, which
      the JSON encoder writes out with `str`. */
  datatype Value = Null | Bool(b: bool) | Int(i: int) | Text(s: string) | Other(repr: string)

  /** `dict(record)`: column name to value. */
  type Row = map<string, Value>

  /** `await conn.fetch(...)` inside `async with pool.acquire()`: the records,
      or the message `str(e)` of the exception raised on the way. */
  datatype Fetch<T> = Fetched(rows: T) | Raised(message: string)

  const UNAVAILABLE: string := "Database connection not available"
}
