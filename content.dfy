/** The values the tools exchange with their host: the rows a query returns
    and the content items of a tool's result. */
module ToolContent {

  /** A column value of a result row, as far as the tools look at it;
      Undefined is what reading an absent column gives. */
  datatype Value = Undefined | Null | Bool(b: bool) | Num(n: int) | Str(s: string)

  /** One row of a query result: column name to value. */
  type Row = map<string, Value>

  /** One content item of a tool result: a text item, or the json item
      `{ tables: [...] }` of the table-names tool. */
  datatype Item = Text(text: string) | TablesJson(tables: seq<Value>)

  /** The content list a tool returns to its host. */
  type Content = seq<Item>

  /** The value of a column of a row; an absent column reads as Undefined. */
  function Field(row: Row, column: string): Value
  {
    if column in row then row[column] else Undefined
  }
}
