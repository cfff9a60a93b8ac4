/**
  A printer for the queries the parser returns: the concrete text that the
  grammar of src/parser/query_parser/select_parser.rs and insert_parser.rs
  reads back into the same tree. The repository has no printer; this one is
  the partner against which the parsers' round trips are stated.
*/
module Printer {
  import opened Combinators
  import opened ParseTree

  function Digit(d: nat): (c: char)
    requires d < 10
    ensures IsDigit(c) && DigitValue(c) == d
  {
    ('0' as int + d) as char
  }

  /** The decimal digits of `n`, most significant first, without leading zeros. */
  function Decimal(n: nat): (r: string)
    ensures |r| > 0 && All(IsDigit, r)
    decreases n
  {
    if n < 10 then [Digit(n)] else Decimal(n / 10) + [Digit(n % 10)]
  }

  /**
    An `i32` with an explicit sign. The sign matters: an unsigned run of digits
    is an alphanumeric run, which the column parser takes as an identifier.
  */
  function RenderInteger(v: int32): (r: string)
    ensures |r| > 1 && (r[0] == '+' || r[0] == '-')
  {
    if v < 0 then "-" + Decimal(-(v as int)) else "+" + Decimal(v)
  }

  /** A column item as the column parser reads it. */
  function RenderColumn(c: ColumnStatement): (r: string)
    requires ParsedColumn(c)
    ensures |r| > 0 && !IsSpace(r[0])
  {
    match c
    case ColumnStatementIdentifier(id) => id.columnName
    case ColumnStatementLiteral(Integer(n)) => RenderInteger(n)
    case ColumnStatementLiteral(String(text)) => "'" + text + "'"
  }

  function RenderColumns(cs: seq<ColumnStatement>): (r: seq<string>)
    requires forall c :: c in cs ==> ParsedColumn(c)
    ensures |r| == |cs|
    ensures forall i :: 0 <= i < |cs| ==> r[i] == RenderColumn(cs[i])
  {
    if cs == [] then [] else [RenderColumn(cs[0])] + RenderColumns(cs[1..])
  }

  function RenderSelect(q: SelectQuery): string
    requires ParsedSelect(q)
  {
    "select " + Joined(RenderColumns(q.selectStatement.columns), ", ")
      + " from " + q.fromStatement.tables[0].tableName + ";"
  }

  function RenderInsert(q: InsertQuery): string
    requires ParsedInsert(q)
  {
    "insert into " + q.tableName + " (" + Joined(q.columns, ", ") + ") values ("
      + Joined(q.values, ", ") + ");"
  }

  function RenderQuery(q: Query): string
    requires ParsedQuery(q)
  {
    match q
    case Select(s) => RenderSelect(s)
    case Insert(i) => RenderInsert(i)
  }

  function RenderQueries(qs: seq<Query>): (r: seq<string>)
    requires forall q :: q in qs ==> ParsedQuery(q)
    ensures |r| == |qs|
    ensures forall i :: 0 <= i < |qs| ==> r[i] == RenderQuery(qs[i])
  {
    if qs == [] then [] else [RenderQuery(qs[0])] + RenderQueries(qs[1..])
  }
}
