/**
  The query tree the parser produces (src/parser/query_parser/parse_tree.rs),
  and the shapes the parser actually builds.

  Query kinds and clauses that the grammar declares but no parser constructs
  are kept as empty variants.
*/
module ParseTree {
  import opened Wrappers
  import opened Combinators

  datatype Queries = Queries(queries: seq<Query>)

  datatype Query =
    | Select(select: SelectQuery)
    | Insert(insert: InsertQuery)
    | Delete
    | Update
    | CreateTable
    | DropTable
    | AlterTable

  datatype SelectQuery = SelectQuery(
    selectStatement: SelectStatement,
    fromStatement: FromStatement,
    whereStatement: Option<WhereStatement>,
    orderByStatement: Option<OrderByStatement>,
    groupByStatement: Option<GroupByStatement>,
    havingStatement: Option<HavingStatement>,
    limitStatement: Option<LimitStatement>)

  datatype InsertQuery = InsertQuery(tableName: string, columns: seq<string>, values: seq<string>)

  datatype SelectStatement = SelectStatement(columns: seq<ColumnStatement>, distinct: bool)

  datatype FromStatement = FromStatement(tables: seq<TableStatement>, joins: seq<JoinStatement>)

  datatype TableStatement = TableStatement(tableName: string, alias: Option<string>)

  // Declared clauses with no parser behind them.
  datatype JoinStatement = JoinStatement
  datatype WhereStatement = WhereStatement
  datatype OrderByStatement = OrderByStatement
  datatype GroupByStatement = GroupByStatement
  datatype HavingStatement = HavingStatement
  datatype LimitStatement = LimitStatement

  datatype ColumnStatement =
    | ColumnStatementIdentifier(identifier: ColumnIdentifier)
    | ColumnStatementLiteral(literal: Literal)
    | ColumnStatementFunction(call: Function)

  datatype ColumnIdentifier = ColumnIdentifier(tableName: Option<string>, columnName: string)

  /** `Float` and `Boolean` are never produced by a parser: tags only. */
  datatype Literal = Integer(number: int32) | String(text: string) | Float | Boolean(flag: bool)

  datatype Function = Function(name: string, args: seq<ColumnStatement>)

  /** A non-empty run of ASCII letters and digits, what `alphanumeric1` consumes. */
  predicate IsName(s: string) {
    |s| > 0 && All(IsAlnum, s)
  }

  /** A non-empty run of ASCII letters, what `alpha1` consumes. */
  predicate IsWord(s: string) {
    |s| > 0 && All(IsAlpha, s)
  }

  /** The column items the column parser can return. */
  predicate ParsedColumn(c: ColumnStatement) {
    match c
    case ColumnStatementIdentifier(id) => id.tableName == None && IsName(id.columnName)
    case ColumnStatementLiteral(Integer(_)) => true
    case ColumnStatementLiteral(String(text)) => IsWord(text)
    case _ => false
  }

  /** The select queries the select parser can return. */
  predicate ParsedSelect(q: SelectQuery) {
    && |q.selectStatement.columns| >= 1
    && (forall c :: c in q.selectStatement.columns ==> ParsedColumn(c))
    && !q.selectStatement.distinct
    && |q.fromStatement.tables| == 1
    && IsName(q.fromStatement.tables[0].tableName)
    && q.fromStatement.tables[0].alias == None
    && q.fromStatement.joins == []
    && q.whereStatement == None
    && q.orderByStatement == None
    && q.groupByStatement == None
    && q.havingStatement == None
    && q.limitStatement == None
  }

  /** The insert queries the insert parser can return; nothing ties the two list lengths. */
  predicate ParsedInsert(q: InsertQuery) {
    && IsName(q.tableName)
    && |q.columns| >= 1 && (forall c :: c in q.columns ==> IsName(c))
    && |q.values| >= 1 && (forall v :: v in q.values ==> IsName(v))
  }

  predicate ParsedQuery(q: Query) {
    match q
    case Select(s) => ParsedSelect(s)
    case Insert(i) => ParsedInsert(i)
    case _ => false
  }
}
