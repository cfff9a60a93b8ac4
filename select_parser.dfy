/**
  The SELECT grammar of src/parser/query_parser/select_parser.rs (the same code
  appears in src/parser/mod.rs):

    select SPACES column {", " column} SPACES from SPACES table ;

  where a column is, by ordered choice, an identifier, a literal or a function
  call, and a function call's arguments are columns again.
*/
module SelectParser {
  import opened Wrappers
  import opened Combinators
  import opened ParseTree

  /**
    `s` is `select`, spaces, a column list that reads as `q`'s select statement,
    spaces, `from`, spaces, `q`'s table, `;` and then `rest`.
  */
  ghost predicate SelectText(s: string, q: SelectQuery, rest: string)
    requires |q.fromStatement.tables| >= 1
  {
    exists w1, t, w2, w3 ::
      && Spaces(w1) && Spaces(w2) && Spaces(w3)
      && s == "select" + (w1 + t)
      && SelectStatementParse(t)
         == Done(w2 + ("from" + (w3 + (q.fromStatement.tables[0].tableName + (";" + rest)))), q.selectStatement)
  }

  /** `SelectQuery::parse`. */
  function SelectQueryParse(s: string): (r: Outcome<SelectQuery>)
    ensures Advances(r, s)
    ensures r.Done? ==> ParsedSelect(r.value)
    ensures r.Done? ==> StartsWith(s, "select")
    ensures !StartsWith(s, "select") ==> r.Error?
    ensures r.Done? ==> SelectText(s, r.value, r.rest)
  {
    var keyword := Tag("select", s);
    if !keyword.Done? then keyword.Propagate() else
    var gap1 := Space1(keyword.rest);
    if !gap1.Done? then gap1.Propagate() else
    var statement := SelectStatementParse(gap1.rest);
    if !statement.Done? then statement.Propagate() else
    var gap2 := Space1(statement.rest);
    if !gap2.Done? then gap2.Propagate() else
    var from := Tag("from", gap2.rest);
    if !from.Done? then from.Propagate() else
    var gap3 := Space1(from.rest);
    if !gap3.Done? then gap3.Propagate() else
    var fromStatement := FromStatementParse(gap3.rest);
    if !fromStatement.Done? then fromStatement.Propagate() else
    var semicolon := Tag(";", fromStatement.rest);
    if !semicolon.Done? then semicolon.Propagate() else
    SuffixTransitive(gap1.rest, keyword.rest, s);
    SuffixTransitive(statement.rest, gap1.rest, s);
    SuffixTransitive(gap2.rest, statement.rest, s);
    SuffixTransitive(from.rest, gap2.rest, s);
    SuffixTransitive(gap3.rest, from.rest, s);
    SuffixTransitive(fromStatement.rest, gap3.rest, s);
    SuffixTransitive(semicolon.rest, fromStatement.rest, s);
    assert Spaces(gap1.value) && Spaces(gap2.value) && Spaces(gap3.value);
    Done(semicolon.rest, SelectQuery(statement.value, fromStatement.value, None, None, None, None, None))
  }

  /** `SelectStatement::parse`: the `", "`-separated column list; never `distinct`. */
  function SelectStatementParse(s: string): (r: Outcome<SelectStatement>)
    ensures Advances(r, s)
    ensures !r.Error?
    ensures r.Done? ==> |r.value.columns| >= 1 && !r.value.distinct
    ensures r.Done? ==> forall c :: c in r.value.columns ==> ParsedColumn(c)
  {
    var columns := ColumnList(s);
    if !columns.Done? then columns.Propagate() else
    Done(columns.rest, SelectStatement(columns.value, false))
  }

  /**
    `ColumnStatement::parse`: identifier, else literal, else function call, else
    panic. Since every letter is alphanumeric, an item that starts with a letter
    or a digit is always an identifier (so `11` is one), and the function
    alternative never succeeds.
  */
  function ColumnStatementParse(s: string): (r: Outcome<ColumnStatement>)
    ensures Advances(r, s)
    ensures !r.Error?
    ensures r.Done? ==> ParsedColumn(r.value)
    ensures |s| > 0 && IsAlnum(s[0]) ==>
      r == Done(s[TakeWhile(IsAlnum, s)..], ColumnStatementIdentifier(ColumnIdentifier(None, s[..TakeWhile(IsAlnum, s)])))
    ensures !(|s| > 0 && IsAlnum(s[0])) && LiteralParse(s).Done? ==>
      r == Done(LiteralParse(s).rest, ColumnStatementLiteral(LiteralParse(s).value))
    ensures r.Panic? <==> !(|s| > 0 && IsAlnum(s[0])) && LiteralParse(s).Error?
    ensures r.Panic? ==> r.abort == ColumnStatementNotRecognized
    decreases |s|, 1
  {
    var identifier := ColumnIdentifierParse(s);
    if identifier.Done? then Done(identifier.rest, ColumnStatementIdentifier(identifier.value))
    else
      var literal := LiteralParse(s);
      if literal.Done? then Done(literal.rest, ColumnStatementLiteral(literal.value))
      else
        match FunctionParse(s)
        case Done(rest, call) => Done(rest, ColumnStatementFunction(call))
        case Panic(a) => Panic(a)
        case Error => Panic(ColumnStatementNotRecognized)
  }

  /** `separated_list1(tag(", "), ColumnStatement::parse)`, written out for the recursion. */
  function ColumnList(s: string): (r: Outcome<seq<ColumnStatement>>)
    ensures Advances(r, s)
    ensures !r.Error?
    ensures r.Done? ==> |r.value| >= 1 && forall c :: c in r.value ==> ParsedColumn(c)
    decreases |s|, 2
  {
    match ColumnStatementParse(s)
    case Error => Error
    case Panic(a) => Panic(a)
    case Done(rest, first) =>
      var tail := ColumnListTail(rest);
      if tail.Done? then
        SuffixTransitive(tail.rest, rest, s);
        Done(tail.rest, [first] + tail.value)
      else tail
  }

  /** The `", " column` repetitions of `ColumnList`. */
  function ColumnListTail(s: string): (r: Outcome<seq<ColumnStatement>>)
    ensures Consumes(r, s)
    ensures !r.Error?
    ensures r.Done? ==> forall c :: c in r.value ==> ParsedColumn(c)
    decreases |s|, 0
  {
    var afterSep := Tag(", ", s);
    if !afterSep.Done? then Done(s, [])
    else
      match ColumnStatementParse(afterSep.rest)
      case Error => Done(s, [])
      case Panic(a) => Panic(a)
      case Done(rest, x) =>
        SuffixTransitive(rest, afterSep.rest, s);
        var tail := ColumnListTail(rest);
        if tail.Done? then
          SuffixTransitive(tail.rest, rest, s);
          Done(tail.rest, [x] + tail.value)
        else tail
  }

  /** `ColumnIdentifier::parse`: an alphanumeric run, never table-qualified. */
  function ColumnIdentifierParse(s: string): (r: Outcome<ColumnIdentifier>)
    ensures !r.Panic?
    ensures r.Done? <==> |s| > 0 && IsAlnum(s[0])
    ensures r.Done? ==> r.value.tableName == None && IsName(r.value.columnName)
    ensures r.Done? ==> s == r.value.columnName + r.rest && (r.rest == [] || !IsAlnum(r.rest[0]))
    ensures Advances(r, s)
  {
    var name := Alphanumeric1(s);
    if !name.Done? then name.Propagate() else
    Done(name.rest, ColumnIdentifier(None, name.value))
  }

  /**
    `Literal::parse`: a signed `i32` if one parses, otherwise a quoted run of
    letters, stored without its quotes.
  */
  function LiteralParse(s: string): (r: Outcome<Literal>)
    ensures !r.Panic?
    ensures Advances(r, s)
    ensures I32(s).Done? ==> r == Done(I32(s).rest, Integer(I32(s).value))
    ensures r.Done? ==> r.value.Integer? || r.value.String?
    ensures I32(s).Error? && r.Done? ==> r.value.String?
    ensures r.Done? && r.value.String? ==>
      IsWord(r.value.text) && s == "'" + r.value.text + "'" + r.rest
  {
    var integer := I32(s);
    if integer.Done? then Done(integer.rest, Integer(integer.value))
    else
      var open := Tag("'", s);
      if !open.Done? then open.Propagate() else
      var text := Alpha1(open.rest);
      if !text.Done? then text.Propagate() else
      var close := Tag("'", text.rest);
      if !close.Done? then close.Propagate() else
      SuffixTransitive(text.rest, open.rest, s);
      SuffixTransitive(close.rest, text.rest, s);
      Done(close.rest, String(text.value))
  }

  /** `Function::parse`: letters, `(`, one or more columns separated by `", "`, `)`. */
  function FunctionParse(s: string): (r: Outcome<Function>)
    ensures Advances(r, s)
    ensures r.Done? ==> |s| > 0 && IsAlpha(s[0])
    ensures r.Done? ==> IsWord(r.value.name) && |r.value.args| >= 1
    ensures r.Done? ==>
      var k := |r.value.name|;
      && k < |s| && s[..k] == r.value.name && s[k] == '('
      && ColumnList(s[k + 1..]) == Done(")" + r.rest, r.value.args)
    decreases |s|, 0
  {
    var name := Alpha1(s);
    if !name.Done? then name.Propagate() else
    var open := Tag("(", name.rest);
    if !open.Done? then open.Propagate() else
    var args := ColumnList(open.rest);
    if !args.Done? then args.Propagate() else
    var close := Tag(")", args.rest);
    if !close.Done? then close.Propagate() else
    SuffixTransitive(open.rest, name.rest, s);
    SuffixTransitive(args.rest, open.rest, s);
    SuffixTransitive(close.rest, args.rest, s);
    assert s[|name.value| + 1..] == open.rest;
    Done(close.rest, Function(name.value, args.value))
  }

  /** `FromStatement::parse`: exactly one table, no joins. */
  function FromStatementParse(s: string): (r: Outcome<FromStatement>)
    ensures !r.Panic?
    ensures r.Done? <==> |s| > 0 && IsAlnum(s[0])
    ensures r.Done? ==> |r.value.tables| == 1 && r.value.joins == []
    ensures r.Done? ==> r.value.tables[0].alias == None
    ensures r.Done? ==> s == r.value.tables[0].tableName + r.rest && IsName(r.value.tables[0].tableName)
    ensures Advances(r, s)
  {
    var table := TableStatementParse(s);
    if !table.Done? then table.Propagate() else
    Done(table.rest, FromStatement([table.value], []))
  }

  /** `TableStatement::parse`: an alphanumeric run, without alias. */
  function TableStatementParse(s: string): (r: Outcome<TableStatement>)
    ensures !r.Panic?
    ensures r.Done? <==> |s| > 0 && IsAlnum(s[0])
    ensures r.Done? ==> r.value.alias == None && IsName(r.value.tableName)
    ensures r.Done? ==> s == r.value.tableName + r.rest && (r.rest == [] || !IsAlnum(r.rest[0]))
    ensures Advances(r, s)
  {
    var name := Alphanumeric1(s);
    if !name.Done? then name.Propagate() else
    Done(name.rest, TableStatement(name.value, None))
  }
}
