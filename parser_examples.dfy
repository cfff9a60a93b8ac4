/**
  The parser tests of src/parser/mod.rs and the files under src/parser/query_parser/ as
  lemmas, and the behaviours of the grammar that the round trips imply: how
  scripts of several queries are split, what aborts, what is accepted.
*/
module ParserExamples {
  import opened Wrappers
  import opened Combinators
  import opened ParseTree
  import opened SelectParser
  import opened InsertParser
  import opened QueryParser
  import opened Printer
  import opened RoundTrip

  function Column(name: string): ColumnStatement {
    ColumnStatementIdentifier(ColumnIdentifier(None, name))
  }

  function TestSelect(): SelectQuery {
    SelectQuery(SelectStatement([Column("col1"), Column("col2")], false),
      FromStatement([TableStatement("table1", None)], []), None, None, None, None, None)
  }

  function TestInsert(): InsertQuery {
    InsertQuery("table1", ["col1", "col2"], ["1", "valStr"])
  }

  /** A list of one part is that part. */
  lemma JoinedOne(p: string, sep: string)
    ensures Joined([p], sep) == p
  {
    assert [p][1..] == [];
  }

  lemma JoinedTwo(a: string, b: string, sep: string)
    ensures Joined([a, b], sep) == a + sep + b
  {
    assert [a, b][1..] == [b];
    assert [b][1..] == [];
    assert Interleaved(sep, [b]) == sep + b;
  }

  lemma SelectTestText()
    ensures RenderSelect(TestSelect()) == "select col1, col2 from table1;"
  {
    var q := TestSelect();
    TestColumnsText();
    assert q.fromStatement.tables[0].tableName == "table1";
    SelectLiteral();
  }

  lemma SelectLiteral()
    ensures "select " + "col1, col2" + " from " + "table1" + ";" == "select col1, col2 from table1;"
  {
  }

  lemma TestColumnsText()
    ensures Joined(RenderColumns(TestSelect().selectStatement.columns), ", ") == "col1, col2"
  {
    assert RenderColumns(TestSelect().selectStatement.columns) == ["col1", "col2"];
    JoinedTwo("col1", "col2", ", ");
  }

  lemma InsertTestText()
    ensures RenderInsert(TestInsert()) == "insert into table1 (col1, col2) values (1, valStr);"
  {
    JoinedTwo("col1", "col2", ", ");
    JoinedTwo("1", "valStr", ", ");
    InsertLiteral();
  }

  lemma InsertLiteral()
    ensures "insert into " + "table1" + " (" + "col1, col2" + ") values (" + "1, valStr" + ");"
      == "insert into table1 (col1, col2) values (1, valStr);"
  {
  }

  /** A script of one query reads as that query. */
  lemma SingleQueryScript(q: Query, rest: string)
    requires ParsedQuery(q) && !StartsWith(rest, ";")
    ensures QueriesParse(RenderQuery(q) + rest) == Done(rest, Queries([q]))
  {
    assert RenderQueries([q]) == [RenderQuery(q)];
    JoinedOne(RenderQuery(q), ";");
    QueriesRoundTrip([q], rest);
  }

  /** `test_select`: the select test input reads as one select query and nothing is left. */
  lemma SelectExample()
    ensures SelectQueryParse("select col1, col2 from table1;") == Done("", TestSelect())
    ensures QueriesParse("select col1, col2 from table1;") == Done("", Queries([Select(TestSelect())]))
  {
    var q := TestSelect();
    SelectTestText();
    assert RenderSelect(q) + "" == RenderSelect(q);
    SelectRoundTrip(q, "");
    SingleQueryScript(Select(q), "");
  }

  /** `test_insert`: values stay the raw text `1` and `valStr`. */
  lemma InsertExample()
    ensures InsertQueryParse("insert into table1 (col1, col2) values (1, valStr);") == Done("", TestInsert())
    ensures QueriesParse("insert into table1 (col1, col2) values (1, valStr);") == Done("", Queries([Insert(TestInsert())]))
  {
    var q := TestInsert();
    InsertTestText();
    assert RenderInsert(q) + "" == RenderInsert(q);
    InsertRoundTrip(q, "");
    SingleQueryScript(Insert(q), "");
  }

  /** Nothing ties the number of values to the number of columns. */
  lemma MismatchedCountsAccepted()
    ensures InsertQueryParse("insert into t (a, b) values (c);") == Done("", InsertQuery("t", ["a", "b"], ["c"]))
  {
    var q := InsertQuery("t", ["a", "b"], ["c"]);
    JoinedTwo("a", "b", ", ");
    JoinedOne("c", ", ");
    assert RenderInsert(q) + "" == "insert into t (a, b) values (c);";
    InsertRoundTrip(q, "");
  }

  /** An unsigned number in the column list is an identifier, not an integer literal. */
  lemma UnsignedNumberIsIdentifier()
    ensures ColumnStatementParse("11 from") == Done(" from", Column("11"))
  {
    assert RenderColumn(Column("11")) + " from" == "11 from";
    ColumnRoundTrip(Column("11"), " from");
  }

  /** A signed number is an integer literal. */
  lemma SignedNumberIsLiteral()
    ensures ColumnStatementParse("-11 from") == Done(" from", ColumnStatementLiteral(Integer(-11)))
  {
    assert RenderColumn(ColumnStatementLiteral(Integer(-11))) + " from" == "-11 from";
    ColumnRoundTrip(ColumnStatementLiteral(Integer(-11)), " from");
  }

  /**
    A `;` after the last query makes the script parser try one more query on
    the text after it, and that attempt aborts.
  */
  lemma TrailingSeparatorAborts(qs: seq<Query>)
    requires |qs| >= 1 && forall q :: q in qs ==> ParsedQuery(q)
    ensures QueriesParse(Joined(RenderQueries(qs), ";") + ";").Panic?
  {
    var parts := RenderQueries(qs);
    QueryParseConsumes();
    QueriesReadBack(qs, ";");
    SeparatedListRoundTrip(";", QueryParse, qs, parts, ";");
    EmptyTailAborts();
  }

  /** After a final `;` the script parser meets the empty text, which is no query. */
  lemma EmptyTailAborts()
    ensures Leaves(Tag(";", ";"), "") && QueryParse("").Panic?
  {
    TagPrefix(";", "");
    assert QueryParse("").Panic?;
  }

  /**
    Two queries written one after the other, each with its own `;`, are not
    two queries of a script: the second is left unparsed.
  */
  lemma AdjacentQueriesNotSplit(q1: Query, q2: Query)
    requires ParsedQuery(q1) && ParsedQuery(q2)
    ensures QueriesParse(RenderQuery(q1) + RenderQuery(q2)) == Done(RenderQuery(q2), Queries([q1]))
  {
    var second := RenderQuery(q2);
    assert second[0] == 's' || second[0] == 'i';
    assert RenderQueries([q1]) == [RenderQuery(q1)];
    JoinedOne(RenderQuery(q1), ";");
    QueriesRoundTrip([q1], second);
  }

  /**
    A quoted first value in an insert is not a name, so the insert parser fails
    and the query is not recognized, whatever the table, columns and text after
    the quote.
  */
  lemma QuotedInsertValueAborts(table: string, columns: seq<string>, rest: string)
    requires IsName(table) && |columns| >= 1 && forall c :: c in columns ==> IsName(c)
    ensures var s := "insert" + (" " + ("into" + (" " + (table + (" " + (("(" + Joined(columns, ", ") + ")")
               + (" " + ("values" + (" " + ("(" + ("'" + rest)))))))))));
      QueryParse(s) == Panic(QueryNotRecognized)
  {
    var J := " " + ("(" + ("'" + rest));
    var H := " " + ("values" + J);
    var P1 := "(" + Joined(columns, ", ") + ")";
    var F := " " + (P1 + H);
    var D := " " + (table + F);
    var s := "insert" + (" " + ("into" + D));
    NotSelect(s);
    InsertHeadSteps(table, columns, H);
    QuotedValueSteps(rest);
    InsertStopsAtValues(s, " " + ("into" + D), "into" + D, D, table + F, F, P1 + H, H, "values" + J, J,
      "(" + ("'" + rest), table, columns);
  }

  /** Text starting with `i` is no select query. */
  lemma NotSelect(s: string)
    requires |s| > 0 && s[0] == 'i'
    ensures SelectQueryParse(s).Error?
  {
  }

  /** The insert parser's steps up to a value list that does not parse. */
  lemma InsertStopsAtValues(s: string, a1: string, a2: string, a3: string, a4: string, a5: string,
                            a6: string, a7: string, a8: string, a9: string, a10: string,
                            table: string, columns: seq<string>)
    requires Leaves(Tag("insert", s), a1)
    requires Leaves(Space1(a1), a2)
    requires Leaves(Tag("into", a2), a3)
    requires Leaves(Space1(a3), a4)
    requires Alphanumeric1(a4) == Done(a5, table)
    requires Leaves(Space1(a5), a6)
    requires Parenthesised(a6) == Done(a7, columns)
    requires Leaves(Space1(a7), a8)
    requires Leaves(Tag("values", a8), a9)
    requires Leaves(Space1(a9), a10)
    requires Parenthesised(a10).Error?
    ensures InsertQueryParse(s).Error?
  {
  }

  /** The insert parser's steps from `values` to a quoted first value. */
  lemma QuotedValueSteps(rest: string)
    ensures var J := " " + ("(" + ("'" + rest));
      && Leaves(Space1(" " + ("values" + J)), "values" + J)
      && Leaves(Tag("values", "values" + J), J)
      && Leaves(Space1(J), "(" + ("'" + rest))
      && Parenthesised("(" + ("'" + rest)).Error?
  {
    var J := " " + ("(" + ("'" + rest));
    SpaceBeforeWord("values", J);
    TagPrefix("values", J);
    SpaceBeforeWord("(", "'" + rest);
    QuoteIsNotName(rest);
  }

  lemma QuoteIsNotName(rest: string)
    ensures Parenthesised("(" + ("'" + rest)).Error?
  {
    TagPrefix("(", "'" + rest);
    assert ("'" + rest)[0] == '\'';
  }

  /** The instance `insert into t (a) values ('x');`. */
  lemma QuotedInsertValueExample()
    ensures QueryParse("insert into t (a) values ('x');") == Panic(QueryNotRecognized)
  {
    JoinedOne("a", ", ");
    assert "insert into t (a) values ('x');"
      == "insert" + (" " + ("into" + (" " + ("t" + (" " + (("(" + Joined(["a"], ", ") + ")")
           + (" " + ("values" + (" " + ("(" + ("'" + "x');")))))))))));
    QuotedInsertValueAborts("t", ["a"], "x');");
  }
}
