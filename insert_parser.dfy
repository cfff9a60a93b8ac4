/**
  The INSERT grammar of src/parser/query_parser/insert_parser.rs (the same code
  appears in src/parser/mod.rs):

    insert SPACES into SPACES name SPACES ( names ) SPACES values SPACES ( names ) ;

  Values are kept as the raw alphanumeric text, with no integer or string typing.
*/
module InsertParser {
  import opened Combinators
  import opened ParseTree

  /**
    `s` is `insert into` and `q`'s table, its columns in parentheses, `values`
    and its values in parentheses, then `;` and `rest`: names joined by `", "`,
    keywords separated by runs of spaces.
  */
  ghost predicate InsertText(s: string, q: InsertQuery, rest: string)
    requires |q.columns| >= 1 && |q.values| >= 1
  {
    exists w1, w2, w3, w4, w5 ::
      && Spaces(w1) && Spaces(w2) && Spaces(w3) && Spaces(w4) && Spaces(w5)
      && s == "insert" + (w1 + ("into" + (w2 + (q.tableName + (w3
           + ("(" + (Joined(q.columns, ", ") + (")" + (w4 + ("values" + (w5
           + ("(" + (Joined(q.values, ", ") + (")" + (";" + rest)))))))))))))))
  }

  /** `InsertQuery::parse`. */
  function InsertQueryParse(s: string): (r: Outcome<InsertQuery>)
    ensures !r.Panic?
    ensures Advances(r, s)
    ensures r.Done? ==> ParsedInsert(r.value)
    ensures r.Done? ==> StartsWith(s, "insert")
    ensures !StartsWith(s, "insert") ==> r.Error?
    ensures r.Done? ==> InsertText(s, r.value, r.rest)
  {
    var keyword := Tag("insert", s);
    if !keyword.Done? then keyword.Propagate() else
    var gap1 := Space1(keyword.rest);
    if !gap1.Done? then gap1.Propagate() else
    var into := Tag("into", gap1.rest);
    if !into.Done? then into.Propagate() else
    var gap2 := Space1(into.rest);
    if !gap2.Done? then gap2.Propagate() else
    var table := Alphanumeric1(gap2.rest);
    if !table.Done? then table.Propagate() else
    var gap3 := Space1(table.rest);
    if !gap3.Done? then gap3.Propagate() else
    var columns := Parenthesised(gap3.rest);
    if !columns.Done? then columns.Propagate() else
    var gap4 := Space1(columns.rest);
    if !gap4.Done? then gap4.Propagate() else
    var values := Tag("values", gap4.rest);
    if !values.Done? then values.Propagate() else
    var gap5 := Space1(values.rest);
    if !gap5.Done? then gap5.Propagate() else
    var items := Parenthesised(gap5.rest);
    if !items.Done? then items.Propagate() else
    var semicolon := Tag(";", items.rest);
    if !semicolon.Done? then semicolon.Propagate() else
    SuffixTransitive(gap1.rest, keyword.rest, s);
    SuffixTransitive(into.rest, gap1.rest, s);
    SuffixTransitive(gap2.rest, into.rest, s);
    SuffixTransitive(table.rest, gap2.rest, s);
    SuffixTransitive(gap3.rest, table.rest, s);
    SuffixTransitive(columns.rest, gap3.rest, s);
    SuffixTransitive(gap4.rest, columns.rest, s);
    SuffixTransitive(values.rest, gap4.rest, s);
    SuffixTransitive(gap5.rest, values.rest, s);
    SuffixTransitive(items.rest, gap5.rest, s);
    SuffixTransitive(semicolon.rest, items.rest, s);
    assert Spaces(gap1.value) && Spaces(gap2.value) && Spaces(gap3.value) && Spaces(gap4.value) && Spaces(gap5.value);
    Done(semicolon.rest, InsertQuery(table.value, columns.value, items.value))
  }

  /** The `tag("("), parse_columns, tag(")")` steps, used for both name lists. */
  function Parenthesised(s: string): (r: Outcome<seq<string>>)
    ensures !r.Panic?
    ensures Advances(r, s)
    ensures r.Done? ==> |r.value| >= 1 && forall v :: v in r.value ==> IsName(v)
    ensures r.Done? ==> s == "(" + (Joined(r.value, ", ") + (")" + r.rest))
  {
    var open := Tag("(", s);
    if !open.Done? then open.Propagate() else
    var names := ParseColumns(open.rest);
    if !names.Done? then names.Propagate() else
    var close := Tag(")", names.rest);
    if !close.Done? then close.Propagate() else
    SuffixTransitive(names.rest, open.rest, s);
    SuffixTransitive(close.rest, names.rest, s);
    Done(close.rest, names.value)
  }

  /** `parse_columns`: one or more alphanumeric runs separated by exactly `", "`. */
  function ParseColumns(s: string): (r: Outcome<seq<string>>)
    ensures !r.Panic?
    ensures r.Error? <==> !(|s| > 0 && IsAlnum(s[0]))
    ensures Advances(r, s)
    ensures r.Done? ==> |r.value| >= 1 && forall v :: v in r.value ==> IsName(v)
    ensures r.Done? ==> !StartsWith(r.rest, ", ") || !(|r.rest| > 2 && IsAlnum(r.rest[2]))
    ensures r.Done? ==> s == Joined(r.value, ", ") + r.rest
  {
    SeparatedListValues(", ", Alphanumeric1, IsName, s);
    SeparatedListText(", ", Alphanumeric1, s);
    SeparatedList1(", ", Alphanumeric1, s)
  }
}
