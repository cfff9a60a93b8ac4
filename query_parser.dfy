/**
  The statement-level parsers of src/parser/query_parser.rs (the same code
  appears in src/parser/mod.rs): a query is a select query, else an insert
  query, else the parse aborts; a script is one or more queries separated by
  `;`.
*/
module QueryParser {
  import opened Combinators
  import opened ParseTree
  import opened SelectParser
  import opened InsertParser

  /**
    `Query::parse`. A panic inside the select attempt is not caught; a select
    that fails recoverably falls through to the insert attempt, and when that
    fails too the parse aborts. So this parser never fails recoverably.
  */
  function QueryParse(s: string): (r: Outcome<Query>)
    ensures Advances(r, s)
    ensures !r.Error?
    ensures r.Done? ==> ParsedQuery(r.value)
    ensures SelectQueryParse(s).Done? ==> r == Done(SelectQueryParse(s).rest, Select(SelectQueryParse(s).value))
    ensures SelectQueryParse(s).Error? && InsertQueryParse(s).Done? ==>
      r == Done(InsertQueryParse(s).rest, Insert(InsertQueryParse(s).value))
    ensures r.Done? && r.value.Insert? ==> SelectQueryParse(s).Error? && StartsWith(s, "insert")
    ensures r.Done? && r.value.Select? ==> StartsWith(s, "select")
    ensures r.Panic? <==> SelectQueryParse(s).Panic? || (SelectQueryParse(s).Error? && InsertQueryParse(s).Error?)
    ensures r.Panic? && !SelectQueryParse(s).Panic? ==> r.abort == QueryNotRecognized
  {
    var select := SelectQueryParse(s);
    if select.Done? then Done(select.rest, Select(select.value))
    else if select.Panic? then Panic(select.abort)
    else
      var insert := InsertQueryParse(s);
      if insert.Done? then Done(insert.rest, Insert(insert.value))
      else Panic(QueryNotRecognized)
  }

  lemma QueryParseConsumes()
    ensures forall t :: Consumes(QueryParse(t), t)
  {
    forall t
      ensures Consumes(QueryParse(t), t)
    {
      var r := QueryParse(t);
      assert Advances(r, t);
    }
  }

  /**
    `Queries::parse`: `separated_list1(tag(";"), Query::parse)`. Because a
    query never fails recoverably, the list ends only where the remaining text
    does not start with `;`: a `;` is always followed by another query or by a
    panic.
  */
  function QueriesParse(s: string): (r: Outcome<Queries>)
    ensures Consumes(r, s)
    ensures !r.Error?
    ensures r.Done? ==> |r.value.queries| >= 1 && (forall q :: q in r.value.queries ==> ParsedQuery(q))
    ensures r.Done? ==> r.rest == [] || r.rest[0] != ';'
  {
    QueryParseConsumes();
    SeparatedListValues(";", QueryParse, ParsedQuery, s);
    var queries := SeparatedList1(";", QueryParse, s);
    if !queries.Done? then queries.Propagate() else
    assert !StartsWith(queries.rest, ";") || QueryParse(queries.rest[1..]).Error?;
    Done(queries.rest, Queries(queries.value))
  }
}
