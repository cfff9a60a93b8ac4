/**
  Round trips: the parsers read the printer's text back into the tree it was
  printed from, and stop exactly where that text ends.
*/
module RoundTrip {
  import opened Wrappers
  import opened Combinators
  import opened ParseTree
  import opened SelectParser
  import opened InsertParser
  import opened QueryParser
  import opened Printer

  /** The longest run of `p` ends where `t` ends when what follows does not satisfy `p`. */
  lemma {:induction false} TakeWhileStops(p: char -> bool, t: string, rest: string)
    requires All(p, t)
    requires rest == [] || !p(rest[0])
    ensures TakeWhile(p, t + rest) == |t|
    decreases |t|
  {
    if |t| == 0 {
      assert t + rest == rest;
    } else {
      assert (t + rest)[1..] == t[1..] + rest;
      TakeWhileStops(p, t[1..], rest);
    }
  }

  lemma TakeWhile1Stops(p: char -> bool, t: string, rest: string)
    requires |t| > 0 && All(p, t)
    requires rest == [] || !p(rest[0])
    ensures TakeWhile1(p, t + rest) == Done(rest, t)
  {
    TakeWhileStops(p, t, rest);
    assert (t + rest)[..|t|] == t;
    assert (t + rest)[|t|..] == rest;
  }

  lemma TagPrefix(t: string, rest: string)
    ensures Tag(t, t + rest) == Done(rest, t)
  {
    assert (t + rest)[..|t|] == t;
    assert (t + rest)[|t|..] == rest;
  }

  /** `DigitsValue` reads back what `Decimal` writes. */
  lemma {:induction false} DecimalValue(n: nat)
    ensures DigitsValue(Decimal(n)) == n
    decreases n
  {
    if n >= 10 {
      DecimalValue(n / 10);
      var d := Decimal(n);
      assert d[..|d| - 1] == Decimal(n / 10);
    }
  }

  /** nom's `i32` reads back a signed integer, whatever non-digit follows it. */
  lemma I32RoundTrip(v: int32, rest: string)
    requires rest == [] || !IsDigit(rest[0])
    ensures I32(RenderInteger(v) + rest) == Done(rest, v)
  {
    var m: nat := if v < 0 then -(v as int) else v;
    var sign := if v < 0 then '-' else '+';
    assert RenderInteger(v) + rest == [sign] + (Decimal(m) + rest);
    SignedRoundTrip(sign, m, rest);
  }

  lemma SignedRoundTrip(sign: char, m: nat, rest: string)
    requires sign == '-' || sign == '+'
    requires MinI32 <= (if sign == '-' then -(m as int) else m) <= MaxI32
    requires rest == [] || !IsDigit(rest[0])
    ensures I32([sign] + (Decimal(m) + rest)) == Done(rest, if sign == '-' then -(m as int) else m)
  {
    var s := [sign] + (Decimal(m) + rest);
    assert s[0] == sign;
    assert s[1..] == Decimal(m) + rest;
    MagnitudeRoundTrip(m, rest);
  }

  /**
    `i32` on a signed decimal number succeeds exactly when the signed value is
    in range: a magnitude one too large is rejected, not wrapped.
  */
  lemma I32RangeCheck(sign: char, m: nat, rest: string)
    requires sign == '-' || sign == '+'
    requires rest == [] || !IsDigit(rest[0])
    ensures I32([sign] + (Decimal(m) + rest)).Done? <==> MinI32 <= Signed([sign], m) <= MaxI32
  {
    var s := [sign] + (Decimal(m) + rest);
    assert s[0] == sign;
    assert s[1..] == Decimal(m) + rest;
    MagnitudeRoundTrip(m, rest);
  }

  lemma MagnitudeRoundTrip(m: nat, rest: string)
    requires rest == [] || !IsDigit(rest[0])
    ensures var u := Decimal(m) + rest;
      TakeWhile(IsDigit, u) == |Decimal(m)| && u[..|Decimal(m)|] == Decimal(m) && u[|Decimal(m)|..] == rest
      && DigitsValue(u[..|Decimal(m)|]) == m
  {
    var d := Decimal(m);
    TakeWhileStops(IsDigit, d, rest);
    assert (d + rest)[..|d|] == d;
    assert (d + rest)[|d|..] == rest;
    DecimalValue(m);
  }

  /** What may follow a name without extending it. */
  predicate NameEnds(t: string) {
    t == [] || !IsAlnum(t[0])
  }

  /** The column parser reads back every column item it can return. */
  lemma ColumnRoundTrip(c: ColumnStatement, rest: string)
    requires ParsedColumn(c)
    requires NameEnds(rest)
    ensures ColumnStatementParse(RenderColumn(c) + rest) == Done(rest, c)
  {
    match c
    case ColumnStatementIdentifier(id) =>
      var s := id.columnName + rest;
      TakeWhileStops(IsAlnum, id.columnName, rest);
      assert s[..|id.columnName|] == id.columnName;
      assert s[|id.columnName|..] == rest;
    case ColumnStatementLiteral(literal) =>
      LiteralRoundTrip(literal, rest);
  }

  lemma LiteralRoundTrip(literal: Literal, rest: string)
    requires ParsedColumn(ColumnStatementLiteral(literal))
    requires NameEnds(rest)
    ensures LiteralParse(RenderColumn(ColumnStatementLiteral(literal)) + rest) == Done(rest, literal)
  {
    match literal
    case Integer(n) =>
      I32RoundTrip(n, rest);
    case String(text) =>
      QuotedRoundTrip(text, rest);
  }

  lemma QuotedRoundTrip(text: string, rest: string)
    requires IsWord(text)
    ensures LiteralParse("'" + text + "'" + rest) == Done(rest, String(text))
  {
    var s := "'" + text + "'" + rest;
    assert I32(s).Error?;
    assert s == "'" + (text + ("'" + rest));
    TagPrefix("'", text + ("'" + rest));
    TakeWhile1Stops(IsAlpha, text, "'" + rest);
    TagPrefix("'", rest);
  }

  /** The alphanumeric-run parser reads back a name. */
  lemma NameRoundTrip(name: string, rest: string)
    requires IsName(name)
    requires NameEnds(rest)
    ensures Alphanumeric1(name + rest) == Done(rest, name)
  {
    TakeWhile1Stops(IsAlnum, name, rest);
  }

  /** `xs` in front of whatever a parse produced. */
  function Prepend<T>(xs: seq<T>, o: Outcome<seq<T>>): Outcome<seq<T>> {
    if o.Done? then Done(o.rest, xs + o.value) else o
  }

  /** What follows the `i`-th part of a joined list. */
  function Following(sep: string, parts: seq<string>, i: nat, rest: string): string
    requires i < |parts|
  {
    Interleaved(sep, parts[i + 1..]) + rest
  }

  /** A part is followed either by the text after the list or by a separator. */
  lemma FollowingStarts(sep: string, parts: seq<string>, i: nat, rest: string)
    requires i < |parts|
    ensures Following(sep, parts, i, rest) == rest || StartsWith(Following(sep, parts, i, rest), sep)
  {
    var more := parts[i + 1..];
    if more != [] {
      assert Following(sep, parts, i, rest) == sep + (more[0] + Interleaved(sep, more[1..]) + rest);
      TagPrefix(sep, more[0] + Interleaved(sep, more[1..]) + rest);
    } else {
      assert Following(sep, parts, i, rest) == rest;
    }
  }

  /** `item` reads each part back as the matching value, in its place in the joined list. */
  ghost predicate ReadsBack<T>(item: string -> Outcome<T>, xs: seq<T>, parts: seq<string>, sep: string, rest: string) {
    && |xs| == |parts|
    && forall i :: 0 <= i < |parts| ==>
         item(parts[i] + Following(sep, parts, i, rest)) == Done(Following(sep, parts, i, rest), xs[i])
  }

  lemma ReadsBackTail<T>(item: string -> Outcome<T>, xs: seq<T>, parts: seq<string>, sep: string, rest: string)
    requires ReadsBack(item, xs, parts, sep, rest) && |parts| >= 1
    ensures ReadsBack(item, xs[1..], parts[1..], sep, rest)
  {
    forall i | 0 <= i < |parts[1..]|
      ensures item(parts[1..][i] + Following(sep, parts[1..], i, rest)) == Done(Following(sep, parts[1..], i, rest), xs[1..][i])
    {
      assert parts[1..][i + 1..] == parts[i + 2..];
      assert Following(sep, parts[1..], i, rest) == Following(sep, parts, i + 1, rest);
    }
  }

  /**
    The `sep item` repetitions read every printed item back and then go on
    exactly as they would on what follows the list.
  */
  lemma {:induction false} SeparatedTailRoundTrip<T>(sep: string, item: string -> Outcome<T>,
                                                     xs: seq<T>, parts: seq<string>, rest: string)
    requires sep != []
    requires forall t :: Consumes(item(t), t)
    requires ReadsBack(item, xs, parts, sep, rest)
    ensures SeparatedTail(sep, item, Interleaved(sep, parts) + rest) == Prepend(xs, SeparatedTail(sep, item, rest))
    decreases |parts|
  {
    if parts == [] {
      assert Interleaved(sep, parts) + rest == rest;
      var o := SeparatedTail(sep, item, rest);
      if o.Done? {
        assert xs + o.value == o.value;
      }
    } else {
      var after := Following(sep, parts, 0, rest);
      assert Interleaved(sep, parts) + rest == sep + (parts[0] + after);
      TagPrefix(sep, parts[0] + after);
      assert item(parts[0] + after) == Done(after, xs[0]);
      ReadsBackTail(item, xs, parts, sep, rest);
      SeparatedTailRoundTrip(sep, item, xs[1..], parts[1..], rest);
      var o := SeparatedTail(sep, item, rest);
      if o.Done? {
        ConsAppend(xs, o.value);
      }
    }
  }

  /** `separated_list1` reads back a joined list, and then goes on as on what follows it. */
  lemma SeparatedListRoundTrip<T>(sep: string, item: string -> Outcome<T>, xs: seq<T>, parts: seq<string>, rest: string)
    requires sep != []
    requires forall t :: Consumes(item(t), t)
    requires ReadsBack(item, xs, parts, sep, rest) && |parts| >= 1
    ensures SeparatedList1(sep, item, Joined(parts, sep) + rest) == Prepend(xs, SeparatedTail(sep, item, rest))
  {
    var after := Following(sep, parts, 0, rest);
    var s := Joined(parts, sep) + rest;
    assert s == parts[0] + after;
    assert item(s) == Done(after, xs[0]);
    ReadsBackTail(item, xs, parts, sep, rest);
    SeparatedTailRoundTrip(sep, item, xs[1..], parts[1..], rest);
    var o := SeparatedTail(sep, item, rest);
    assert SeparatedTail(sep, item, after) == Prepend(xs[1..], o);
    if o.Done? {
      ConsAppend(xs, o.value);
    }
  }

  lemma ConsAppend<T>(xs: seq<T>, ys: seq<T>)
    requires |xs| >= 1
    ensures [xs[0]] + (xs[1..] + ys) == xs + ys
  {
    assert xs == [xs[0]] + xs[1..];
  }

  /** The repetitions stop at once where the text does not start with the separator. */
  lemma TailStops<T>(sep: string, item: string -> Outcome<T>, xs: seq<T>, rest: string)
    requires sep != []
    requires forall t :: Consumes(item(t), t)
    requires !StartsWith(rest, sep)
    ensures Prepend(xs, SeparatedTail(sep, item, rest)) == Done(rest, xs)
  {
    assert xs + [] == xs;
  }

  lemma ColumnConsumes()
    ensures forall t :: Consumes(ColumnStatementParse(t), t)
  {
    forall t
      ensures Consumes(ColumnStatementParse(t), t)
    {
      assert Advances(ColumnStatementParse(t), t);
    }
  }

  /** The column list written out for the recursion is nom's `separated_list1`. */
  lemma ColumnListIsSeparatedList(s: string)
    ensures ColumnConsumesAll() && ColumnList(s) == SeparatedList1(", ", ColumnStatementParse, s)
  {
    ColumnConsumes();
    var first := ColumnStatementParse(s);
    if first.Done? {
      ColumnListTailIsSeparatedTail(first.rest);
    }
  }

  lemma {:induction false} ColumnListTailIsSeparatedTail(s: string)
    ensures ColumnConsumesAll() && ColumnListTail(s) == SeparatedTail(", ", ColumnStatementParse, s)
    decreases |s|
  {
    ColumnConsumes();
    var afterSep := Tag(", ", s);
    if afterSep.Done? {
      var x := ColumnStatementParse(afterSep.rest);
      if x.Done? {
        ColumnListTailIsSeparatedTail(x.rest);
      }
    }
  }

  ghost predicate ColumnConsumesAll() {
    forall t :: Consumes(ColumnStatementParse(t), t)
  }

  /** The column list reads back a printed list of column items. */
  lemma ColumnsRoundTrip(cols: seq<ColumnStatement>, rest: string)
    requires |cols| >= 1 && forall c :: c in cols ==> ParsedColumn(c)
    requires NameEnds(rest) && !StartsWith(rest, ", ")
    ensures ColumnList(Joined(RenderColumns(cols), ", ") + rest) == Done(rest, cols)
  {
    var parts := RenderColumns(cols);
    forall i | 0 <= i < |parts|
      ensures ColumnStatementParse(parts[i] + Following(", ", parts, i, rest)) == Done(Following(", ", parts, i, rest), cols[i])
    {
      FollowingStarts(", ", parts, i, rest);
      ColumnRoundTrip(cols[i], Following(", ", parts, i, rest));
    }
    assert ReadsBack(ColumnStatementParse, cols, parts, ", ", rest);
    ColumnListIsSeparatedList(Joined(parts, ", ") + rest);
    SeparatedListRoundTrip(", ", ColumnStatementParse, cols, parts, rest);
    TailStops(", ", ColumnStatementParse, cols, rest);
  }

  /** `space1` reads one space before text that does not start with one. */
  lemma SpaceBefore(t: string)
    requires t == [] || !IsSpace(t[0])
    ensures Space1(" " + t) == Done(t, " ")
  {
    TakeWhile1Stops(IsSpace, " ", t);
  }

  lemma SpaceBeforeName(name: string, rest: string)
    requires IsName(name)
    ensures Space1(" " + (name + rest)) == Done(name + rest, " ")
  {
    assert (name + rest)[0] == name[0];
    SpaceBefore(name + rest);
  }

  lemma SpaceBeforeColumns(cols: seq<ColumnStatement>, rest: string)
    requires |cols| >= 1 && forall c :: c in cols ==> ParsedColumn(c)
    ensures var t := Joined(RenderColumns(cols), ", ") + rest;
      Space1(" " + t) == Done(t, " ")
  {
    var parts := RenderColumns(cols);
    assert (Joined(parts, ", ") + rest)[0] == parts[0][0];
    SpaceBefore(Joined(parts, ", ") + rest);
  }

  /** The ` from table;` part of a select query. */
  lemma FromClauseRoundTrip(table: string, rest: string)
    requires IsName(table)
    ensures Space1(" " + ("from" + (" " + (table + (";" + rest))))) == Done("from" + (" " + (table + (";" + rest))), " ")
    ensures Tag("from", "from" + (" " + (table + (";" + rest)))) == Done(" " + (table + (";" + rest)), "from")
    ensures Space1(" " + (table + (";" + rest))) == Done(table + (";" + rest), " ")
    ensures FromStatementParse(table + (";" + rest)) == Done(";" + rest, FromStatement([TableStatement(table, None)], []))
    ensures Tag(";", ";" + rest) == Done(rest, ";")
  {
    SpaceBefore("from" + (" " + (table + (";" + rest))));
    TagPrefix("from", " " + (table + (";" + rest)));
    SpaceBeforeName(table, ";" + rest);
    NameRoundTrip(table, ";" + rest);
    TagPrefix(";", rest);
  }

  /** The select parser reads back every select query it can return, whatever follows it. */
  lemma SelectRoundTrip(q: SelectQuery, rest: string)
    requires ParsedSelect(q)
    ensures SelectQueryParse(RenderSelect(q) + rest) == Done(rest, q)
  {
    var cols := q.selectStatement.columns;
    var table := q.fromStatement.tables[0].tableName;
    var C := " " + ("from" + (" " + (table + (";" + rest))));
    var B := Joined(RenderColumns(cols), ", ") + C;
    PrintedSelectText(q, rest);
    TagPrefix("select", " " + B);
    SpaceBeforeColumns(cols, C);
    FromClauseEndsList(table, rest);
    ColumnsRoundTrip(cols, C);
    FromClauseRoundTrip(table, rest);
    SelectShape(q);
  }

  lemma FromClauseEndsList(table: string, rest: string)
    ensures var C := " " + ("from" + (" " + (table + (";" + rest))));
      NameEnds(C) && !StartsWith(C, ", ")
  {
    var C := " " + ("from" + (" " + (table + (";" + rest))));
    assert C[0] == ' ' && C[1] == 'f';
  }

  lemma SelectShape(q: SelectQuery)
    requires ParsedSelect(q)
    ensures q == SelectQuery(SelectStatement(q.selectStatement.columns, false),
      FromStatement([TableStatement(q.fromStatement.tables[0].tableName, None)], []), None, None, None, None, None)
  {
    assert q.fromStatement.tables == [q.fromStatement.tables[0]];
  }

  lemma PrintedSelectText(q: SelectQuery, rest: string)
    requires ParsedSelect(q)
    ensures RenderSelect(q) + rest
      == "select" + (" " + (Joined(RenderColumns(q.selectStatement.columns), ", ")
           + (" " + ("from" + (" " + (q.fromStatement.tables[0].tableName + (";" + rest)))))))
  {
  }

  /** `parse_columns` reads back a printed list of names. */
  lemma NamesRoundTrip(names: seq<string>, rest: string)
    requires |names| >= 1 && forall n :: n in names ==> IsName(n)
    requires NameEnds(rest) && !StartsWith(rest, ", ")
    ensures ParseColumns(Joined(names, ", ") + rest) == Done(rest, names)
  {
    forall t
      ensures Consumes(Alphanumeric1(t), t)
    {
      assert Advances(Alphanumeric1(t), t);
    }
    forall i | 0 <= i < |names|
      ensures Alphanumeric1(names[i] + Following(", ", names, i, rest)) == Done(Following(", ", names, i, rest), names[i])
    {
      FollowingStarts(", ", names, i, rest);
      NameRoundTrip(names[i], Following(", ", names, i, rest));
    }
    assert ReadsBack(Alphanumeric1, names, names, ", ", rest);
    SeparatedListRoundTrip(", ", Alphanumeric1, names, names, rest);
    TailStops(", ", Alphanumeric1, names, rest);
  }

  lemma ParenthesisedRoundTrip(names: seq<string>, rest: string)
    requires |names| >= 1 && forall n :: n in names ==> IsName(n)
    ensures Parenthesised("(" + Joined(names, ", ") + ")" + rest) == Done(rest, names)
  {
    var list := Joined(names, ", ");
    var s := "(" + list + ")" + rest;
    var open := Tag("(", s);
    assert open == Done(list + (")" + rest), "(") by {
      assert s == "(" + (list + (")" + rest));
      TagPrefix("(", list + (")" + rest));
    }
    var columns := ParseColumns(open.rest);
    assert columns == Done(")" + rest, names) by {
      NamesRoundTrip(names, ")" + rest);
    }
    var close := Tag(")", columns.rest);
    assert close == Done(rest, ")") by {
      TagPrefix(")", rest);
    }
  }

  lemma PrintedInsertText(q: InsertQuery, rest: string)
    requires ParsedInsert(q)
    ensures RenderInsert(q) + rest
      == "insert" + (" " + ("into" + (" " + (q.tableName + (" " + (("(" + Joined(q.columns, ", ") + ")")
           + (" " + ("values" + (" " + (("(" + Joined(q.values, ", ") + ")") + (";" + rest)))))))))))
  {
    var t := q.tableName;
    var J1 := Joined(q.columns, ", ");
    var J2 := Joined(q.values, ", ");
    var W := ("(" + J2 + ")") + (";" + rest);
    calc {
      RenderInsert(q) + rest;
      ((((("insert into " + t) + " (") + J1) + ") values (") + J2) + ");" + rest;
      { Assoc((((("insert into " + t) + " (") + J1) + ") values (") + J2, ");", rest); }
      ((((("insert into " + t) + " (") + J1) + ") values (") + J2) + (");" + rest);
      { Assoc(((("insert into " + t) + " (") + J1) + ") values (", J2, ");" + rest); }
      ((("insert into " + t) + " (") + J1) + ") values (" + (J2 + (");" + rest));
      { Assoc((("insert into " + t) + " (") + J1, ") values (", J2 + (");" + rest)); }
      ((("insert into " + t) + " (") + J1) + (") values (" + (J2 + (");" + rest)));
      { Assoc(("insert into " + t) + " (", J1, ") values (" + (J2 + (");" + rest))); }
      (("insert into " + t) + " (") + (J1 + (") values (" + (J2 + (");" + rest))));
      { Assoc("insert into " + t, " (", J1 + (") values (" + (J2 + (");" + rest)))); }
      ("insert into " + t) + (" (" + (J1 + (") values (" + (J2 + (");" + rest)))));
      { Assoc("insert into ", t, " (" + (J1 + (") values (" + (J2 + (");" + rest))))); }
      "insert into " + (t + (" (" + (J1 + (") values (" + (J2 + (");" + rest))))));
      { ValuesText(J2, rest); ColumnsText(J1, W); }
      "insert into " + (t + (" " + (("(" + J1 + ")") + (" " + ("values" + (" " + W))))));
      { HeadText("insert into ", "insert", "into", t + (" " + (("(" + J1 + ")") + (" " + ("values" + (" " + W)))))); }
      "insert" + (" " + ("into" + (" " + (t + (" " + (("(" + J1 + ")") + (" " + ("values" + (" " + W)))))))));
    }
  }

  lemma Assoc(a: string, b: string, c: string)
    ensures a + b + c == a + (b + c)
  {
  }

  lemma HeadText(head: string, first: string, second: string, x: string)
    requires head == first + " " + second + " "
    ensures head + x == first + (" " + (second + (" " + x)))
  {
  }

  lemma ValuesText(J2: string, rest: string)
    ensures ") values (" + (J2 + (");" + rest))
      == ")" + (" " + ("values" + (" " + (("(" + J2 + ")") + (";" + rest)))))
  {
  }

  lemma ColumnsText(J1: string, W: string)
    ensures " (" + (J1 + (")" + (" " + ("values" + (" " + W)))))
      == " " + (("(" + J1 + ")") + (" " + ("values" + (" " + W))))
  {
  }

  lemma SpaceBeforeWord(w: string, t: string)
    requires |w| > 0 && !IsSpace(w[0])
    ensures Space1(" " + (w + t)) == Done(w + t, " ")
  {
    assert (w + t)[0] == w[0];
    SpaceBefore(w + t);
  }

  lemma SpaceBeforeList(names: seq<string>, t: string)
    requires |names| >= 1
    ensures var u := "(" + Joined(names, ", ") + ")" + t;
      Space1(" " + u) == Done(u, " ")
  {
    var u := "(" + Joined(names, ", ") + ")" + t;
    assert u[0] == '(';
    SpaceBefore(u);
  }

  lemma NameBeforeSpace(name: string, t: string)
    requires IsName(name)
    ensures Alphanumeric1(name + (" " + t)) == Done(" " + t, name)
  {
    NameRoundTrip(name, " " + t);
  }

  /** The insert parser reads back every insert query it can return, whatever follows it. */
  lemma InsertRoundTrip(q: InsertQuery, rest: string)
    requires ParsedInsert(q)
    ensures InsertQueryParse(RenderInsert(q) + rest) == Done(rest, q)
  {
    var P1 := "(" + Joined(q.columns, ", ") + ")";
    var P2 := "(" + Joined(q.values, ", ") + ")";
    var J := " " + (P2 + (";" + rest));
    var H := " " + ("values" + J);
    var F := " " + (P1 + H);
    var D := " " + (q.tableName + F);
    PrintedInsertText(q, rest);
    InsertHeadSteps(q.tableName, q.columns, H);
    InsertValuesSteps(q.values, rest);
    InsertSteps(RenderInsert(q) + rest, " " + ("into" + D), "into" + D, D, q.tableName + F, F,
      P1 + H, H, "values" + J, J, P2 + (";" + rest), ";" + rest, q, rest);
  }

  /** The steps of the insert parser up to the column list. */
  lemma InsertHeadSteps(table: string, columns: seq<string>, H: string)
    requires IsName(table) && |columns| >= 1 && forall c :: c in columns ==> IsName(c)
    ensures var P1 := "(" + Joined(columns, ", ") + ")";
      var F := " " + (P1 + H);
      var D := " " + (table + F);
      && Leaves(Tag("insert", "insert" + (" " + ("into" + D))), " " + ("into" + D))
      && Leaves(Space1(" " + ("into" + D)), "into" + D)
      && Leaves(Tag("into", "into" + D), D)
      && Leaves(Space1(D), table + F)
      && Alphanumeric1(table + F) == Done(F, table)
      && Leaves(Space1(F), P1 + H)
      && Parenthesised(P1 + H) == Done(H, columns)
  {
    var P1 := "(" + Joined(columns, ", ") + ")";
    var F := " " + (P1 + H);
    var D := " " + (table + F);
    TagPrefix("insert", " " + ("into" + D));
    SpaceBeforeWord("into", D);
    TagPrefix("into", D);
    SpaceBeforeName(table, F);
    NameBeforeSpace(table, P1 + H);
    SpaceBeforeList(columns, H);
    ParenthesisedRoundTrip(columns, H);
  }

  /** The steps of the insert parser from `values` to the end. */
  lemma InsertValuesSteps(values: seq<string>, rest: string)
    requires |values| >= 1 && forall v :: v in values ==> IsName(v)
    ensures var P2 := "(" + Joined(values, ", ") + ")";
      var J := " " + (P2 + (";" + rest));
      && Leaves(Space1(" " + ("values" + J)), "values" + J)
      && Leaves(Tag("values", "values" + J), J)
      && Leaves(Space1(J), P2 + (";" + rest))
      && Parenthesised(P2 + (";" + rest)) == Done(";" + rest, values)
      && Leaves(Tag(";", ";" + rest), rest)
  {
    var P2 := "(" + Joined(values, ", ") + ")";
    var J := " " + (P2 + (";" + rest));
    SpaceBeforeWord("values", J);
    TagPrefix("values", J);
    SpaceBeforeList(values, ";" + rest);
    ParenthesisedRoundTrip(values, ";" + rest);
    TagPrefix(";", rest);
  }

  /** A step that succeeds and leaves `rest`. */
  predicate Leaves<T>(o: Outcome<T>, rest: string) {
    o.Done? && o.rest == rest
  }

  /** The insert parser's steps, given what each one leaves. */
  lemma InsertSteps(s: string, a1: string, a2: string, a3: string, a4: string, a5: string,
                    a6: string, a7: string, a8: string, a9: string, a10: string, a11: string,
                    q: InsertQuery, rest: string)
    requires Leaves(Tag("insert", s), a1)
    requires Leaves(Space1(a1), a2)
    requires Leaves(Tag("into", a2), a3)
    requires Leaves(Space1(a3), a4)
    requires Alphanumeric1(a4) == Done(a5, q.tableName)
    requires Leaves(Space1(a5), a6)
    requires Parenthesised(a6) == Done(a7, q.columns)
    requires Leaves(Space1(a7), a8)
    requires Leaves(Tag("values", a8), a9)
    requires Leaves(Space1(a9), a10)
    requires Parenthesised(a10) == Done(a11, q.values)
    requires Leaves(Tag(";", a11), rest)
    ensures InsertQueryParse(s) == Done(rest, q)
  {
  }

  /** A query reads back as itself: an insert query's text never starts like a select query. */
  lemma QueryRoundTrip(q: Query, rest: string)
    requires ParsedQuery(q)
    ensures QueryParse(RenderQuery(q) + rest) == Done(rest, q)
  {
    match q
    case Select(select) =>
      SelectRoundTrip(select, rest);
    case Insert(insert) =>
      var s := RenderInsert(insert) + rest;
      assert s[0] == 'i';
      assert SelectQueryParse(s).Error?;
      InsertRoundTrip(insert, rest);
  }

  /**
    A script of queries, each printed with its own closing `;` and separated by
    one more `;`, reads back as the same queries, whatever follows that does not
    start with `;`.
  */
  lemma QueriesRoundTrip(qs: seq<Query>, rest: string)
    requires |qs| >= 1 && forall q :: q in qs ==> ParsedQuery(q)
    requires !StartsWith(rest, ";")
    ensures QueriesParse(Joined(RenderQueries(qs), ";") + rest) == Done(rest, Queries(qs))
  {
    var parts := RenderQueries(qs);
    QueryParseConsumes();
    QueriesReadBack(qs, rest);
    SeparatedListRoundTrip(";", QueryParse, qs, parts, rest);
    TailStops(";", QueryParse, qs, rest);
  }

  /** Each printed query of a script reads back as itself, whatever follows the script. */
  lemma QueriesReadBack(qs: seq<Query>, rest: string)
    requires forall q :: q in qs ==> ParsedQuery(q)
    ensures ReadsBack(QueryParse, qs, RenderQueries(qs), ";", rest)
  {
    var parts := RenderQueries(qs);
    forall i | 0 <= i < |parts|
      ensures QueryParse(parts[i] + Following(";", parts, i, rest)) == Done(Following(";", parts, i, rest), qs[i])
    {
      QueryRoundTrip(qs[i], Following(";", parts, i, rest));
    }
  }
}
