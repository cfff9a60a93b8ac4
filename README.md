# A verified model of the query parser and analyzer of `db`

`db` reads a small SQL subset and turns it into a logical plan. This project
models two parts of it in Dafny and proves properties of the model.

**The parser** (`src/parser/query_parser.rs` and its `select_parser.rs` and
`insert_parser.rs`; `src/parser/mod.rs` holds the same code a second time) is
built from nom combinators. It reads a `;`-separated script of `select` and
`insert` queries into a parse tree. It is modelled by pure functions:
- `combinators.dfy` gives the nom primitives it uses: `tag`, `space1`,
  `alpha1`, `alphanumeric1`, `i32` and `separated_list1`.
- `select_parser.dfy`, `insert_parser.dfy` and `query_parser.dfy` hold one
  function per `parse` of the source.

Every parser returns an `Outcome`, which has three cases:
- `Done(rest, value)`;
- `Error`, nom's recoverable failure, which ordered choice and
  `separated_list1` step past;
- `Panic`, the source's `panic!`, which nothing catches.

The source has no printer. `printer.dfy` writes the text of any tree the
parser can return, and `round_trip.dfy` proves that each parser reads that
text back, stopping exactly where it ends. `parser_examples.dfy` restates the
source's tests and some consequences of the grammar.

**The analyzer** (`src/analyzer/mod.rs`) lowers a syntax tree to a logical
plan. `analyzer.dfy` models it:
- the list walkers are classes with a `seq` field that a recursive `Walk`
  method grows;
- the `From` arm of `Analyzer::walk` is a loop;
- the other parts are functions that specify those methods.

Each `panic!`, each out-of-range index and each `unwrap` of `None` becomes an
`AnalysisError`. `analyzer_properties.dfy` proves properties of the
flattening and of the plan shape, plus the three analyzer tests. The tests'
inputs are written as trees, because the lexer and parser that build those
trees are not part of this model.

## Behaviours worth knowing

- **Failures abort.** There are no structured parse errors: the code panics
  when no query or column item matches. The parser model returns `Panic`
  there. A script with a `;` after its last query
  aborts (`TrailingSeparatorAborts`).
- **One table per select.** `FromStatement::parse` reads exactly one table
  after `from`; a table list is not accepted.
- **Insert values are not typed.** `parse_columns` keeps each value as raw
  alphanumeric text, with no integer or string distinction. A
  quoted value is not accepted, so the query is not recognized
  (`QuotedInsertValueAborts`). Nothing checks that the value count matches the
  column count (`MismatchedCountsAccepted`).
- **An unsigned number is an identifier.** In a select list, `11` is read as
  an identifier, because `alphanumeric1` is tried first. Only a signed number
  such as `+11` or `-11` becomes an integer literal. The function-call
  alternative can never win: any text `alpha1` accepts, `alphanumeric1`
  accepts as well.
- **Queries need a doubled `;`.** Each query ends with its own `;`, and
  queries are also separated by `;`. Two queries written one after the other
  therefore parse as the first query, and the second is left unread
  (`AdjacentQueriesNotSplit`).
- **A `From` root keeps one read.** `analyze` takes element `[0]` of the
  lowering. For a bare `From` root with several tables, the plan keeps only
  the first read (`FromRootKeepsFirstRead`).

## Model

| member | source | states |
|---|---|---|
| Combinators.Tag | src/parser/query_parser/select_parser.rs:10 | `tag(t)` succeeds exactly when the input starts with `t`; it returns `t` and the text after it |
| Combinators.TakeWhile1 | src/parser/query_parser/select_parser.rs:73 | `space1`/`alpha1`/`alphanumeric1` succeed exactly when the first character is in the class. They take a non-empty run of the class that the next character does not continue, and what they take plus what is left is the input |
| Combinators.I32 | src/parser/query_parser/select_parser.rs:87 | `i32` never aborts. On success it consumed an optional `-` or `+` and then a non-empty run of digits that the next character does not continue, and its value is the run's decimal value with that sign. It fails exactly when no digit follows the optional sign, or when the signed value of the whole digit run is outside the `i32` range |
| Combinators.SeparatedList1 | src/parser/query_parser/select_parser.rs:36 | `separated_list1` fails recoverably exactly when the first item does. On success it returns at least one item, starting with the first. It stops only where no separator follows, or where the item after the separator fails recoverably. It aborts only if an item aborts |
| Combinators.SeparatedTail | src/parser/query_parser/select_parser.rs:36 | the `sep item` repetitions never fail recoverably and never pass a separator followed by an item that parses |
| Combinators.SeparatedListText | src/parser/query_parser/insert_parser.rs:37-39 | when the item parser returns exactly the text it consumed, a parsed list is that text: the items joined by the separator, then the rest |
| Combinators.SeparatedListValues | src/parser/query_parser/insert_parser.rs:37-39 | every element of a parsed list is a value its item parser returned |
| SelectParser.SelectQueryParse | src/parser/query_parser/select_parser.rs:9-31 | the query has one or more well-formed columns, is not `distinct`, has exactly one unaliased table and no joins, and all optional clauses are `None`. On success the input is, in order, `select`, spaces, text that the column-list parser reads as the query's select statement, spaces, `from`, spaces, the table name, `;` and the rest. It fails recoverably on text not starting with `select`, and consumes input |
| SelectParser.SelectStatementParse | src/parser/query_parser/select_parser.rs:35-45 | never fails recoverably; gives one or more well-formed columns and `distinct` false |
| SelectParser.ColumnStatementParse | src/parser/query_parser/select_parser.rs:49-68 | on input starting with a letter or digit, the result is the identifier formed by the whole alphanumeric run. Otherwise, when the literal parser succeeds, the result is that literal with the literal parser's rest. It aborts exactly when neither applies, and then with the column-item abort. It never yields a function call |
| SelectParser.ColumnList | src/parser/query_parser/select_parser.rs:36 | the column list never fails recoverably and yields one or more well-formed columns |
| SelectParser.ColumnListTail | src/parser/query_parser/select_parser.rs:36 | the `", " column` repetitions only consume input and yield well-formed columns |
| SelectParser.ColumnIdentifierParse | src/parser/query_parser/select_parser.rs:71-83 | succeeds exactly on an alphanumeric first character. It gives the whole run with no table name, and what follows is not alphanumeric |
| SelectParser.LiteralParse | src/parser/query_parser/select_parser.rs:85-96 | when an `i32` parses, the result is that integer with the `i32` rest. When it does not, the only success is a quoted non-empty run of letters, stored without the quotes |
| SelectParser.FunctionParse | src/parser/query_parser/select_parser.rs:98-114 | on success the input is the name, a non-empty run of letters, then `(`, then text the column list reads as the one or more arguments, stopping right before `)` and the rest |
| SelectParser.FromStatementParse | src/parser/query_parser/select_parser.rs:116-130 | succeeds exactly on an alphanumeric first character. It gives exactly one unaliased table, named by the whole run, and no joins |
| SelectParser.TableStatementParse | src/parser/query_parser/select_parser.rs:132-144 | succeeds exactly on an alphanumeric first character. It gives the whole run, unaliased |
| InsertParser.InsertQueryParse | src/parser/query_parser/insert_parser.rs:8-33 | never aborts. On success the table name and every column and value are alphanumeric names, with at least one column and one value, and the input is, in order, `insert`, spaces, `into`, spaces, the table name, spaces, `(`, the columns joined by `, `, `)`, spaces, `values`, spaces, `(`, the values joined by `, `, `)`, `;` and the rest. It fails recoverably on text not starting with `insert` |
| InsertParser.Parenthesised | src/parser/query_parser/insert_parser.rs:15-17 | a parenthesised name list never aborts. On success the input is `(`, the one or more names joined by `, `, `)` and the rest |
| InsertParser.ParseColumns | src/parser/query_parser/insert_parser.rs:37-39 | `parse_columns` fails exactly when the first character is not alphanumeric. Otherwise the input is the one or more names it yields joined by `, `, then the rest, which does not start with `, ` and a name |
| QueryParser.QueryParse | src/parser/query_parser.rs:18-30 | never fails recoverably. When the select parser succeeds, the result is its query and rest. When it fails recoverably and the insert parser succeeds, the result is the insert parser's query and rest. It aborts exactly when the select attempt aborts, or when both attempts fail, and then with the select attempt's abort or the query abort |
| QueryParser.QueriesParse | src/parser/query_parser.rs:11-14 | never fails recoverably; gives one or more well-formed queries and stops only where the text does not start with `;` |
| RoundTrip.SelectRoundTrip | src/parser/query_parser/select_parser.rs:9-31 | the select parser reads every select query it can return back from its printed text, leaving exactly what follows |
| RoundTrip.InsertRoundTrip | src/parser/query_parser/insert_parser.rs:8-33 | the insert parser reads every insert query it can return back from its printed text, leaving exactly what follows |
| RoundTrip.QueryRoundTrip | src/parser/query_parser.rs:18-30 | a printed query reads back as itself; an insert is never taken for a select |
| RoundTrip.QueriesRoundTrip | src/parser/query_parser.rs:11-14 | a printed script of one or more queries reads back as the same queries |
| RoundTrip.ColumnRoundTrip | src/parser/query_parser/select_parser.rs:49-68 | every column item the column parser can return is read back from its printed text |
| RoundTrip.LiteralRoundTrip | src/parser/query_parser/select_parser.rs:85-96 | integer and quoted-string literals are read back |
| RoundTrip.QuotedRoundTrip | src/parser/query_parser/select_parser.rs:91-94 | a quoted run of letters is read back as a string literal |
| RoundTrip.I32RoundTrip | src/parser/query_parser/select_parser.rs:87-90 | `i32` reads back every signed 32-bit value from its signed decimal text |
| RoundTrip.I32RangeCheck | src/parser/query_parser/select_parser.rs:87 | on a signed decimal number, `i32` succeeds exactly when the signed value fits an `i32`: out-of-range values are rejected, not wrapped |
| RoundTrip.DecimalValue | src/parser/query_parser/select_parser.rs:87 | the digit value `i32` computes inverts decimal printing |
| RoundTrip.NameRoundTrip | src/parser/query_parser/select_parser.rs:73 | `alphanumeric1` reads back a name that is followed by a non-alphanumeric character |
| RoundTrip.SeparatedListRoundTrip | src/parser/query_parser/select_parser.rs:36 | `separated_list1` reads back each item of a joined list in order, then goes on as it would on the text after the list |
| RoundTrip.SeparatedTailRoundTrip | src/parser/query_parser/select_parser.rs:36 | the repetitions read back each separator-prefixed item in order, then go on as on the text after them |
| RoundTrip.ColumnListIsSeparatedList | src/parser/query_parser/select_parser.rs:36 | the column list written out for the recursion equals `separated_list1(tag(", "), ColumnStatement::parse)` |
| RoundTrip.ColumnsRoundTrip | src/parser/query_parser/select_parser.rs:36 | a printed column list reads back as the same columns |
| RoundTrip.NamesRoundTrip | src/parser/query_parser/insert_parser.rs:37-39 | `parse_columns` reads back a printed name list |
| RoundTrip.ParenthesisedRoundTrip | src/parser/query_parser/insert_parser.rs:15-17 | a parenthesised name list reads back, whatever follows |
| ParserExamples.SelectExample | src/parser/query_parser/select_parser.rs:146-180 | `select col1, col2 from table1;` reads as the tested query with nothing left, alone and as a script |
| ParserExamples.InsertExample | src/parser/query_parser/insert_parser.rs:40-55 | `insert into table1 (col1, col2) values (1, valStr);` reads as the tested query with nothing left, alone and as a script |
| ParserExamples.MismatchedCountsAccepted | src/parser/query_parser/insert_parser.rs:16-22 | two columns with one value are accepted |
| ParserExamples.UnsignedNumberIsIdentifier | src/parser/query_parser/select_parser.rs:50-55 | `11` in a column list is an identifier |
| ParserExamples.SignedNumberIsLiteral | src/parser/query_parser/select_parser.rs:56-60 | `-11` in a column list is an integer literal |
| ParserExamples.SingleQueryScript | src/parser/query_parser.rs:11-14 | a script of one printed query reads as that one query, whatever follows that does not start with `;` |
| ParserExamples.TrailingSeparatorAborts | src/parser/query_parser.rs:11-14 | a script with a `;` after its last query aborts |
| ParserExamples.AdjacentQueriesNotSplit | src/parser/query_parser.rs:11-14 | of two queries written one after the other, only the first is read |
| ParserExamples.QuotedInsertValueAborts | src/parser/query_parser.rs:24-29 | for any table and columns, an insert whose first value starts with a quote fails the insert parser, and the query parse aborts as not recognized |
| ParserExamples.QuotedInsertValueExample | src/parser/query_parser.rs:24-29 | `insert into t (a) values ('x');` aborts as not recognized |
| Analyzer.Flatten | src/analyzer/mod.rs:83-106 | a flattened list has at least one name. An unexpected-node error comes from a node with a foreign operator on the walked spine |
| Analyzer.ColumnWalker.constructor | src/analyzer/mod.rs:77-81 | a new column walker holds no columns |
| Analyzer.ColumnWalker.Walk | src/analyzer/mod.rs:83-106 | on success the walker appends one column per leaf, left to right, and returns its whole accumulator. On failure it returns the flattening's error |
| Analyzer.TableWalker.constructor | src/analyzer/mod.rs:114-118 | a new table walker holds no tables |
| Analyzer.TableWalker.Walk | src/analyzer/mod.rs:120-145 | on success the walker appends one table per leaf, left to right, and returns its whole accumulator. On failure it returns the flattening's error |
| Analyzer.Lowered | src/analyzer/mod.rs:16-57 | a lowering is never empty. Only `Select` and `From` lower; every other operator gives the unsupported-operator error |
| Analyzer.Analysis | src/analyzer/mod.rs:10-14 | analysis succeeds exactly when lowering does, and the root is a node of the lowering |
| Analyzer.Analyzer.Analyze | src/analyzer/mod.rs:10-14 | `analyze` returns `Analysis(ast)`, so analyzing the same tree twice gives equal plans |
| Analyzer.Analyzer.Walk | src/analyzer/mod.rs:16-57 | `walk`, including its read-building loop, returns `Lowered(node)` |
| Analyzer.Analyzer.BuildColumns | src/analyzer/mod.rs:59-63 | `build_columns` returns exactly the flattened columns: the fresh walker carries nothing over |
| Analyzer.Analyzer.BuildTables | src/analyzer/mod.rs:65-69 | `build_tables` returns exactly the flattened tables: the fresh walker carries nothing over |
| AnalyzerProperties.LeftChainFlattens | src/analyzer/mod.rs:83-106 | a left-nested comma chain flattens to its names in order |
| AnalyzerProperties.RightChainFlattens | src/analyzer/mod.rs:120-145 | a right-nested comma chain flattens to its names in order |
| AnalyzerProperties.Regroup | src/analyzer/mod.rs:85-90 | regrouping a comma chain does not change its flattening |
| AnalyzerProperties.FlattenIff | src/analyzer/mod.rs:83-106 | flattening succeeds exactly on well-formed lists and yields one name per leaf |
| AnalyzerProperties.ForeignNodeFails | src/analyzer/mod.rs:102-104 | a node with a foreign operator anywhere on the walked spine makes the whole list fail, never giving a partial list |
| AnalyzerProperties.LoweredWellFormed | src/analyzer/mod.rs:16-57 | every lowered node is well formed: reads are leaves, and a projection has columns and at least one well-formed child |
| AnalyzerProperties.AnalysisWellFormed | src/analyzer/mod.rs:10-14 | the root of every plan is well formed |
| AnalyzerProperties.SelectLowering | src/analyzer/mod.rs:18-31 | a `Select` lowers to exactly one projection whose columns are the flattening of its first child, in order, one per leaf, over the lowering of its last child |
| AnalyzerProperties.FromLowering | src/analyzer/mod.rs:32-54 | a `From` lowers to one childless read per leaf of its table list, in order |
| AnalyzerProperties.SelectFromPlan | src/analyzer/mod.rs:16-54 | `SELECT columns FROM tables`, for any name lists, gives a projection of the flattened columns over one read per flattened table, both in source order |
| AnalyzerProperties.SelectFromChains | src/analyzer/mod.rs:16-54 | for left-nested comma chains, the projection's columns and the reads are exactly the chains' names, in order |
| AnalyzerProperties.FromRootKeepsFirstRead | src/analyzer/mod.rs:10-14 | a bare `From` root over any name list lowers to one read per leaf, but the plan keeps only the read of the first table |
| AnalyzerProperties.SimpleExample | src/analyzer/mod.rs:248-264 | `SELECT col1 FROM table1` |
| AnalyzerProperties.ManyColumnsExample | src/analyzer/mod.rs:266-282 | `SELECT col1, col2, col3 FROM table1` |
| AnalyzerProperties.ManyTablesExample | src/analyzer/mod.rs:284-303 | `SELECT col1 FROM table1, table2` |

## Left out

- The lexer and parser that build the analyzer's `Node` trees (`crate::parser::{Node, Op}`, `Lexer`, `Parser`) are not part of this model. `Node` is abstract: an optional operator, children and an optional literal. `get_first_name_as_string` reads a name stored in the literal. The analyzer tests' inputs are written as trees.
- `src/main.rs` is not part of this model.
- nom's error payloads (error kind, input position) and the panic messages are reduced to `Error` and two abort tags.
- `Literal::Float` (an `f32`) and `Literal::Boolean` are never produced by any parser. They are kept as tags only, and the printer does not print them.
- The declared but unimplemented statements are kept as empty variants, with no parsing or lowering: `Delete`, `Update`, `CreateTable`, `DropTable`, `AlterTable`, and the where, join, order-by, group-by, having and limit clauses. So are the plan operators other than `Projection` and `Read`, and `LogicalOperation` is left out.
- Character classes are ASCII, as nom's `&str` parsers test them. Strings are sequences of `char` with no byte-level UTF-8 detail.
- Analyzer.ColumnWalker.Walk: on failure, the contents of the accumulator are not stated. The source panics there and the walker is dropped.
- Analyzer.TableWalker.Walk: on failure, the contents of the accumulator are not stated, for the same reason.
- Analyzer.Analysis: its contract says only that the root belongs to the lowering. `FromRootKeepsFirstRead` (a bare `From` root over any name list) and `SelectFromPlan` (a `Select` over a `From`, with any name lists) state exactly which node it is; for other trees the model states only membership.
