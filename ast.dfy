/**
  The syntax tree the analyzer of src/analyzer/mod.rs consumes. It comes from
  a lexer and parser (`crate::parser::{Node, Op}`) that are not part of this
  model, so only the three accessors the analyzer uses are kept: the node's
  operator, if any, its children, and its literal, if any.
*/
module Ast {
  import opened Wrappers

  /** The operators the analyzer distinguishes; every other operator is `Other`. */
  datatype Op = Select | From | Comma | Other

  /** A literal, seen only through `get_first_name_as_string`. */
  datatype Lit = Lit(firstName: string)

  datatype Node = Node(op: Option<Op>, children: seq<Node>, literal: Option<Lit>)

  /** `get_first_name_as_string`. */
  function FirstNameAsString(l: Lit): string {
    l.firstName
  }
}
