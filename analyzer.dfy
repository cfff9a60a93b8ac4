/**
  The analyzer of src/analyzer/mod.rs: it lowers a syntax tree to a logical
  plan. A `Select` node becomes one projection over the lowering of its last
  child; a `From` node becomes one read per table of its table list. Column and
  table lists are chains of binary `Comma` nodes with named leaves, flattened
  left to right by two accumulating walkers.

  Every `panic!` of the source, and every out-of-range index or `unwrap` of
  `None` that would panic, is an `AnalysisError` here.
*/
module Analyzer {
  import opened Wrappers
  import opened Ast

  datatype Column = Column(name: string)
  datatype Table = Table(name: string)

  /** The plan operators; only `Projection` and `Read` are ever built. */
  datatype Operator =
    | Projection(columns: seq<Column>)
    | Filter
    | Read(table: Table)
    | Join
    | Group
    | Sort
    | Limit
    | Distinct

  datatype LogicalNode = LogicalNode(operator: Operator, children: seq<LogicalNode>)

  datatype LogicalPlan = LogicalPlan(root: LogicalNode)

  datatype AnalysisError =
    | UnsupportedOperator   // `walk` on an operator other than `Select` or `From`
    | UnexpectedListNode    // a list walker on an operator other than `Comma` or none
    | MissingLiteral        // `literal().unwrap()` on a leaf without literal
    | MissingChild          // indexing past the end of `children()`

  /**
    The names of a comma chain, left to right, or the first error met in the
    order the walkers meet them: the left child's list, then the right one.
  */
  function Flatten(node: Node): (r: Result<seq<string>, AnalysisError>)
    ensures r.Success? ==> |r.value| >= 1
    ensures r.Failure? && r.error == UnexpectedListNode ==> exists n :: Within(n, node) && n.op.Some? && n.op.value != Comma
    decreases node
  {
    match node.op
    case Some(Comma) =>
      if |node.children| == 0 then Failure(MissingChild)
      else
        var left := Flatten(node.children[0]);
        if left.Failure? then left
        else if |node.children| < 2 then Failure(MissingChild)
        else
          var right := Flatten(node.children[1]);
          if right.Failure? then right else Success(left.value + right.value)
    case None =>
      if node.literal.None? then Failure(MissingLiteral)
      else Success([FirstNameAsString(node.literal.value)])
    case Some(_) => Failure(UnexpectedListNode)
  }

  /** `n` is `node` or lies on the left/right spine a list walker visits. */
  ghost predicate Within(n: Node, node: Node)
    decreases node
  {
    n == node
    || (node.op == Some(Comma) && |node.children| >= 1 && Within(n, node.children[0]))
    || (node.op == Some(Comma) && |node.children| >= 2 && Within(n, node.children[1]))
  }

  function ColumnsOf(names: seq<string>): (r: seq<Column>)
    ensures |r| == |names|
    ensures forall i :: 0 <= i < |names| ==> r[i] == Column(names[i])
  {
    seq(|names|, i requires 0 <= i < |names| => Column(names[i]))
  }

  function TablesOf(names: seq<string>): (r: seq<Table>)
    ensures |r| == |names|
    ensures forall i :: 0 <= i < |names| ==> r[i] == Table(names[i])
  {
    seq(|names|, i requires 0 <= i < |names| => Table(names[i]))
  }

  lemma ColumnsOfAppend(a: seq<string>, b: seq<string>)
    ensures ColumnsOf(a + b) == ColumnsOf(a) + ColumnsOf(b)
  {
  }

  lemma TablesOfAppend(a: seq<string>, b: seq<string>)
    ensures TablesOf(a + b) == TablesOf(a) + TablesOf(b)
  {
  }

  /** One childless read per table, in order. */
  function ReadNodes(tables: seq<Table>): (r: seq<LogicalNode>)
    ensures |r| == |tables|
    ensures forall i :: 0 <= i < |tables| ==> r[i] == LogicalNode(Read(tables[i]), [])
  {
    seq(|tables|, i requires 0 <= i < |tables| => LogicalNode(Read(tables[i]), []))
  }

  /**
    What `Analyzer::walk` returns: the lowering of a `Select` or `From` node,
    never empty.
  */
  function Lowered(node: Node): (r: Result<seq<LogicalNode>, AnalysisError>)
    ensures r.Success? ==> |r.value| >= 1
    ensures r.Success? ==> node.op == Some(Select) || node.op == Some(From)
    ensures node.op != Some(Select) && node.op != Some(From) ==> r == Failure(UnsupportedOperator)
    decreases node
  {
    match node.op
    case Some(Select) =>
      if |node.children| == 0 then Failure(MissingChild)
      else
        var columns := Flatten(node.children[0]);
        if columns.Failure? then Failure(columns.error)
        else
          var below := Lowered(node.children[|node.children| - 1]);
          if below.Failure? then below
          else Success([LogicalNode(Projection(ColumnsOf(columns.value)), below.value)])
    case Some(From) =>
      if |node.children| == 0 then Failure(MissingChild)
      else
        var tables := Flatten(node.children[0]);
        if tables.Failure? then Failure(tables.error)
        else Success(ReadNodes(TablesOf(tables.value)))
    case _ => Failure(UnsupportedOperator)
  }

  /** What `Analyzer::analyze` returns: the first node of the lowering becomes the root. */
  function Analysis(ast: Node): (r: Result<LogicalPlan, AnalysisError>)
    ensures r.Success? <==> Lowered(ast).Success?
    ensures r.Success? ==> r.value.root in Lowered(ast).value
  {
    var nodes := Lowered(ast);
    if nodes.Failure? then Failure(nodes.error) else Success(LogicalPlan(nodes.value[0]))
  }

  /** `ColumnWalker`: pushes one column per leaf onto `columns`. */
  class ColumnWalker {
    var columns: seq<Column>

    constructor ()
      ensures columns == []
    {
      columns := [];
    }

    /** `ColumnWalker::walk`: on success, the result is the whole accumulator. */
    method Walk(node: Node) returns (r: Result<seq<Column>, AnalysisError>)
      modifies this
      ensures Flatten(node).Success? ==> columns == old(columns) + ColumnsOf(Flatten(node).value)
      ensures Flatten(node).Success? ==> r == Success(columns)
      ensures Flatten(node).Failure? ==> r == Failure(Flatten(node).error)
      decreases node
    {
      match node.op
      case Some(Comma) =>
        if |node.children| == 0 {
          return Failure(MissingChild);
        }
        var left := Walk(node.children[0]);
        if left.Failure? {
          return left;
        }
        if |node.children| < 2 {
          return Failure(MissingChild);
        }
        var right := Walk(node.children[1]);
        if right.Failure? {
          return right;
        }
        ColumnsOfAppend(Flatten(node.children[0]).value, Flatten(node.children[1]).value);
        return right;
      case None =>
        if node.literal.None? {
          return Failure(MissingLiteral);
        }
        columns := columns + [Column(FirstNameAsString(node.literal.value))];
        return Success(columns);
      case Some(_) =>
        return Failure(UnexpectedListNode);
    }
  }

  /** `TableWalker`: pushes one table per leaf onto `tables`. */
  class TableWalker {
    var tables: seq<Table>

    constructor ()
      ensures tables == []
    {
      tables := [];
    }

    /** `TableWalker::walk`: on success, the result is the whole accumulator. */
    method Walk(node: Node) returns (r: Result<seq<Table>, AnalysisError>)
      modifies this
      ensures Flatten(node).Success? ==> tables == old(tables) + TablesOf(Flatten(node).value)
      ensures Flatten(node).Success? ==> r == Success(tables)
      ensures Flatten(node).Failure? ==> r == Failure(Flatten(node).error)
      decreases node
    {
      match node.op
      case Some(Comma) =>
        if |node.children| == 0 {
          return Failure(MissingChild);
        }
        var left := Walk(node.children[0]);
        if left.Failure? {
          return left;
        }
        if |node.children| < 2 {
          return Failure(MissingChild);
        }
        var right := Walk(node.children[1]);
        if right.Failure? {
          return right;
        }
        TablesOfAppend(Flatten(node.children[0]).value, Flatten(node.children[1]).value);
        return Success(tables);
      case None =>
        if node.literal.None? {
          return Failure(MissingLiteral);
        }
        tables := tables + [Table(FirstNameAsString(node.literal.value))];
        return Success(tables);
      case Some(_) =>
        return Failure(UnexpectedListNode);
    }
  }

  /** `Analyzer`: stateless; every list is built by a fresh walker. */
  class Analyzer {
    constructor () {}

    /** `Analyzer::analyze`. */
    method Analyze(ast: Node) returns (r: Result<LogicalPlan, AnalysisError>)
      ensures r == Analysis(ast)
    {
      var nodes := Walk(ast);
      if nodes.Failure? {
        return Failure(nodes.error);
      }
      return Success(LogicalPlan(nodes.value[0]));
    }

    /** `Analyzer::walk`. */
    method Walk(node: Node) returns (r: Result<seq<LogicalNode>, AnalysisError>)
      ensures r == Lowered(node)
      decreases node
    {
      match node.op
      case Some(Select) =>
        if |node.children| == 0 {
          return Failure(MissingChild);
        }
        var fromNode := node.children[|node.children| - 1];
        var columns := BuildColumns(node.children[0]);
        if columns.Failure? {
          return Failure(columns.error);
        }
        var below := Walk(fromNode);
        if below.Failure? {
          return below;
        }
        return Success([LogicalNode(Projection(columns.value), below.value)]);
      case Some(From) =>
        if |node.children| == 0 {
          return Failure(MissingChild);
        }
        var tables := BuildTables(node.children[0]);
        if tables.Failure? {
          return Failure(tables.error);
        }
        var nodes: seq<LogicalNode> := [];
        for i := 0 to |tables.value|
          invariant nodes == ReadNodes(tables.value[..i])
        {
          nodes := nodes + [LogicalNode(Read(Table(tables.value[i].name)), [])];
        }
        assert tables.value[..|tables.value|] == tables.value;
        return Success(nodes);
      case _ =>
        return Failure(UnsupportedOperator);
    }

    /** `Analyzer::build_columns`: a fresh walker, so nothing carries over between calls. */
    method BuildColumns(node: Node) returns (r: Result<seq<Column>, AnalysisError>)
      ensures Flatten(node).Success? ==> r == Success(ColumnsOf(Flatten(node).value))
      ensures Flatten(node).Failure? ==> r == Failure(Flatten(node).error)
    {
      var walker := new ColumnWalker();
      r := walker.Walk(node);
      if r.Success? {
        assert walker.columns == [] + ColumnsOf(Flatten(node).value) == ColumnsOf(Flatten(node).value);
      }
    }

    /** `Analyzer::build_tables`: a fresh walker, so nothing carries over between calls. */
    method BuildTables(node: Node) returns (r: Result<seq<Table>, AnalysisError>)
      ensures Flatten(node).Success? ==> r == Success(TablesOf(Flatten(node).value))
      ensures Flatten(node).Failure? ==> r == Failure(Flatten(node).error)
    {
      var walker := new TableWalker();
      r := walker.Walk(node);
      if r.Success? {
        assert walker.tables == [] + TablesOf(Flatten(node).value) == TablesOf(Flatten(node).value);
      }
    }
  }
}
