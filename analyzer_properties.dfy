/**
  Properties of the analyzer of src/analyzer/mod.rs: list flattening keeps the
  leaves and their left-to-right order whatever the nesting, lowering yields a
  well-formed plan, and the worked examples of its tests.
*/
module AnalyzerProperties {
  import opened Wrappers
  import opened Ast
  import opened Analyzer

  function Leaf(name: string): Node {
    Node(None, [], Some(Lit(name)))
  }

  function CommaNode(left: Node, right: Node): Node {
    Node(Some(Comma), [left, right], None)
  }

  /** `a, b, c` grouped as `(a, b), c`. */
  function LeftChain(names: seq<string>): Node
    requires |names| >= 1
  {
    if |names| == 1 then Leaf(names[0])
    else CommaNode(LeftChain(names[..|names| - 1]), Leaf(names[|names| - 1]))
  }

  /** `a, b, c` grouped as `a, (b, c)`. */
  function RightChain(names: seq<string>): Node
    requires |names| >= 1
  {
    if |names| == 1 then Leaf(names[0])
    else CommaNode(Leaf(names[0]), RightChain(names[1..]))
  }

  lemma {:induction false} LeftChainFlattens(names: seq<string>)
    requires |names| >= 1
    ensures Flatten(LeftChain(names)) == Success(names)
  {
    if |names| == 1 {
      assert names == [names[0]];
    } else {
      LeftChainFlattens(names[..|names| - 1]);
      assert Flatten(Leaf(names[|names| - 1])) == Success([names[|names| - 1]]);
      assert names[..|names| - 1] + [names[|names| - 1]] == names;
    }
  }

  lemma {:induction false} RightChainFlattens(names: seq<string>)
    requires |names| >= 1
    ensures Flatten(RightChain(names)) == Success(names)
  {
    if |names| == 1 {
      assert names == [names[0]];
    } else {
      RightChainFlattens(names[1..]);
      assert Flatten(Leaf(names[0])) == Success([names[0]]);
      assert [names[0]] + names[1..] == names;
    }
  }

  /** Regrouping a list does not change its flattening. */
  lemma Regroup(a: Node, b: Node, c: Node)
    ensures Flatten(CommaNode(CommaNode(a, b), c)) == Flatten(CommaNode(a, CommaNode(b, c)))
  {
    var fa, fb, fc := Flatten(a), Flatten(b), Flatten(c);
    if fa.Success? && fb.Success? && fc.Success? {
      assert (fa.value + fb.value) + fc.value == fa.value + (fb.value + fc.value);
    }
  }

  /** A list is a comma node over two lists (extra children ignored), or a leaf with a literal. */
  ghost predicate IsNameList(node: Node)
    decreases node
  {
    match node.op
    case Some(Comma) => |node.children| >= 2 && IsNameList(node.children[0]) && IsNameList(node.children[1])
    case None => node.literal.Some?
    case Some(_) => false
  }

  ghost function LeafCount(node: Node): nat
    decreases node
  {
    if node.op == Some(Comma) && |node.children| >= 2
    then LeafCount(node.children[0]) + LeafCount(node.children[1])
    else 1
  }

  /** Flattening succeeds exactly on lists, with one name per leaf. */
  lemma {:induction false} FlattenIff(node: Node)
    ensures Flatten(node).Success? <==> IsNameList(node)
    ensures Flatten(node).Success? ==> |Flatten(node).value| == LeafCount(node)
    decreases node
  {
    if node.op == Some(Comma) && |node.children| >= 2 {
      FlattenIff(node.children[0]);
      FlattenIff(node.children[1]);
    }
  }

  /** A node with a foreign operator anywhere on the walked spine spoils the whole list. */
  lemma {:induction false} ForeignNodeFails(n: Node, node: Node)
    requires Within(n, node) && n.op.Some? && n.op.value != Comma
    ensures Flatten(node).Failure?
    decreases node
  {
    if n != node {
      if |node.children| >= 1 && Within(n, node.children[0]) {
        ForeignNodeFails(n, node.children[0]);
      } else {
        ForeignNodeFails(n, node.children[1]);
      }
    }
  }

  /** The plans the analyzer builds: reads are leaves, projections sit over at least one node. */
  ghost predicate WellFormed(n: LogicalNode)
    decreases n
  {
    match n.operator
    case Read(_) => n.children == []
    case Projection(columns) =>
      |columns| >= 1 && |n.children| >= 1 && forall c :: c in n.children ==> WellFormed(c)
    case _ => false
  }

  lemma {:induction false} LoweredWellFormed(node: Node)
    ensures Lowered(node).Success? ==> forall n :: n in Lowered(node).value ==> WellFormed(n)
    decreases node
  {
    if node.op == Some(Select) && |node.children| >= 1 {
      LoweredWellFormed(node.children[|node.children| - 1]);
    }
  }

  lemma AnalysisWellFormed(ast: Node)
    ensures Analysis(ast).Success? ==> WellFormed(Analysis(ast).value.root)
  {
    LoweredWellFormed(ast);
  }

  /**
    A `Select` lowers to one projection whose columns are the flattening of its
    first child, in order, over the lowering of its last child.
  */
  lemma SelectLowering(node: Node)
    requires node.op == Some(Select) && Lowered(node).Success?
    ensures |node.children| >= 1 && |Lowered(node).value| == 1
    ensures Flatten(node.children[0]).Success?
    ensures var p := Lowered(node).value[0];
      && p.operator.Projection?
      && p.operator.columns == ColumnsOf(Flatten(node.children[0]).value)
      && |p.operator.columns| == LeafCount(node.children[0])
      && p.children == Lowered(node.children[|node.children| - 1]).value
  {
    FlattenIff(node.children[0]);
  }

  /** A `From` lowers to one childless read per leaf of its table list, in order. */
  lemma FromLowering(node: Node)
    requires node.op == Some(From) && Lowered(node).Success?
    ensures |node.children| >= 1 && Flatten(node.children[0]).Success?
    ensures |Lowered(node).value| == LeafCount(node.children[0])
    ensures forall i :: 0 <= i < |Lowered(node).value| ==>
      Lowered(node).value[i] == LogicalNode(Read(Table(Flatten(node.children[0]).value[i])), [])
  {
    FlattenIff(node.children[0]);
  }

  function SelectNode(columns: Node, from: Node): Node {
    Node(Some(Select), [columns, from], None)
  }

  function FromNode(tables: Node): Node {
    Node(Some(From), [tables], None)
  }

  /** `SELECT columns FROM tables` analyses to a projection of the columns over one read per table, both in order. */
  lemma SelectFromPlan(columns: Node, tables: Node)
    requires IsNameList(columns) && IsNameList(tables)
    ensures Flatten(columns).Success? && Flatten(tables).Success?
    ensures Analysis(SelectNode(columns, FromNode(tables)))
      == Success(LogicalPlan(LogicalNode(Projection(ColumnsOf(Flatten(columns).value)),
                                         ReadNodes(TablesOf(Flatten(tables).value)))))
  {
    FlattenIff(columns);
    FlattenIff(tables);
    var from := FromNode(tables);
    var select := SelectNode(columns, from);
    assert Lowered(from) == Success(ReadNodes(TablesOf(Flatten(tables).value)));
    assert select.children[0] == columns && select.children[|select.children| - 1] == from;
    assert Lowered(select)
      == Success([LogicalNode(Projection(ColumnsOf(Flatten(columns).value)), ReadNodes(TablesOf(Flatten(tables).value)))]);
  }

  /** The same for lists written as left-nested comma chains. */
  lemma SelectFromChains(columns: seq<string>, tables: seq<string>)
    requires |columns| >= 1 && |tables| >= 1
    ensures Analysis(SelectNode(LeftChain(columns), FromNode(LeftChain(tables))))
      == Success(LogicalPlan(LogicalNode(Projection(ColumnsOf(columns)), ReadNodes(TablesOf(tables)))))
  {
    LeftChainFlattens(columns);
    LeftChainFlattens(tables);
    FlattenIff(LeftChain(columns));
    FlattenIff(LeftChain(tables));
    SelectFromPlan(LeftChain(columns), LeftChain(tables));
  }

  /** A bare `From` root lowers to one read per table, but `analyze` keeps only the first. */
  lemma FromRootKeepsFirstRead(tables: Node)
    requires IsNameList(tables)
    ensures Flatten(tables).Success?
    ensures |Lowered(FromNode(tables)).value| == LeafCount(tables)
    ensures Analysis(FromNode(tables)) == Success(LogicalPlan(LogicalNode(Read(Table(Flatten(tables).value[0])), [])))
  {
    FlattenIff(tables);
  }

  /** `simple_test`: `SELECT col1 FROM table1`. */
  lemma SimpleExample()
    ensures Analysis(SelectNode(Leaf("col1"), FromNode(Leaf("table1"))))
      == Success(LogicalPlan(LogicalNode(Projection([Column("col1")]), [LogicalNode(Read(Table("table1")), [])])))
  {
    assert LeftChain(["col1"]) == Leaf("col1");
    assert LeftChain(["table1"]) == Leaf("table1");
    assert ColumnsOf(["col1"]) == [Column("col1")];
    assert ReadNodes(TablesOf(["table1"])) == [LogicalNode(Read(Table("table1")), [])];
    SelectFromChains(["col1"], ["table1"]);
  }

  /** `select_many_columns`: `SELECT col1, col2, col3 FROM table1`. */
  lemma ManyColumnsExample()
    ensures Analysis(SelectNode(LeftChain(["col1", "col2", "col3"]), FromNode(Leaf("table1"))))
      == Success(LogicalPlan(LogicalNode(Projection([Column("col1"), Column("col2"), Column("col3")]),
                                         [LogicalNode(Read(Table("table1")), [])])))
  {
    assert LeftChain(["table1"]) == Leaf("table1");
    assert ColumnsOf(["col1", "col2", "col3"]) == [Column("col1"), Column("col2"), Column("col3")];
    assert ReadNodes(TablesOf(["table1"])) == [LogicalNode(Read(Table("table1")), [])];
    SelectFromChains(["col1", "col2", "col3"], ["table1"]);
  }

  /** `select_many_tables`: `SELECT col1 FROM table1, table2`. */
  lemma ManyTablesExample()
    ensures Analysis(SelectNode(Leaf("col1"), FromNode(CommaNode(Leaf("table1"), Leaf("table2")))))
      == Success(LogicalPlan(LogicalNode(Projection([Column("col1")]),
                                         [LogicalNode(Read(Table("table1")), []), LogicalNode(Read(Table("table2")), [])])))
  {
    assert LeftChain(["col1"]) == Leaf("col1");
    assert ["table1", "table2"][..1] == ["table1"];
    assert LeftChain(["table1", "table2"]) == CommaNode(Leaf("table1"), Leaf("table2"));
    assert ColumnsOf(["col1"]) == [Column("col1")];
    assert ReadNodes(TablesOf(["table1", "table2"]))
      == [LogicalNode(Read(Table("table1")), []), LogicalNode(Read(Table("table2")), [])];
    SelectFromChains(["col1"], ["table1", "table2"]);
  }
}
