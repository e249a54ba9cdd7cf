/** Lists of a help document: the children of a list's node are the nodes of its items, in the order of the source. */
module DocLists {
  import opened DocTree
  import opened DocGrammar
  import opened DocMeaning
  import opened DocActions
  import opened DocParser
  import L = LrTables

  /** A list and one item more, perhaps with a separator between them. */
  predicate AddsItem(tree: ParseTree) {
    tree.Node? && RuleOf(tree.rule).does.Build? && RuleOf(tree.rule).does.base == Same(0)
  }

  /** What a list is made of, in the order of the source: what it begins with, then separators and items. */
  function Spine(tree: ParseTree): seq<ParseTree> {
    if AddsItem(tree) && tree.kids != [] then Spine(tree.kids[0]) + tree.kids[1..] else [tree]
  }

  /** What becomes of each part but the first: a separator adds nothing, an item is added as its rule says. */
  function Marks(tree: ParseTree): seq<Option<Item>> {
    if AddsItem(tree) && tree.kids != [] then
      var items := RuleOf(tree.rule).does.items;
      Marks(tree.kids[0])
        + seq(|tree.kids| - 1,
              k requires 0 <= k => if |items| == 1 && items[0].k == k + 1 then Just(items[0]) else None)
    else []
  }

  /** The node that an item adds, if any: the node of a kid, wrapped or labelled, and none for a kid without a node. */
  function Added(mark: Option<Item>, w: Value<Node>): seq<Node> {
    if mark.None? then []
    else
      var n := ItemTree(mark.value.(k := 0), [w]);
      if n.Just? then [n.value] else []
  }

  /** What an added node is: the node of a kid, the same under another id, a new node with the children of the kid's, or
      a new node with the kid's text. */
  lemma AddedIs(mark: Option<Item>, w: Value<Node>)
    ensures mark.None? ==> Added(mark, w) == []
    ensures mark.Just? ==>
      match mark.value
      case Kid(_) => Added(mark, w) == if w.Doc? && w.node.Just? then [w.node.value] else []
      case Renamed(_, id) =>
        |Added(mark, w)| <= 1 && (Added(mark, w) != [] <==> w.Doc? && w.node.Just?)
        && forall n :: n in Added(mark, w) ==>
          n.id == Other(id) && n.text == w.node.value.text && n.children == w.node.value.children
      case Holding(id, _) =>
        |Added(mark, w)| == 1 && Added(mark, w)[0].id == Other(id) && Added(mark, w)[0].text == NoText
        && (w.Doc? && w.node.Just? ==> Added(mark, w)[0].children == w.node.value.children)
      case Labelled(id, _) =>
        |Added(mark, w)| == 1 && Added(mark, w)[0].id == Other(id) && Added(mark, w)[0].children == []
        && (w.Str? ==> Added(mark, w)[0].text == w.str)
  {}

  function Gathered(marks: seq<Option<Item>>, ws: seq<Value<Node>>): seq<Node>
    requires |marks| == |ws|
  {
    if ws == [] then []
    else Gathered(marks[..|ws| - 1], ws[..|ws| - 1]) + Added(marks[|ws| - 1], ws[|ws| - 1])
  }

  lemma {:induction false} GatheredConcat(ms: seq<Option<Item>>, ws: seq<Value<Node>>, ms': seq<Option<Item>>,
                                          ws': seq<Value<Node>>)
    requires |ms| == |ws| && |ms'| == |ws'|
    ensures Gathered(ms + ms', ws + ws') == Gathered(ms, ws) + Gathered(ms', ws')
    decreases |ws'|
  {
    if ws' == [] {
      assert ms + ms' == ms && ws + ws' == ws;
    } else {
      var n := |ws'| - 1;
      GatheredConcat(ms, ws, ms'[..n], ws'[..n]);
      assert (ms + ms')[..|ws + ws'| - 1] == ms + ms'[..n] && (ws + ws')[..|ws + ws'| - 1] == ws + ws'[..n];
      L.Associates(Gathered(ms, ws), Gathered(ms'[..n], ws'[..n]), Added(ms'[n], ws'[n]));
    }
  }

  // ----- meaning of several trees

  lemma {:induction false} MeaningConcat(a: seq<ParseTree>, b: seq<ParseTree>, kind: string)
    ensures var u := MeaningAll(a, kind);
      var w := MeaningAll(b, u.1);
      MeaningAll(a + b, kind) == (u.0 + w.0, w.1)
    decreases |b|
  {
    var u := MeaningAll(a, kind);
    if b == [] {
      assert a + b == a && u.0 + [] == u.0;
    } else {
      var c, x := b[..|b| - 1], b[|b| - 1];
      MeaningConcat(a, c, kind);
      var w := MeaningAll(c, u.1);
      assert (a + b)[..|a + b| - 1] == a + c && (a + b)[|a + b| - 1] == x;
      L.Associates(u.0, w.0, [Meaning(x, w.1).0]);
    }
  }

  lemma MeaningOneMore(a: seq<ParseTree>, x: ParseTree, kind: string)
    ensures var u := MeaningAll(a, kind);
      MeaningAll(a + [x], kind) == (u.0 + [Meaning(x, u.1).0], Meaning(x, u.1).1)
  {
    assert (a + [x])[..|a + [x]| - 1] == a && (a + [x])[|a + [x]| - 1] == x;
  }

  lemma MeaningOne(x: ParseTree, kind: string)
    ensures MeaningAll([x], kind) == ([Meaning(x, kind).0], Meaning(x, kind).1)
  {
    var none: seq<ParseTree> := [];
    assert [x][..0] == none && MeaningAll(none, kind) == ([], kind);
    assert [] + [Meaning(x, kind).0] == [Meaning(x, kind).0];
  }

  /** The value of a parse tree has the sort of its symbol. */
  lemma {:induction false} MeaningFits(t: L.Tables, tree: ParseTree, kind: string)
    requires IsPart(t, tree) && IsMethodName(kind)
    ensures Fits(Meaning(tree, kind).0, SortOf(L.Root(t, HelpGrammar(), tree))) && IsMethodName(Meaning(tree, kind).1)
    decreases tree
  {
    match tree
    case Leaf(_) =>
    case Node(n, kids) =>
      PartRule(t, tree);
      MeaningAllFits(t, kids, kind);
      DoFits(RuleOf(n), MeaningAll(kids, kind).0, MeaningAll(kids, kind).1);
  }

  lemma {:induction false} MeaningAllFits(t: L.Tables, trees: seq<ParseTree>, kind: string)
    requires IsMethodName(kind) && forall k :: 0 <= k < |trees| ==> IsPart(t, trees[k])
    ensures IsMethodName(MeaningAll(trees, kind).1)
    ensures forall k :: 0 <= k < |trees| ==>
      Fits(MeaningAll(trees, kind).0[k], SortOf(L.Root(t, HelpGrammar(), trees[k])))
    decreases trees
  {
    if trees != [] {
      var n := |trees| - 1;
      var front, last := trees[..n], trees[n];
      forall k | 0 <= k < n ensures IsPart(t, front[k]) { assert front[k] == trees[k]; }
      MeaningAllFits(t, front, kind);
      var u := MeaningAll(front, kind);
      MeaningFits(t, last, u.1);
      MeaningOneMore(front, last, kind);
      assert front + [last] == trees;
      FitOneMore(t, front, last, u.0, Meaning(last, u.1).0);
    }
  }

  // ----- lists

  /** The parts of a list have all its tokens, in order. */
  lemma {:induction false} SpineYield(tree: ParseTree)
    ensures L.YieldAll(Spine(tree)) == L.Yield(tree)
    decreases tree
  {
    if AddsItem(tree) && tree.kids != [] {
      var kids := tree.kids;
      SpineYield(kids[0]);
      L.YieldConcat(Spine(kids[0]), kids[1..]);
      L.YieldConcat([kids[0]], kids[1..]);
      assert kids == [kids[0]] + kids[1..];
      OneYield(kids[0]);
    } else {
      OneYield(tree);
    }
  }

  lemma OneYield(tree: ParseTree)
    ensures L.YieldAll([tree]) == L.Yield(tree)
  {
    L.YieldOneMore([], tree);
    assert [] + [tree] == [tree];
  }

  ghost predicate ListWell(tree: ParseTree, kind: string) {
    var (ws, kind') := MeaningAll(Spine(tree), kind);
    && |Marks(tree)| + 1 == |ws| && Meaning(tree, kind).1 == kind'
    && (Meaning(tree, kind).0.Doc? ==>
      ChildrenOf(NodeAt([Meaning(tree, kind).0], 0)) == ChildrenOf(NodeAt(ws, 0)) + Gathered(Marks(tree), ws[1..]))
  }

  /** The node of a list has as children those that it began with, and behind them the nodes of the items, in the order
      of the source; items are wrapped or labelled as the grammar says, and one without a node adds none. */
  lemma {:induction false} ListInOrder(t: L.Tables, tree: ParseTree, kind: string)
    requires IsPart(t, tree) && IsMethodName(kind)
    ensures ListWell(tree, kind) && L.YieldAll(Spine(tree)) == L.Yield(tree)
    decreases tree
  {
    SpineYield(tree);
    if AddsItem(tree) && tree.kids != [] {
      var kids := tree.kids;
      PartRule(t, tree);
      ListInOrder(t, kids[0], kind);
      MeaningFits(t, kids[0], kind);
      ListStep(t, tree, kind);
    } else {
      MeaningOne(tree, kind);
      var w := Meaning(tree, kind).0;
      assert [w][1..] == [];
    }
  }

  lemma StepMeans(tree: ParseTree, kind: string) returns (w: Value<Node>, ws0: seq<Value<Node>>, ws: seq<Value<Node>>)
    requires tree.Node? && AddsItem(tree) && tree.kids != [] && ListWell(tree.kids[0], kind)
    ensures w == Meaning(tree.kids[0], kind).0 && ws0 == MeaningAll(Spine(tree.kids[0]), kind).0 && ws0 != []
    ensures MeaningAll(Spine(tree), kind).0 == ws0 + ws && MeaningAll(tree.kids, kind).0 == [w] + ws
    ensures MeaningAll(Spine(tree), kind).1 == MeaningAll(tree.kids, kind).1 && |ws| == |tree.kids| - 1
  {
    var kids := tree.kids;
    w, ws0 := Meaning(kids[0], kind).0, MeaningAll(Spine(kids[0]), kind).0;
    ws := MeaningAll(kids[1..], Meaning(kids[0], kind).1).0;
    MeaningConcat(Spine(kids[0]), kids[1..], kind);
    MeaningConcat([kids[0]], kids[1..], kind);
    MeaningOne(kids[0], kind);
    assert kids == [kids[0]] + kids[1..];
  }

  lemma StepChildren(item: Item, n: Node, ws: seq<Value<Node>>, kind: string)
    requires NodeAt(ws, 0) == Just(n) && 0 < item.k == |ws| - 1
    ensures BuildTree(Same(0), [item], ws, kind).Just?
    ensures BuildTree(Same(0), [item], ws, kind).value.children == n.children + Added(Just(item), ws[|ws| - 1])
  {
    AddedLast(item, ws);
    assert [item][1..] == [];
    assert ItemsTree(n, [item], ws) == Appended(n, ItemTree(item, ws));
  }

  lemma NodeMeaning(tree: ParseTree, kind: string)
    requires AddsItem(tree)
    ensures var r, d := MeaningAll(tree.kids, kind), RuleOf(tree.rule).does;
      Meaning(tree, kind) == (Doc(BuildTree(Same(0), d.items, r.0, r.1)), r.1)
  {}

  lemma ListStep(t: L.Tables, tree: ParseTree, kind: string)
    requires AddsItem(tree) && tree.kids != [] && RuleOk(RuleOf(tree.rule)) && |tree.kids| == |RuleOf(tree.rule).rhs|
    requires ListWell(tree.kids[0], kind) && Meaning(tree.kids[0], kind).0.Doc?
      && Meaning(tree.kids[0], kind).0.node.Just?
    ensures ListWell(tree, kind)
  {
    var item := OneItem(tree);
    var w, ws0, ws := StepMeans(tree, kind);
    var ms := StepMarks(tree, item);
    NodeMeaning(tree, kind);
    StepChildren(item, w.node.value, [w] + ws, MeaningAll(tree.kids, kind).1);
    TailGathered(Marks(tree.kids[0]), ws0, ms, ws, item);
    StepEnds(tree, kind, w, ws0, ms, ws, item);
  }

  lemma OneItem(tree: ParseTree) returns (item: Item)
    requires AddsItem(tree) && RuleOk(RuleOf(tree.rule)) && |tree.kids| == |RuleOf(tree.rule).rhs|
    ensures RuleOf(tree.rule).does.items == [item] && 0 < item.k == |tree.kids| - 1
  {
    item := RuleOf(tree.rule).does.items[0];
  }

  lemma StepEnds(tree: ParseTree, kind: string, w: Value<Node>, ws0: seq<Value<Node>>, ms: seq<Option<Item>>,
                 ws: seq<Value<Node>>, item: Item)
    requires AddsItem(tree) && tree.kids != [] && ListWell(tree.kids[0], kind) && ws != [] && ws0 != []
    requires w == Meaning(tree.kids[0], kind).0 && w.Doc? && w.node.Just? && |ms| == |ws|
    requires ws0 == MeaningAll(Spine(tree.kids[0]), kind).0 && Marks(tree) == Marks(tree.kids[0]) + ms
    requires MeaningAll(Spine(tree), kind).0 == ws0 + ws
    requires MeaningAll(Spine(tree), kind).1 == Meaning(tree, kind).1
    requires var n := NodeAt([Meaning(tree, kind).0], 0);
      n.Just? && n.value.children == w.node.value.children + Added(Just(item), ws[|ws| - 1])
    requires |Marks(tree)| == |(ws0 + ws)[1..]| && Gathered(Marks(tree), (ws0 + ws)[1..])
      == Gathered(Marks(tree.kids[0]), ws0[1..]) + Added(Just(item), ws[|ws| - 1])
    ensures ListWell(tree, kind)
  {
    assert NodeAt([w], 0) == w.node && NodeAt(ws0 + ws, 0) == NodeAt(ws0, 0);
    L.Associates(ChildrenOf(NodeAt(ws0, 0)), Gathered(Marks(tree.kids[0]), ws0[1..]), Added(Just(item), ws[|ws| - 1]));
  }

  lemma StepMarks(tree: ParseTree, item: Item) returns (ms: seq<Option<Item>>)
    requires AddsItem(tree) && tree.kids != [] && RuleOf(tree.rule).does.items == [item]
    requires 0 < item.k == |tree.kids| - 1
    ensures Marks(tree) == Marks(tree.kids[0]) + ms && |ms| == |tree.kids| - 1 && ms[|ms| - 1] == Just(item)
    ensures forall k :: 0 <= k < |ms| - 1 ==> ms[k] == None
  {
    ms := seq(|tree.kids| - 1, k requires 0 <= k => if item.k == k + 1 then Just(item) else None);
    var items := RuleOf(tree.rule).does.items;
    assert ms == seq(|tree.kids| - 1, k requires 0 <= k =>
      if |items| == 1 && items[0].k == k + 1 then Just(items[0]) else None);
  }

  lemma StepGathered(ms0: seq<Option<Item>>, ws0: seq<Value<Node>>, ms: seq<Option<Item>>, ws: seq<Value<Node>>,
                     item: Item)
    requires |ms0| == |ws0| && |ms| == |ws| > 0 && ms[|ms| - 1] == Just(item)
    requires forall k :: 0 <= k < |ms| - 1 ==> ms[k] == None
    ensures Gathered(ms0 + ms, ws0 + ws) == Gathered(ms0, ws0) + Added(Just(item), ws[|ws| - 1])
  {
    GatheredConcat(ms0, ws0, ms, ws);
    LastGathered(item, ms, ws);
  }

  lemma TailGathered(ms0: seq<Option<Item>>, ws0: seq<Value<Node>>, ms: seq<Option<Item>>, ws: seq<Value<Node>>,
                     item: Item)
    requires |ms0| + 1 == |ws0| && |ms| == |ws| > 0 && ms[|ms| - 1] == Just(item)
    requires forall k :: 0 <= k < |ms| - 1 ==> ms[k] == None
    ensures |ms0 + ms| == |(ws0 + ws)[1..]|
      && Gathered(ms0 + ms, (ws0 + ws)[1..]) == Gathered(ms0, ws0[1..]) + Added(Just(item), ws[|ws| - 1])
  {
    var tail := ws0[1..];
    assert (ws0 + ws)[1..] == tail + ws;
    StepGathered(ms0, tail, ms, ws, item);
  }

  /** Only the last part of the right hand side adds a node. */
  lemma {:induction false} LastGathered(item: Item, ms: seq<Option<Item>>, ws: seq<Value<Node>>)
    requires |ms| == |ws| > 0 && ms[|ms| - 1] == Just(item) && forall k :: 0 <= k < |ms| - 1 ==> ms[k] == None
    ensures Gathered(ms, ws) == Added(Just(item), ws[|ws| - 1])
  {
    NoneGathered(ms[..|ws| - 1], ws[..|ws| - 1]);
  }

  lemma {:induction false} NoneGathered(ms: seq<Option<Item>>, ws: seq<Value<Node>>)
    requires |ms| == |ws| && forall k :: 0 <= k < |ms| ==> ms[k] == None
    ensures Gathered(ms, ws) == []
    decreases |ws|
  {
    if ws != [] { NoneGathered(ms[..|ws| - 1], ws[..|ws| - 1]); }
  }

  lemma AddedLast(item: Item, ws: seq<Value<Node>>)
    requires 0 < item.k == |ws| - 1
    ensures var n := ItemTree(item, ws); Added(Just(item), ws[|ws| - 1]) == if n.Just? then [n.value] else []
  {}

  /** The same in memory: the nodes that the list's node points to hold these children. */
  lemma ListInMemory(t: L.Tables, malloc: Malloc, tree: ParseTree, g: Globals)
    requires MallocOk(malloc) && IsPart(t, tree) && IsMethodName(g.kind) && AddsItem(tree)
    ensures var (v, g') := L.Eval(Act(malloc), tree, g);
      var (ws, kind') := MeaningAll(Spine(tree), g.kind);
      && v.Doc? && v.node.Just? && v.node.value in g'.heap && |Marks(tree)| + 1 == |ws|
      && HoldAll(g'.heap, g'.heap[v.node.value].kids, ChildrenOf(NodeAt(ws, 0)) + Gathered(Marks(tree), ws[1..]))
  {
    var v, w := InMemory(t, malloc, tree, g);
    ListInOrder(t, tree, g.kind);
  }

  lemma InMemory(t: L.Tables, malloc: Malloc, tree: ParseTree, g: Globals) returns (v: Value<nat>, w: Node)
    requires MallocOk(malloc) && IsPart(t, tree) && IsMethodName(g.kind) && AddsItem(tree)
    ensures v == L.Eval(Act(malloc), tree, g).0 && Meaning(tree, g.kind).0 == Doc(Just(w))
    ensures v.Doc? && v.node.Just? && Holds(L.Eval(Act(malloc), tree, g).1.heap, v.node.value, w)
  {
    EvalMeans(t, malloc, tree, g);
    w := ListNode(t, tree, g.kind);
    v := L.Eval(Act(malloc), tree, g).0;
  }

  lemma ListNode(t: L.Tables, tree: ParseTree, kind: string) returns (w: Node)
    requires IsPart(t, tree) && IsMethodName(kind) && AddsItem(tree)
    ensures Meaning(tree, kind).0 == Doc(Just(w))
  {
    PartRule(t, tree);
    MeaningAllFits(t, tree.kids, kind);
    var r := MeaningAll(tree.kids, kind);
    BaseSorted(RuleOf(tree.rule), r.0, r.1);
    w := Meaning(tree, kind).0.node.value;
  }
}
