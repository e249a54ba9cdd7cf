/** The parser of help documents with its semantic actions (`scdoc_parse_run`): the nodes that are left in memory are
    the tree that the document means. */
module DocParser {
  import opened DocTree
  import opened DocGrammar
  import opened DocMeaning
  import opened DocActions
  import L = LrTables
  import P = LrParser

  type ParseTree = L.Tree<Value<nat>, P.Location>

  /** The grammar as the parser tables know it. */
  function HelpGrammar(): L.Grammar {
    L.Grammar(seq(RULES, n requires 0 <= n < RULES => RuleOf(n).lhs), seq(RULES, n requires 0 <= n < RULES =>
      RuleOf(n).rhs))
  }

  function Act(malloc: Malloc): L.Action<Value<nat>, Globals> {
    (m, vs, g) => HeapDo(malloc, RuleOf(m).does, vs, g)
  }

  /** Arguments of a method raise an error among class and instance methods (rule 45). */
  function Raises(): (nat, seq<Value<nat>>, Globals) -> bool {
    (m: nat, vs: seq<Value<nat>>, g: Globals) => m == 45 && g.kind != "METHOD"
  }

  // ----- what a parse tree means

  function LeafMeaning(v: Value<nat>): Value<Node> {
    match v
    case Int(i) => Int(i)
    case Name(id) => Name(id)
    case Str(str) => Str(str)
    case Doc(_) => Doc(None)
  }

  /** The value of a parse tree, with `kind` for `method_type`: no memory is involved. */
  function Meaning(tree: ParseTree, kind: string): (Value<Node>, string) {
    match tree
    case Leaf(tok) => (LeafMeaning(tok.val), kind)
    case Node(n, kids) => var (ws, kind') := MeaningAll(kids, kind); TreeDo(RuleOf(n).does, ws, kind')
  }

  function MeaningAll(trees: seq<ParseTree>, kind: string): (r: (seq<Value<Node>>, string))
    ensures |r.0| == |trees|
  {
    if trees == [] then ([], kind)
    else
      var (ws, kind') := MeaningAll(trees[..|trees| - 1], kind);
      var (w, kind'') := Meaning(trees[|trees| - 1], kind');
      (ws + [w], kind'')
  }

  /** What the scanner gives the parser: text for the tokens that have text, and nothing of use for the others. */
  predicate LeafFits(t: L.Tables, tok: L.Token<Value<nat>, P.Location>) {
    var x := L.SymbolOf(t, tok.code);
    x < NTOKENS && x != ERROR
    && if SortOf(x).Words? then tok.val.Str? && tok.val.str.Some? else !tok.val.Str? && !tok.val.Doc?
  }

  ghost predicate LeavesFit(t: L.Tables, tree: ParseTree) {
    match tree
    case Leaf(tok) => LeafFits(t, tok)
    case Node(_, kids) => forall k :: k in kids ==> LeavesFit(t, k)
  }

  lemma {:induction false} YieldFits(t: L.Tables, tree: ParseTree)
    requires forall tok :: tok in L.Yield(tree) ==> LeafFits(t, tok)
    ensures LeavesFit(t, tree)
    decreases tree
  {
    match tree
    case Leaf(tok) => assert tok in L.Yield(tree);
    case Node(_, kids) => YieldAllFits(t, kids);
  }

  lemma {:induction false} YieldAllFits(t: L.Tables, trees: seq<ParseTree>)
    requires forall tok :: tok in L.YieldAll(trees) ==> LeafFits(t, tok)
    ensures forall k :: k in trees ==> LeavesFit(t, k)
    decreases trees
  {
    if trees != [] {
      YieldAllFits(t, trees[..|trees| - 1]);
      YieldFits(t, trees[|trees| - 1]);
      assert trees == trees[..|trees| - 1] + [trees[|trees| - 1]];
    }
  }

  // ----- memory holds what the tree means

  /** A parse tree of the grammar, below the start symbol. */
  ghost predicate IsPart(t: L.Tables, tree: ParseTree) {
    L.Derives(t, HelpGrammar(), tree) && LeavesFit(t, tree) && !SortOf(L.Root(t, HelpGrammar(), tree)).Whole?
  }

  lemma PartRule(t: L.Tables, tree: ParseTree)
    requires IsPart(t, tree) && tree.Node?
    ensures 4 <= tree.rule < RULES && RuleOk(RuleOf(tree.rule)) && |tree.kids| == |RuleOf(tree.rule).rhs|
    ensures L.Root(t, HelpGrammar(), tree) == RuleOf(tree.rule).lhs
    ensures forall k :: 0 <= k < |tree.kids| ==>
      IsPart(t, tree.kids[k]) && L.Root(t, HelpGrammar(), tree.kids[k]) == RuleOf(tree.rule).rhs[k]
  {
    var n, kids := tree.rule, tree.kids;
    assert RuleOf(n).lhs != START ==> n != 2 && n != 3;
    RulesOk(n);
    assert |L.Roots(t, HelpGrammar(), kids)| == |kids|;
    forall k | 0 <= k < |kids|
      ensures IsPart(t, kids[k]) && L.Root(t, HelpGrammar(), kids[k]) == RuleOf(n).rhs[k] {
      assert L.Roots(t, HelpGrammar(), kids)[k] == L.Root(t, HelpGrammar(), kids[k]);
      assert kids[k] in kids;
    }
  }

  ghost predicate MeansWell(t: L.Tables, malloc: Malloc, tree: ParseTree, g: Globals) {
    var (v, g') := L.Eval(Act(malloc), tree, g);
    var (w, kind') := Meaning(tree, g.kind);
    && Stands(g'.heap, v, w) && Swaps(g.heap, g'.heap, {}, OwnOf(g'.heap, v, w)) && g'.kind == kind' && g'.top == g.top
    && Fits(w, SortOf(L.Root(t, HelpGrammar(), tree))) && IsMethodName(kind')
  }

  ghost predicate MeanWell(t: L.Tables, malloc: Malloc, trees: seq<ParseTree>, g: Globals) {
    var (vs, g') := L.EvalAll(Act(malloc), trees, g);
    var (ws, kind') := MeaningAll(trees, g.kind);
    && AllStand(g'.heap, vs, ws) && Swaps(g.heap, g'.heap, {}, OwnOfAll(g'.heap, vs, ws))
    && g'.kind == kind' && g'.top == g.top && IsMethodName(kind')
    && (forall k :: 0 <= k < |trees| ==> Fits(ws[k], SortOf(L.Root(t, HelpGrammar(), trees[k]))))
  }

  /** Running the actions over a parse tree brings nodes into memory that hold the tree it means; no other node changes,
      and none is left over. */
  lemma {:induction false} EvalMeans(t: L.Tables, malloc: Malloc, tree: ParseTree, g: Globals)
    requires MallocOk(malloc) && IsPart(t, tree) && IsMethodName(g.kind)
    ensures MeansWell(t, malloc, tree, g)
    decreases tree
  {
    match tree
    case Leaf(tok) =>
    case Node(n, kids) =>
      PartRule(t, tree);
      EvalAllMean(t, malloc, kids, g);
      RuleMeans(t, malloc, n, kids, g);
  }

  lemma RuleMeans(t: L.Tables, malloc: Malloc, n: nat, kids: seq<ParseTree>, g: Globals)
    requires MallocOk(malloc) && n < RULES && RuleOk(RuleOf(n)) && MeanWell(t, malloc, kids, g)
    requires |kids| == |RuleOf(n).rhs| && forall k :: 0 <= k < |kids| ==>
      L.Root(t, HelpGrammar(), kids[k]) == RuleOf(n).rhs[k]
    ensures MeansWell(t, malloc, L.Node(n, kids), g)
  {
    RuleRuns(malloc, n, kids, g);
    RuleDoes(malloc, RuleOf(n), L.EvalAll(Act(malloc), kids, g), MeaningAll(kids, g.kind), g);
  }

  lemma RuleRuns(malloc: Malloc, n: nat, kids: seq<ParseTree>, g: Globals)
    ensures var u := L.EvalAll(Act(malloc), kids, g);
      L.Eval(Act(malloc), L.Node(n, kids), g) == HeapDo(malloc, RuleOf(n).does, u.0, u.1)
    ensures var u := MeaningAll(kids, g.kind); Meaning(L.Node(n, kids), g.kind) == TreeDo(RuleOf(n).does, u.0, u.1)
  {}

  lemma RuleDoes(malloc: Malloc, r: Rule, u: (seq<Value<nat>>, Globals), m: (seq<Value<Node>>, string), g: Globals)
    requires MallocOk(malloc) && RuleOk(r) && AllFit(m.0, r.rhs) && AllStand(u.1.heap, u.0, m.0) && IsMethodName(m.1)
    requires Swaps(g.heap, u.1.heap, {}, OwnOfAll(u.1.heap, u.0, m.0)) && u.1.kind == m.1 && u.1.top == g.top
    ensures var (v, g') := HeapDo(malloc, r.does, u.0, u.1);
      var (w, kind') := TreeDo(r.does, m.0, m.1);
      && Stands(g'.heap, v, w) && Swaps(g.heap, g'.heap, {}, OwnOf(g'.heap, v, w))
      && g'.kind == kind' && g'.top == g.top && Fits(w, SortOf(r.lhs)) && IsMethodName(kind')
  {
    DoHolds(malloc, r, u.0, m.0, u.1);
    DoFits(r, m.0, m.1);
    var (v, g') := HeapDo(malloc, r.does, u.0, u.1);
    var w := TreeDo(r.does, m.0, m.1).0;
    SwapsTwice(g.heap, u.1.heap, g'.heap, {}, OwnOfAll(u.1.heap, u.0, m.0), {}, OwnOf(g'.heap, v, w));
  }

  lemma {:induction false} EvalAllMean(t: L.Tables, malloc: Malloc, trees: seq<ParseTree>, g: Globals)
    requires MallocOk(malloc) && IsMethodName(g.kind) && forall k :: 0 <= k < |trees| ==> IsPart(t, trees[k])
    ensures MeanWell(t, malloc, trees, g)
    decreases trees
  {
    if trees != [] {
      var front, last := trees[..|trees| - 1], trees[|trees| - 1];
      EvalAllMean(t, malloc, front, g);
      var g1 := L.EvalAll(Act(malloc), front, g).1;
      EvalMeans(t, malloc, last, g1);
      OneMoreMeans(t, malloc, trees, g);
    }
  }

  lemma OneMoreMeans(t: L.Tables, malloc: Malloc, trees: seq<ParseTree>, g: Globals)
    requires trees != [] && MeanWell(t, malloc, trees[..|trees| - 1], g)
    requires MeansWell(t, malloc, trees[|trees| - 1], L.EvalAll(Act(malloc), trees[..|trees| - 1], g).1)
    ensures MeanWell(t, malloc, trees, g)
  {
    var front, last := trees[..|trees| - 1], trees[|trees| - 1];
    var (vs, g1) := L.EvalAll(Act(malloc), front, g);
    var (ws, kind1) := MeaningAll(front, g.kind);
    var (v, g2) := L.Eval(Act(malloc), last, g1);
    var (w, kind2) := Meaning(last, kind1);
    assert front + [last] == trees;
    L.EvalOneMore(Act(malloc), front, last, g);
    StandOneMore(g.heap, g1.heap, g2.heap, vs, ws, v, w);
    FitOneMore(t, front, last, ws, w);
  }

  lemma FitOneMore(t: L.Tables, front: seq<ParseTree>, last: ParseTree, ws: seq<Value<Node>>, w: Value<Node>)
    requires |ws| == |front| && Fits(w, SortOf(L.Root(t, HelpGrammar(), last)))
    requires forall k :: 0 <= k < |front| ==> Fits(ws[k], SortOf(L.Root(t, HelpGrammar(), front[k])))
    ensures forall k :: 0 <= k < |front| + 1 ==>
      Fits((ws + [w])[k], SortOf(L.Root(t, HelpGrammar(), (front + [last])[k])))
  {}

  lemma StandOneMore(h: Heap, h1: Heap, h2: Heap, vs: seq<Value<nat>>, ws: seq<Value<Node>>, v: Value<nat>,
                     w: Value<Node>)
    requires AllStand(h1, vs, ws) && Swaps(h, h1, {}, OwnOfAll(h1, vs, ws))
    requires Stands(h2, v, w) && Swaps(h1, h2, {}, OwnOf(h2, v, w))
    ensures AllStand(h2, vs + [v], ws + [w]) && Swaps(h, h2, {}, OwnOfAll(h2, vs + [v], ws + [w]))
  {
    StandsOn(h1, h2, vs, ws, v, w);
    OwnOneMore(h1, h2, vs, ws, v, w);
    SwapsBoth(h, h1, h2, OwnOfAll(h1, vs, ws), OwnOf(h2, v, w));
  }

  lemma StandsOn(h1: Heap, h2: Heap, vs: seq<Value<nat>>, ws: seq<Value<Node>>, v: Value<nat>, w: Value<Node>)
    requires AllStand(h1, vs, ws) && Stands(h2, v, w) && Swaps(h1, h2, {}, OwnOf(h2, v, w))
    ensures AllStand(h2, vs + [v], ws + [w])
    ensures forall k :: 0 <= k < |vs| ==> OwnOf(h2, vs[k], ws[k]) == OwnOf(h1, vs[k], ws[k])
  {
    forall k | 0 <= k < |vs|
      ensures Stands(h2, vs[k], ws[k]) && OwnOf(h2, vs[k], ws[k]) == OwnOf(h1, vs[k], ws[k])
      ensures OwnOf(h2, vs[k], ws[k]) !! OwnOf(h2, v, w)
    {
      OutsideOf(h1, h2, {}, OwnOf(h2, v, w), vs[k], ws[k]);
    }
  }

  lemma OwnOneMore(h1: Heap, h2: Heap, vs: seq<Value<nat>>, ws: seq<Value<Node>>, v: Value<nat>, w: Value<Node>)
    requires |vs| == |ws| && forall k :: 0 <= k < |vs| ==> OwnOf(h2, vs[k], ws[k]) == OwnOf(h1, vs[k], ws[k])
    ensures OwnOfAll(h2, vs + [v], ws + [w]) == OwnOfAll(h1, vs, ws) + OwnOf(h2, v, w)
  {
    var vs', ws' := vs + [v], ws + [w];
    assert vs'[|vs|] == v && ws'[|vs|] == w;
    forall k | 0 <= k < |vs| ensures OwnOf(h2, vs'[k], ws'[k]) == OwnOf(h1, vs[k], ws[k]) {
      assert vs'[k] == vs[k] && ws'[k] == ws[k];
    }
    forall x | x in OwnOfAll(h1, vs, ws) ensures x in OwnOfAll(h2, vs', ws') {
      var k :| 0 <= k < |vs| && x in OwnOf(h1, vs[k], ws[k]);
      assert x in OwnOf(h2, vs'[k], ws'[k]);
    }
    forall x | x in OwnOf(h2, v, w) ensures x in OwnOfAll(h2, vs', ws') { assert x in OwnOf(h2, vs'[|vs|], ws'[|vs|]); }
  }

  // ----- the whole document

  /** The parser set up for help documents, as `scdoc_parse_run` does. */
  ghost predicate HelpJob(j: L.Job<Value<nat>, P.Location, Globals>, malloc: Malloc) {
    && j.g == HelpGrammar() && j.act == Act(malloc) && j.fails == Raises() && L.TablesOk(j.t, j.g, j.items)
    && j.t.ntokens == NTOKENS
    && MallocOk(malloc) && (forall i: nat {:trigger j.lex(i)} :: LeafFits(j.t, j.lex(i)))
    && j.start.kind == "METHOD" && j.start.top == None
  }

  lemma OnlyStart(n: nat)
    requires 4 <= n < RULES
    ensures RuleOf(n).lhs != START
  {}

  lemma KidOf(t: L.Tables, tree: ParseTree, k: nat)
    requires L.Derives(t, HelpGrammar(), tree) && LeavesFit(t, tree) && tree.Node? && k < |tree.kids|
    ensures k < |RuleOf(tree.rule).rhs| == |tree.kids| && L.Derives(t, HelpGrammar(), tree.kids[k])
    ensures LeavesFit(t, tree.kids[k]) && L.Root(t, HelpGrammar(), tree.kids[k]) == RuleOf(tree.rule).rhs[k]
  {
    assert tree.kids[k] in tree.kids;
    assert L.Roots(t, HelpGrammar(), tree.kids)[k] == L.Root(t, HelpGrammar(), tree.kids[k]);
  }

  lemma StartTree(j: L.Job<Value<nat>, P.Location, Globals>, malloc: Malloc, n: nat, tree: ParseTree, g: Globals)
    requires HelpJob(j, malloc) && L.IsResult(j, n, tree, g)
    ensures L.Derives(j.t, j.g, tree) && LeavesFit(j.t, tree) && tree.Node? && RuleOf(tree.rule).lhs == START
    ensures 2 <= tree.rule < RULES
  {
    forall tok | tok in L.Yield(tree) ensures LeafFits(j.t, tok) {
      var i :| 0 <= i < n && L.Taken(j.lex, n)[i] == tok;
      assert tok == j.lex(i);
    }
    YieldFits(j.t, tree);
    assert RuleOf(L.ACCEPT).rhs == [START, 0];
  }

  /** The tree of a document: below the start symbol there is the document itself. */
  lemma StartRule(j: L.Job<Value<nat>, P.Location, Globals>, malloc: Malloc, n: nat, tree: ParseTree, g: Globals)
      returns (d: ParseTree)
    requires HelpJob(j, malloc) && L.IsResult(j, n, tree, g)
    ensures tree == L.Node(2, [d]) && IsPart(j.t, d) && L.Root(j.t, j.g, d) == DOCUMENT
  {
    StartTree(j, malloc, n, tree, g);
    if 4 <= tree.rule { OnlyStart(tree.rule); }
    TwoRules(j, tree);
    KidOf(j.t, tree, 0);
    d := tree.kids[0];
  }

  lemma TwoRules(j: L.Job<Value<nat>, P.Location, Globals>, tree: ParseTree)
    requires j.g == HelpGrammar() && L.TablesOk(j.t, j.g, j.items) && tree.Node? && (tree.rule == 2 || tree.rule == 3)
    requires L.Derives(j.t, j.g, tree) && LeavesFit(j.t, tree)
    ensures tree.rule == 2 && |tree.kids| == 1
  {
    assert |L.Roots(j.t, j.g, tree.kids)| == |tree.kids|;
    if tree.rule == 3 {
      KidOf(j.t, tree, 1);
      NoError(j.t, j.g, j.items, tree.kids[1]);
      assert false;
    }
  }

  lemma NoError(t: L.Tables, g: L.Grammar, items: L.Items, tree: ParseTree)
    requires L.TablesOk(t, g, items) && L.Derives(t, g, tree) && LeavesFit(t, tree)
    ensures L.Root(t, g, tree) != ERROR
  {}

  /** When the parser accepts a document, `topnode` is the root of the tree that the document means. The nodes of this
      tree are all different, and they are all that the run has left in memory: no node was lost, and none that was
      there before has changed. */
  lemma DocumentMeans(j: L.Job<Value<nat>, P.Location, Globals>, malloc: Malloc, n: nat, tree: ParseTree, g: Globals)
      returns (d: ParseTree, node: Node)
    requires HelpJob(j, malloc) && L.IsResult(j, n, tree, g)
    ensures tree == L.Node(2, [d]) && Meaning(d, "METHOD").0 == Doc(Just(node)) && WellFormed(node) && node.id.Other?
    ensures g.top.Just? && Holds(g.heap, g.top.value, node)
    ensures Swaps(j.start.heap, g.heap, {}, Own(g.heap, g.top.value, node))
  {
    d := StartRule(j, malloc, n, tree, g);
    EvalMeans(j.t, malloc, d, j.start);
    node := Meaning(d, "METHOD").0.node.value;
    TopIs(malloc, d, j.start);
  }

  lemma TopIs(malloc: Malloc, d: ParseTree, g: Globals)
    ensures var (v, g') := L.Eval(Act(malloc), d, g);
      L.Eval(Act(malloc), L.Node(2, [d]), g).1 == g'.(top := NodeAt([v], 0))
  {
    L.EvalOne(Act(malloc), d, g);
  }

  lemma OnlyChild(d: ParseTree)
    ensures L.Yield(L.Node(2, [d])) == L.Yield(d)
  {
    L.YieldOneMore([], d);
    assert [] + [d] == [d];
  }
}
