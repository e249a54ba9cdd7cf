/** Method kinds of a help document: what a method is, and whether it may have arguments, depends on the last section
    heading before it. */
module DocKinds {
  import opened DocTree
  import opened DocGrammar
  import opened DocMeaning
  import opened DocActions
  import opened DocParser
  import opened DocLists
  import L = LrTables
  import M = LrMachine
  import P = LrParser

  type Tok = L.Token<Value<nat>, P.Location>

  const SECTION := 13
  const CLASSMETHODS := 18
  const INSTANCEMETHODS := 19
  const METHODARGS := 50

  /** The tokens that head a section. */
  predicate Heads(x: nat) { x == SECTION || (17 <= x <= 20) }

  /** The kind of methods behind some tokens: set by the last heading among them. */
  function KindBehind(t: L.Tables, toks: seq<Tok>, kind: string): string {
    if toks == [] then kind
    else
      var x := L.SymbolOf(t, toks[|toks| - 1].code);
      if x == CLASSMETHODS then "CMETHOD"
      else if x == INSTANCEMETHODS then "IMETHOD"
      else if Heads(x) then "METHOD"
      else KindBehind(t, toks[..|toks| - 1], kind)
  }

  /** Arguments stand only where methods are of no particular kind. */
  ghost predicate ArgsInPlace(t: L.Tables, toks: seq<Tok>, kind: string) {
    forall i :: 0 <= i < |toks| && L.SymbolOf(t, toks[i].code) == METHODARGS ==>
      KindBehind(t, toks[..i], kind) == "METHOD"
  }

  lemma {:induction false} KindConcat(t: L.Tables, a: seq<Tok>, b: seq<Tok>, kind: string)
    ensures KindBehind(t, a + b, kind) == KindBehind(t, b, KindBehind(t, a, kind))
    decreases |b|
  {
    if b == [] {
      assert a + b == a;
    } else {
      assert (a + b)[..|a + b| - 1] == a + b[..|b| - 1] && (a + b)[|a + b| - 1] == b[|b| - 1];
      KindConcat(t, a, b[..|b| - 1], kind);
    }
  }

  lemma ArgsConcat(t: L.Tables, a: seq<Tok>, b: seq<Tok>, kind: string)
    ensures ArgsInPlace(t, a + b, kind) <==>
      ArgsInPlace(t, a, kind) && ArgsInPlace(t, b, KindBehind(t, a, kind))
  {
    var c := a + b;
    forall i | 0 <= i < |a| ensures c[i] == a[i] && c[..i] == a[..i] {}
    forall i | 0 <= i < |b|
      ensures c[|a| + i] == b[i] && KindBehind(t, c[..|a| + i], kind) == KindBehind(t, b[..i], KindBehind(t, a, kind))
    {
      assert c[..|a| + i] == a + b[..i];
      KindConcat(t, a, b[..i], kind);
    }
    if ArgsInPlace(t, c, kind) {
      forall i | 0 <= i < |a| && L.SymbolOf(t, a[i].code) == METHODARGS
        ensures KindBehind(t, a[..i], kind) == "METHOD" { assert c[i] == a[i]; }
      forall i | 0 <= i < |b| && L.SymbolOf(t, b[i].code) == METHODARGS
        ensures KindBehind(t, b[..i], KindBehind(t, a, kind)) == "METHOD" { assert c[|a| + i] == b[i]; }
    }
    if ArgsInPlace(t, a, kind) && ArgsInPlace(t, b, KindBehind(t, a, kind)) {
      forall i | 0 <= i < |c| && L.SymbolOf(t, c[i].code) == METHODARGS
        ensures KindBehind(t, c[..i], kind) == "METHOD"
      {
        if i < |a| { assert c[i] == a[i]; } else { assert c[|a| + (i - |a|)] == b[i - |a|]; }
      }
    }
  }

  // ----- where headings and arguments stand in rules

  /** Symbols that set the kind, or depend on it. */
  predicate Special(x: nat) { Heads(x) || x == 68 || x == METHODARGS }

  /** Symbols that have to do with kinds stand nowhere else, and other rules leave the kind alone. */
  predicate Placed(n: nat, r: Rule) {
    if n == 27 then r.lhs == 68 && r.rhs == [] && r.does == For("METHOD")
    else if n == 28 then r.lhs == 67 && r.rhs == [SECTION, 68, 105, 106, 69] && r.does.Build?
    else if n == 45 then r.rhs == [METHODARGS] && r.does == Pass && r.lhs != 68
    else if 18 <= n <= 21 then
      && |r.rhs| == 1 && Heads(r.rhs[0]) && r.rhs[0] != SECTION && r.does.TagFor? && r.lhs != 68
      && r.does.kind == (if r.rhs[0] == CLASSMETHODS then "CMETHOD"
                         else if r.rhs[0] == INSTANCEMETHODS then "IMETHOD" else "METHOD")
    else
      && (forall i :: 0 <= i < |r.rhs| ==> !Special(r.rhs[i])) && r.lhs != 68 && !r.does.TagFor? && !r.does.For?
  }

  lemma Placed0(n: nat)
    requires 4 <= n < 10
    ensures Placed(n, Rules0On(n))
  {}

  lemma Placed10(n: nat)
    requires 10 <= n < 20
    ensures Placed(n, Rules10On(n))
  {}

  lemma Placed20(n: nat)
    requires 20 <= n < 30
    ensures Placed(n, Rules20On(n))
  {}

  lemma Placed30(n: nat)
    requires 30 <= n < 40
    ensures Placed(n, Rules30On(n))
  {}

  lemma Placed40(n: nat)
    requires 40 <= n < 50
    ensures Placed(n, Rules40On(n))
  {}

  lemma Placed50(n: nat)
    requires 50 <= n < 60
    ensures Placed(n, Rules50On(n))
  {}

  lemma Placed60(n: nat)
    requires 60 <= n < 70
    ensures Placed(n, Rules60On(n))
  {}

  lemma Placed70(n: nat)
    requires 70 <= n < 80
    ensures Placed(n, Rules70On(n))
  {}

  lemma Placed80(n: nat)
    requires 80 <= n < 90
    ensures Placed(n, Rules80On(n))
  {}

  lemma Placed90(n: nat)
    requires 90 <= n < 100
    ensures Placed(n, Rules90On(n))
  {}

  lemma Placed100(n: nat)
    requires 100 <= n < 110
    ensures Placed(n, Rules100On(n))
  {}

  lemma Placed110(n: nat)
    requires 110 <= n < 120
    ensures Placed(n, Rules110On(n))
  {}

  lemma Placed120(n: nat)
    requires 120 <= n < 130
    ensures Placed(n, Rules120On(n))
  {}

  lemma Placed130(n: nat)
    requires 130 <= n < 135
    ensures Placed(n, Rules130On(n))
  {}

  lemma AllPlaced(n: nat)
    requires 4 <= n < RULES
    ensures Placed(n, RuleOf(n))
  {
    if n < 10 { Placed0(n); } else if n < 20 { Placed10(n); } else if n < 30 { Placed20(n); }
    else if n < 40 { Placed30(n); } else if n < 50 { Placed40(n); } else if n < 60 { Placed50(n); }
    else if n < 70 { Placed60(n); } else if n < 80 { Placed70(n); } else if n < 90 { Placed80(n); }
    else if n < 100 { Placed90(n); } else if n < 110 { Placed100(n); } else if n < 120 { Placed110(n); }
    else if n < 130 { Placed120(n); } else { Placed130(n); }
  }

  // ----- what the headings before it say is the kind that the actions use

  /** A part of a document that neither is nor ends with a heading, nor is an argument string. */
  ghost predicate IsBody(t: L.Tables, tree: ParseTree) {
    IsPart(t, tree) && !Special(L.Root(t, HelpGrammar(), tree))
  }

  lemma BodyRule(t: L.Tables, tree: ParseTree)
    requires IsBody(t, tree) && tree.Node?
    ensures 4 <= tree.rule < RULES && tree.rule != 27 && Placed(tree.rule, RuleOf(tree.rule))
    ensures |tree.kids| == |RuleOf(tree.rule).rhs|
    ensures forall k :: 0 <= k < |tree.kids| ==>
      IsPart(t, tree.kids[k]) && L.Root(t, HelpGrammar(), tree.kids[k]) == RuleOf(tree.rule).rhs[k]
  {
    PartRule(t, tree);
    AllPlaced(tree.rule);
  }

  /** A symbol that is a token has a leaf for its tree. */
  lemma TokenLeaf(t: L.Tables, tree: ParseTree)
    requires IsPart(t, tree) && L.Root(t, HelpGrammar(), tree) < NTOKENS
    ensures tree.Leaf?
  {
    if tree.Node? {
      PartRule(t, tree);
      NoTokenRule(tree.rule);
    }
  }

  lemma NoTokenRule(n: nat)
    requires 4 <= n < RULES
    ensures NTOKENS <= RuleOf(n).lhs
  {}

  /** The kind behind a part is what the headings in it say. */
  lemma {:induction false} KindFollows(t: L.Tables, tree: ParseTree, kind: string)
    requires IsBody(t, tree)
    ensures Meaning(tree, kind).1 == KindBehind(t, L.Yield(tree), kind)
    decreases tree, 1
  {
    match tree
    case Leaf(tok) => LeafKind(t, tok, kind);
    case Node(n, kids) =>
      BodyRule(t, tree);
      if n == 28 {
        SectionKind(t, kids, kind);
      } else if 18 <= n <= 21 {
        HeadingKind(t, n, kids, kind);
      } else if n == 45 {
        ArgsKind(t, kids, kind);
      } else {
        KindsFollow(t, kids, kind);
      }
  }

  lemma {:induction false} KindsFollow(t: L.Tables, trees: seq<ParseTree>, kind: string)
    requires forall k :: 0 <= k < |trees| ==> IsBody(t, trees[k])
    ensures MeaningAll(trees, kind).1 == KindBehind(t, L.YieldAll(trees), kind)
    decreases trees, 0
  {
    if trees != [] {
      var front, last := trees[..|trees| - 1], trees[|trees| - 1];
      KindsFollow(t, front, kind);
      KindFollows(t, last, MeaningAll(front, kind).1);
      KindConcat(t, L.YieldAll(front), L.Yield(last), kind);
    }
  }

  lemma LeafKind(t: L.Tables, tok: Tok, kind: string)
    requires IsBody(t, L.Leaf(tok))
    ensures KindBehind(t, [tok], kind) == kind
  {
    assert [tok][..0] == [];
  }

  lemma HeadingKind(t: L.Tables, n: nat, kids: seq<ParseTree>, kind: string)
    requires IsBody(t, L.Node(n, kids)) && 18 <= n <= 21
    ensures Meaning(L.Node(n, kids), kind).1 == KindBehind(t, L.YieldAll(kids), kind)
  {
    BodyRule(t, L.Node(n, kids));
    TokenLeaf(t, kids[0]);
    assert kids == [kids[0]];
    OneYield(kids[0]);
  }

  lemma ArgsKind(t: L.Tables, kids: seq<ParseTree>, kind: string)
    requires IsBody(t, L.Node(45, kids))
    ensures kids == [kids[0]] && kids[0].Leaf? && L.YieldAll(kids) == [kids[0].tok]
      && L.SymbolOf(t, kids[0].tok.code) == METHODARGS
    ensures MeaningAll(kids, kind).1 == kind == KindBehind(t, L.YieldAll(kids), kind)
  {
    BodyRule(t, L.Node(45, kids));
    TokenLeaf(t, kids[0]);
    assert kids == [kids[0]];
    OneYield(kids[0]);
    MeaningOne(kids[0], kind);
    assert [kids[0].tok][..0] == [];
  }

  /** `SECTION` and the action behind it: methods are of no particular kind from here on. */
  lemma SectionBegins(t: L.Tables, kids: seq<ParseTree>, kind: string)
    requires IsBody(t, L.Node(28, kids))
    ensures |kids| == 5 && kids[0].Leaf? && kids[1] == L.Node(27, []) && L.YieldAll(kids[..2]) == [kids[0].tok]
    ensures L.SymbolOf(t, kids[0].tok.code) == SECTION
    ensures MeaningAll(kids[..2], kind).1 == "METHOD" == KindBehind(t, [kids[0].tok], kind)
    ensures forall k :: 2 <= k < 5 ==> IsBody(t, kids[k])
  {
    BodyRule(t, L.Node(28, kids));
    TokenLeaf(t, kids[0]);
    ChoiceNode(t, kids[1]);
    assert kids[..2] == [kids[0]] + [kids[1]];
    L.YieldOneMore([kids[0]], kids[1]);
    OneYield(kids[0]);
    MeaningOneMore([kids[0]], kids[1], kind);
    ChoiceMeans(MeaningAll([kids[0]], kind).1);
  }

  lemma ChoiceNode(t: L.Tables, tree: ParseTree)
    requires IsPart(t, tree) && L.Root(t, HelpGrammar(), tree) == 68
    ensures tree == L.Node(27, [])
  {
    if tree.Node? {
      PartRule(t, tree);
      AllPlaced(tree.rule);
    }
  }

  lemma ChoiceMeans(kind: string)
    ensures Meaning(L.Node(27, []), kind).1 == "METHOD"
  {
    AllPlaced(27);
  }

  lemma SectionKind(t: L.Tables, kids: seq<ParseTree>, kind: string)
    requires IsBody(t, L.Node(28, kids))
    ensures Meaning(L.Node(28, kids), kind).1 == KindBehind(t, L.YieldAll(kids), kind)
    decreases L.Node(28, kids), 0
  {
    SectionBegins(t, kids, kind);
    var rest := kids[2..];
    forall k | 0 <= k < |rest| ensures IsBody(t, rest[k]) { assert rest[k] == kids[k + 2]; }
    KindsFollow(t, rest, "METHOD");
    SectionSplit(t, kids, rest, kind);
  }

  lemma SectionSplit(t: L.Tables, kids: seq<ParseTree>, rest: seq<ParseTree>, kind: string)
    requires |kids| == 5 && rest == kids[2..] && kids[0].Leaf? && L.YieldAll(kids[..2]) == [kids[0].tok]
    requires MeaningAll(kids[..2], kind).1 == "METHOD" == KindBehind(t, [kids[0].tok], kind)
    requires MeaningAll(rest, "METHOD").1 == KindBehind(t, L.YieldAll(rest), "METHOD")
    ensures Meaning(L.Node(28, kids), kind).1 == KindBehind(t, L.YieldAll(kids), kind)
  {
    assert kids == kids[..2] + rest;
    MeaningConcat(kids[..2], rest, kind);
    L.YieldConcat(kids[..2], rest);
    KindConcat(t, [kids[0].tok], L.YieldAll(rest), kind);
    AllPlaced(28);
  }

  // ----- where an action raises an error

  type HelpRun = L.Job<Value<nat>, P.Location, Globals>

  ghost predicate HelpActs(j: HelpRun, malloc: Malloc) {
    j.act == Act(malloc) && j.fails == Raises() && MallocOk(malloc)
  }

  lemma OneInPlace(t: L.Tables, tok: Tok, kind: string)
    ensures ArgsInPlace(t, [tok], kind) <==> (L.SymbolOf(t, tok.code) == METHODARGS ==> kind == "METHOD")
  {
    assert [tok][..0] == [] && [tok][0] == tok;
  }

  /** No action raises an error in a part of a document just when its argument strings are in place. */
  lemma {:induction false} QuietIffInPlace(t: L.Tables, j: HelpRun, malloc: Malloc, tree: ParseTree, g: Globals)
    requires HelpActs(j, malloc) && IsBody(t, tree) && IsMethodName(g.kind)
    ensures M.Quiet(j, tree, g) <==> ArgsInPlace(t, L.Yield(tree), g.kind)
    decreases tree, 1
  {
    match tree
    case Leaf(tok) => OneInPlace(t, tok, g.kind);
    case Node(n, kids) =>
      BodyRule(t, tree);
      if n == 28 {
        SectionQuiet(t, j, malloc, kids, g);
      } else if n == 45 {
        ArgsKind(t, kids, g.kind);
        QuietLeaf(j, kids[0].tok, g);
        OneInPlace(t, kids[0].tok, g.kind);
        L.EvalOne(j.act, kids[0], g);
      } else if 18 <= n <= 21 {
        HeadingQuiet(t, j, n, kids, g);
      } else {
        AllQuietIff(t, j, malloc, kids, g);
      }
  }

  lemma QuietLeaf(j: HelpRun, tok: Tok, g: Globals)
    ensures M.QuietAll(j, [L.Leaf(tok)], g)
  {
    M.QuietOneMore(j, [], L.Leaf(tok), g);
    assert [] + [L.Leaf(tok)] == [L.Leaf(tok)];
  }

  lemma HeadingQuiet(t: L.Tables, j: HelpRun, n: nat, kids: seq<ParseTree>, g: Globals)
    requires j.fails == Raises() && IsBody(t, L.Node(n, kids)) && 18 <= n <= 21
    ensures M.Quiet(j, L.Node(n, kids), g) && ArgsInPlace(t, L.YieldAll(kids), g.kind)
  {
    BodyRule(t, L.Node(n, kids));
    TokenLeaf(t, kids[0]);
    assert kids == [kids[0]];
    OneYield(kids[0]);
    OneInPlace(t, kids[0].tok, g.kind);
    QuietLeaf(j, kids[0].tok, g);
  }

  lemma {:induction false} AllQuietIff(t: L.Tables, j: HelpRun, malloc: Malloc, trees: seq<ParseTree>, g: Globals)
    requires HelpActs(j, malloc) && IsMethodName(g.kind) && forall k :: 0 <= k < |trees| ==> IsBody(t, trees[k])
    ensures M.QuietAll(j, trees, g) <==> ArgsInPlace(t, L.YieldAll(trees), g.kind)
    decreases trees, 0
  {
    if trees != [] {
      var front, last := trees[..|trees| - 1], trees[|trees| - 1];
      AllQuietIff(t, j, malloc, front, g);
      EvalAllMean(t, malloc, front, g);
      KindsFollow(t, front, g.kind);
      QuietIffInPlace(t, j, malloc, last, L.EvalAll(j.act, front, g).1);
      ArgsConcat(t, L.YieldAll(front), L.Yield(last), g.kind);
    }
  }

  lemma SectionQuiet(t: L.Tables, j: HelpRun, malloc: Malloc, kids: seq<ParseTree>, g: Globals)
    requires HelpActs(j, malloc) && IsBody(t, L.Node(28, kids)) && IsMethodName(g.kind)
    ensures M.Quiet(j, L.Node(28, kids), g) <==> ArgsInPlace(t, L.YieldAll(kids), g.kind)
    decreases L.Node(28, kids), 0
  {
    var rest := kids[2..];
    SectionBegins(t, kids, g.kind);
    SectionMarked(t, j, malloc, kids, g);
    forall k | 0 <= k < |rest| ensures IsBody(t, rest[k]) { assert rest[k] == kids[k + 2]; }
    AllQuietIff(t, j, malloc, rest, L.EvalAll(j.act, kids[..2], g).1);
    assert kids == kids[..2] + rest;
    M.QuietConcat(j, kids[..2], rest, g);
    L.YieldConcat(kids[..2], rest);
    ArgsConcat(t, [kids[0].tok], L.YieldAll(rest), g.kind);
    OneInPlace(t, kids[0].tok, g.kind);
  }

  lemma SectionMarked(t: L.Tables, j: HelpRun, malloc: Malloc, kids: seq<ParseTree>, g: Globals)
    requires HelpActs(j, malloc) && IsBody(t, L.Node(28, kids)) && IsMethodName(g.kind)
    ensures |kids| == 5 && M.QuietAll(j, kids[..2], g) && L.EvalAll(j.act, kids[..2], g).1.kind == "METHOD"
  {
    SectionBegins(t, kids, g.kind);
    BodyRule(t, L.Node(28, kids));
    EvalAllMean(t, malloc, kids[..2], g);
    assert kids[..2] == [kids[0]] + [kids[1]];
    QuietLeaf(j, kids[0].tok, g);
    M.QuietOneMore(j, [kids[0]], kids[1], g);
  }

  // ----- what methods are called

  lemma {:induction false} ItemsKeepId(n: Node, items: seq<Item>, ws: seq<Value<Node>>)
    ensures ItemsTree(n, items, ws).id == n.id
    decreases |items|
  {
    if items != [] { ItemsKeepId(Appended(n, ItemTree(items[0], ws)), items[1..], ws); }
  }

  /** The last heading before it tells what a method, a copied method or a private one is called. */
  lemma MethodNamed(t: L.Tables, tree: ParseTree, kind: string)
    requires IsBody(t, tree) && tree.Node? && 41 <= tree.rule <= 43
    ensures var w, k := Meaning(tree, kind).0, KindBehind(t, L.Yield(tree), kind);
      && w.Doc? && w.node.Just? && w.node.value.id.Other?
      && var id := w.node.value.id.name;
      match tree.rule
      case 41 => id == k
      case 42 =>
        id == (if k == "CMETHOD" then "CCOPYMETHOD" else if k == "IMETHOD" then "ICOPYMETHOD" else "COPYMETHOD")
      case 43 => id == if k == "CMETHOD" then "CPRIVATE" else "IPRIVATE"
  {
    KindFollows(t, tree, kind);
    BodyRule(t, tree);
    var (ws, kind') := MeaningAll(tree.kids, kind);
    var n := BaseTree(RuleOf(tree.rule).does.base, ws, kind').value;
    ItemsKeepId(n, RuleOf(tree.rule).does.items, ws);
  }

  lemma {:induction false} ItemsKeepChildren(n: Node, items: seq<Item>, ws: seq<Value<Node>>)
    ensures n.children <= ItemsTree(n, items, ws).children
    decreases |items|
  {
    if items != [] { ItemsKeepChildren(Appended(n, ItemTree(items[0], ws)), items[1..], ws); }
  }

  /** The first child of a method holds its names. */
  lemma MethodNamesFirst(t: L.Tables, tree: ParseTree, kind: string)
    requires IsBody(t, tree) && tree.Node? && tree.rule == 41 && IsMethodName(kind)
    ensures var w := Meaning(tree, kind).0;
      w.Doc? && w.node.Just? && w.node.value.children != [] && w.node.value.children[0].id == Other("METHODNAMES")
  {
    BodyRule(t, tree);
    MeaningAllFits(t, tree.kids, kind);
    var (ws, kind') := MeaningAll(tree.kids, kind);
    assert Fits(ws[1], SortOf(RuleOf(41).rhs[1]));
    NamesFirst(ws, kind');
  }

  lemma NamesFirst(ws: seq<Value<Node>>, kind: string)
    requires NodeAt(ws, 1).Just?
    ensures var d := RuleOf(41).does;
      d.Build? && var n := BuildTree(d.base, d.items, ws, kind);
      n.Just? && n.value.children != [] && n.value.children[0].id == Other("METHODNAMES")
  {
    var d := RuleOf(41).does;
    var n0 := BaseTree(d.base, ws, kind).value;
    var n1 := Appended(n0, ItemTree(d.items[0], ws));
    assert n1.children[0].id == Other("METHODNAMES");
    ItemsKeepChildren(n1, d.items[1..], ws);
  }
}
