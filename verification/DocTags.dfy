/** The names of tags in a help document, and the ids of the nodes that they make. */
module DocTags {
  import opened DocTree
  import opened DocGrammar
  import opened DocMeaning
  import opened DocParser
  import opened DocLists
  import opened DocKinds
  import L = LrTables

  const CLASS := 3
  const LASTTAG := 42

  /** The tokens from `CLASS` on, as they are declared. */
  const TAGS := [
    "CLASS", "TITLE", "SUMMARY", "RELATED", "CATEGORIES", "REDIRECT", "CLASSTREE", "COPYMETHOD", "KEYWORD",
    "PRIVATE", "SECTION", "SUBSECTION", "METHOD", "ARGUMENT", "DESCRIPTION", "CLASSMETHODS", "INSTANCEMETHODS",
    "EXAMPLES", "RETURNS", "DISCUSSION", "LIST", "TREE", "NUMBEREDLIST", "DEFINITIONLIST", "TABLE", "FOOTNOTE",
    "NOTE", "WARNING", "CODE", "LINK", "ANCHOR", "SOFT", "IMAGE", "TELETYPE", "MATH", "STRONG", "EMPHASIS",
    "CODEBLOCK", "TELETYPEBLOCK", "MATHBLOCK"]

  function TagName(x: nat): string
    requires CLASS <= x <= LASTTAG
  {
    if x == CLASS then "TITLE" else TAGS[x - CLASS]
  }

  /** A rule that begins with a tag gives the name of the tag, to a node or to a tag symbol; a class counts as a title.
      Methods are named by their kind. A node that begins with a tag symbol is named by it. */
  predicate Named(r: Rule) {
    r.rhs != [] ==>
      && (CLASS <= r.rhs[0] <= LASTTAG ==>
           match r.does
           case Tag(id) => id == TagName(r.rhs[0])
           case TagFor(id, _) => id == TagName(r.rhs[0])
           case Build(New(name, _), _) =>
             name == Fixed(Other(TagName(r.rhs[0]))) || name == MethodKind || name == CopyKind
           case Build(Taking(name, _, _), _) => name == Fixed(Other(TagName(r.rhs[0]))) || name == PrivateKind
           case _ => false)
      && (SortOf(r.rhs[0]).TagSort? ==>
           match r.does
           case Build(New(name, _), _) => name == OfKid(0)
           case Build(Taking(name, _, _), _) => name == OfKid(0)
           case _ => false)
  }

  lemma Named0(n: nat)
    requires 4 <= n < 10
    ensures Named(Rules0On(n))
  {}

  lemma Named10(n: nat)
    requires 10 <= n < 15
    ensures Named(Rules10On(n))
  {}

  lemma Named15(n: nat)
    requires 15 <= n < 20
    ensures Named(Rules10On(n))
  {}

  lemma Named20(n: nat)
    requires 20 <= n < 30
    ensures Named(Rules20On(n))
  {}

  lemma Named30(n: nat)
    requires 30 <= n < 40
    ensures Named(Rules30On(n))
  {}

  lemma Named40(n: nat)
    requires 40 <= n < 50
    ensures Named(Rules40On(n))
  {}

  lemma Named50(n: nat)
    requires 50 <= n < 60
    ensures Named(Rules50On(n))
  {}

  lemma Named60(n: nat)
    requires 60 <= n < 70
    ensures Named(Rules60On(n))
  {}

  lemma Named70(n: nat)
    requires 70 <= n < 80
    ensures Named(Rules70On(n))
  {}

  lemma Named80(n: nat)
    requires 80 <= n < 90
    ensures Named(Rules80On(n))
  {}

  lemma Named90(n: nat)
    requires 90 <= n < 100
    ensures Named(Rules90On(n))
  {}

  lemma Named100(n: nat)
    requires 100 <= n < 110
    ensures Named(Rules100On(n))
  {}

  lemma Named110(n: nat)
    requires 110 <= n < 120
    ensures Named(Rules110On(n))
  {}

  lemma Named120(n: nat)
    requires 120 <= n < 130
    ensures Named(Rules120On(n))
  {}

  lemma Named130(n: nat)
    requires 130 <= n < 135
    ensures Named(Rules130On(n))
  {}

  lemma AllNamed(n: nat)
    requires 4 <= n < RULES
    ensures Named(RuleOf(n))
  {
    if n < 10 { Named0(n); } else if n < 15 { Named10(n); } else if n < 20 { Named15(n); }
    else if n < 30 { Named20(n); }
    else if n < 40 { Named30(n); } else if n < 50 { Named40(n); } else if n < 60 { Named50(n); }
    else if n < 70 { Named60(n); } else if n < 80 { Named70(n); } else if n < 90 { Named80(n); }
    else if n < 100 { Named90(n); } else if n < 110 { Named100(n); } else if n < 120 { Named110(n); }
    else if n < 130 { Named120(n); } else { Named130(n); }
  }

  /** A tag symbol stands for the name of its tag. */
  lemma TagSymbol(t: L.Tables, tree: ParseTree, kind: string)
    requires IsPart(t, tree) && SortOf(L.Root(t, HelpGrammar(), tree)).TagSort?
    ensures L.Yield(tree) != []
    ensures var x := L.SymbolOf(t, L.Yield(tree)[0].code);
      CLASS <= x <= LASTTAG && Meaning(tree, kind).0 == Name(Other(TagName(x)))
  {
    NoTagToken(L.Root(t, HelpGrammar(), tree));
    PartRule(t, tree);
    AllNamed(tree.rule);
    OnlyTags(tree.rule);
    TokenLeaf(t, tree.kids[0]);
    assert tree.kids == [tree.kids[0]];
    OneYield(tree.kids[0]);
  }

  lemma NoTagToken(x: nat)
    requires SortOf(x).TagSort?
    ensures NTOKENS <= x
  {}

  lemma OnlyTags(n: nat)
    requires 4 <= n < RULES && SortOf(RuleOf(n).lhs).TagSort?
    ensures |RuleOf(n).rhs| == 1 && CLASS <= RuleOf(n).rhs[0] <= LASTTAG
  {
    if n < 50 { EarlyTags(n); } else { LateTags(n); }
  }

  lemma EarlyTags(n: nat)
    requires 4 <= n < 50 && SortOf(RuleOf(n).lhs).TagSort?
    ensures |RuleOf(n).rhs| == 1 && CLASS <= RuleOf(n).rhs[0] <= LASTTAG
  {}

  lemma LateTags(n: nat)
    requires 50 <= n < RULES && SortOf(RuleOf(n).lhs).TagSort?
    ensures |RuleOf(n).rhs| == 1 && CLASS <= RuleOf(n).rhs[0] <= LASTTAG
  {}

  /** A node that begins with a tag, or with a tag symbol, is called by the first token of its text. */
  lemma TagNames(t: L.Tables, tree: ParseTree, kind: string)
    requires IsPart(t, tree) && tree.Node? && RuleOf(tree.rule).does.Build? && tree.kids != []
    requires !(41 <= tree.rule <= 43)
    requires var x := RuleOf(tree.rule).rhs[0]; CLASS <= x <= LASTTAG || SortOf(x).TagSort?
    ensures L.Yield(tree) != []
    ensures var x, w := L.SymbolOf(t, L.Yield(tree)[0].code), Meaning(tree, kind).0;
      CLASS <= x <= LASTTAG && w.Doc? && w.node.Just? && w.node.value.id == Other(TagName(x))
  {
    PartRule(t, tree);
    AllNamed(tree.rule);
    KindNames(tree.rule);
    FirstMeans(tree, kind);
    if SortOf(RuleOf(tree.rule).rhs[0]).TagSort? {
      TagSymbol(t, tree.kids[0], kind);
    } else {
      TokenLeaf(t, tree.kids[0]);
    }
    NodeCalled(tree, kind);
  }

  lemma KindNames(n: nat)
    requires 4 <= n < RULES && RuleOf(n).does.Build? && !RuleOf(n).does.base.Same? && !(41 <= n <= 43)
    ensures RuleOf(n).does.base.name !in {MethodKind, CopyKind, PrivateKind}
  {}

  /** The first symbol of a right hand side has the first tokens, and the first value. */
  lemma FirstMeans(tree: ParseTree, kind: string)
    requires tree.Node? && tree.kids != []
    ensures L.Yield(tree.kids[0]) <= L.Yield(tree)
    ensures MeaningAll(tree.kids, kind).0[0] == Meaning(tree.kids[0], kind).0
  {
    var kids := tree.kids;
    assert kids == [kids[0]] + kids[1..];
    MeaningConcat([kids[0]], kids[1..], kind);
    MeaningOne(kids[0], kind);
    L.YieldConcat([kids[0]], kids[1..]);
    OneYield(kids[0]);
  }

  lemma NodeCalled(tree: ParseTree, kind: string)
    requires tree.Node? && RuleOf(tree.rule).does.Build? && !RuleOf(tree.rule).does.base.Same?
    ensures var w, r := Meaning(tree, kind).0, MeaningAll(tree.kids, kind);
      w.Doc? && w.node.Just? && w.node.value.id == NamedBy(RuleOf(tree.rule).does.base.name, r.0, r.1)
  {
    var (ws, kind') := MeaningAll(tree.kids, kind);
    ItemsKeepId(BaseTree(RuleOf(tree.rule).does.base, ws, kind').value, RuleOf(tree.rule).does.items, ws);
  }
}
