/** A help document from its tokens to its nodes in memory (`scdoc_parse_run`): which documents are accepted, and what
    they leave behind. */
module DocRun {
  import opened DocTree
  import opened DocGrammar
  import opened DocMeaning
  import opened DocActions
  import opened DocParser
  import opened DocKinds
  import L = LrTables
  import M = LrMachine
  import P = LrParser

  /** The first `n` tokens are a document by the grammar, an end comes next, and argument strings are in place. */
  ghost predicate IsDocument(t: L.Tables, lex: nat -> Tok, n: nat, d: ParseTree) {
    && L.Derives(t, HelpGrammar(), d) && L.Root(t, HelpGrammar(), d) == DOCUMENT && L.Yield(d) == L.Taken(lex, n)
    && L.SymbolOf(t, lex(n).code) == L.END && ArgsInPlace(t, L.Taken(lex, n), "METHOD")
  }

  lemma DocumentQuiet(j: HelpRun, malloc: Malloc, d: ParseTree)
    requires HelpJob(j, malloc) && IsPart(j.t, d) && L.Root(j.t, j.g, d) == DOCUMENT
    ensures M.Quiet(j, L.Node(2, [d]), j.start) <==> ArgsInPlace(j.t, L.Yield(d), "METHOD")
  {
    QuietIffInPlace(j.t, j, malloc, d, j.start);
    M.QuietOneMore(j, [], d, j.start);
    assert [] + [d] == [d];
  }

  /** What the parser accepts is a document. */
  lemma AcceptedDocument(j: HelpRun, malloc: Malloc, n: nat, tree: ParseTree, g: Globals) returns (d: ParseTree)
    requires HelpJob(j, malloc) && M.Accepts(j, n, tree, g)
    ensures tree == L.Node(2, [d]) && IsDocument(j.t, j.lex, n, d)
  {
    d := StartRule(j, malloc, n, tree, g);
    DocumentQuiet(j, malloc, d);
    OnlyChild(d);
  }

  /** A document is what the parser accepts. */
  lemma DocumentAccepted(j: HelpRun, malloc: Malloc, n: nat, d: ParseTree)
    requires HelpJob(j, malloc) && IsDocument(j.t, j.lex, n, d)
    ensures var tree := L.Node(2, [d]); M.Accepts(j, n, tree, L.Eval(j.act, tree, j.start).1)
  {
    forall tok | tok in L.Yield(d) ensures LeafFits(j.t, tok) {
      var i :| 0 <= i < n && L.Taken(j.lex, n)[i] == tok;
      assert tok == j.lex(i);
    }
    YieldFits(j.t, d);
    DocumentQuiet(j, malloc, d);
    OnlyChild(d);
    assert L.Roots(j.t, j.g, [d]) == [DOCUMENT] == RuleOf(2).rhs;
  }

  ghost predicate Ready(j: HelpRun, malloc: Malloc, a: M.Lookahead) {
    HelpJob(j, malloc) && M.Suited(j, a) && M.Going(j, M.Begin(j))
  }

  /** Where the parser reports an error there is no document; where it accepts there is no other one. */
  lemma Verdict(j: HelpRun, malloc: Malloc, a: M.Lookahead, steps: nat, n: nat, d: ParseTree)
    requires Ready(j, malloc, a) && IsDocument(j.t, j.lex, n, d)
    ensures var r := M.Drive(j, M.Begin(j), steps);
      && !r.NoAction? && !r.Raised?
      && (r.Done? ==> 0 < r.end.n && n == r.end.n - 1 && r.end.trees != [] && r.end.trees[0] == L.Node(2, [d]))
  {
    DocumentAccepted(j, malloc, n, d);
    M.VerdictIsRight(j, a, steps);
    assert M.Accepts(j, n, L.Node(2, [d]), L.Eval(j.act, L.Node(2, [d]), j.start).1);
  }

  /** With steps enough, and stacks high enough, a document is accepted. */
  lemma EnoughSteps(j: HelpRun, malloc: Malloc, a: M.Lookahead, steps: nat, n: nat, d: ParseTree)
    requires Ready(j, malloc, a) && IsDocument(j.t, j.lex, n, d)
    requires M.Turns(d) + 3 <= steps && M.Tall(d) + 1 < M.DEPTH
    ensures M.Drive(j, M.Begin(j), steps).Done?
  {
    var tree := L.Node(2, [d]);
    DocumentAccepted(j, malloc, n, d);
    M.SentenceAccepted(j, a, n, tree, L.Eval(j.act, tree, j.start).1);
    OneKid(d);
    M.DriveOn(j, M.Begin(j), M.Turns(tree) + 2, steps - (M.Turns(tree) + 2), steps);
  }

  lemma OneKid(d: ParseTree)
    ensures M.Turns(L.Node(2, [d])) == M.Turns(d) + 1 && M.Tall(L.Node(2, [d])) == M.Max(1, M.Tall(d))
  {
    M.Measures([], d, [d]);
  }

  /** What the outcome of a run tells of documents. */
  lemma Judged(j: HelpRun, malloc: Malloc, a: M.Lookahead, steps: nat, r: P.Outcome, m: nat, tree: ParseTree,
               g: Globals)
    requires Ready(j, malloc, a) && P.Says(r, M.Drive(j, M.Begin(j), steps))
    requires r.Accepted? ==> M.Accepts(j, m, tree, g)
    ensures r.SyntaxError? || r.Raised? ==> forall n: nat, d :: !IsDocument(j.t, j.lex, n, d)
    ensures r.Accepted? ==> forall n: nat, d :: IsDocument(j.t, j.lex, n, d) ==> tree == L.Node(2, [d])
    ensures forall n: nat, d :: IsDocument(j.t, j.lex, n, d) && M.Turns(d) + 3 <= steps && M.Tall(d) + 1 < M.DEPTH ==>
      r.Accepted?
  {
    if r.Accepted? { Sole(j, malloc, a, steps, m, tree, g); }
    forall n: nat, d | IsDocument(j.t, j.lex, n, d)
      ensures !r.SyntaxError? && !r.Raised? && (r.Accepted? ==> tree == L.Node(2, [d]))
      ensures M.Turns(d) + 3 <= steps && M.Tall(d) + 1 < M.DEPTH ==> r.Accepted?
    {
      Verdict(j, malloc, a, steps, n, d);
      if M.Turns(d) + 3 <= steps && M.Tall(d) + 1 < M.DEPTH { EnoughSteps(j, malloc, a, steps, n, d); }
    }
  }

  /** The parse tree of what was accepted. */
  lemma Sole(j: HelpRun, malloc: Malloc, a: M.Lookahead, steps: nat, m: nat, tree: ParseTree, g: Globals)
    requires Ready(j, malloc, a) && M.Accepts(j, m, tree, g) && M.Drive(j, M.Begin(j), steps).Done?
    ensures var c := M.Drive(j, M.Begin(j), steps).end; c.trees != [] && c.trees[0] == tree
  {
    M.VerdictIsRight(j, a, steps);
  }

  /** `scdoc_parse_run`: the node of the document, or none when the document has an error. With complete tables there is
      an error only if there is no document, however the tokens are taken. */
  method ParseRun(t: L.Tables, malloc: Malloc, lex: nat -> L.Token<Value<nat>, P.Location>, heap: Heap, steps: nat,
                  ghost items: L.Items, ghost a: M.Lookahead)
      returns (r: P.Outcome, top: Option<nat>, heap': Heap, ghost d: ParseTree, ghost node: Node)
    requires L.TablesOk(t, HelpGrammar(), items) && t.ntokens == NTOKENS && MallocOk(malloc)
    requires forall i: nat {:trigger lex(i)} :: LeafFits(t, lex(i))
    ensures r.Accepted? <==> top.Just?
    ensures r.Accepted? ==> Meaning(d, "METHOD").0 == Doc(Just(node)) && WellFormed(node)
    ensures r.Accepted? ==> exists n :: IsDocument(t, lex, n, d)
    ensures M.Complete(t, HelpGrammar(), a) ==>
      && (r.SyntaxError? || r.Raised? ==> forall n: nat, d' :: !IsDocument(t, lex, n, d'))
      && (r.Accepted? ==> forall n: nat, d' :: IsDocument(t, lex, n, d') ==> d' == d)
      && (forall n: nat, d' :: IsDocument(t, lex, n, d') && M.Turns(d') + 3 <= steps && M.Tall(d') + 1 < M.DEPTH ==>
           r.Accepted?)
    ensures r.Accepted? ==> Holds(heap', top.value, node) && Swaps(heap, heap', {}, Own(heap', top.value, node))
  {
    var globals := Globals(heap, "METHOD", None);
    var parser := new P.Parser<Globals>(t, Act(malloc), Raises(), lex, globals, HelpGrammar(), items);
    ghost var j := parser.job;
    ghost var tree;
    M.Begins(j);
    r, tree := parser.Parse(steps);
    top, heap' := None, parser.globals.heap;
    d, node := tree, Node(NL, NoText, []);
    if r.Accepted? {
      d := AcceptedDocument(j, malloc, parser.n - 1, tree, parser.globals);
      ghost var d0;
      d0, node := DocumentMeans(j, malloc, parser.n - 1, tree, parser.globals);
      top := parser.globals.top;
    }
    if M.Complete(t, HelpGrammar(), a) {
      Judged(j, malloc, a, steps, r, if r.Accepted? then parser.n - 1 else 0, tree, parser.globals);
    }
  }
}
