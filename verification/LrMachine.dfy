/** What the tables make a parser do, turn by turn, and that it accepts exactly the sentences of the grammar when the
    tables are complete. */
module LrMachine {
  import opened LrTables

  /** `YYMAXDEPTH`: the height at which the stacks may grow no more. */
  const DEPTH := 10000

  /** The stacks, the global variables, and the number of tokens shifted. */
  datatype Config<V, L, G> = Config(states: seq<nat>, vals: seq<V>, trees: seq<Tree<V, L>>, gl: G, n: nat)

  /** What comes of a turn: the next configuration, the end in the final state, an error because the tables have no
      action, an error raised by an action, or stacks that are full. */
  datatype Turn<V, L, G> = To(c: Config<V, L, G>) | Done(end: Config<V, L, G>) | NoAction | Raised(rule: nat) | Full

  function Begin<V, L, G>(j: Job<V, L, G>): Config<V, L, G> { Config([0], [], [], j.start, 0) }

  // ----- actions that raise no error

  predicate Quiet<V, L, G>(j: Job<V, L, G>, tree: Tree<V, L>, gl: G)
    decreases tree
  {
    match tree
    case Leaf(_) => true
    case Node(n, kids) =>
      QuietAll(j, kids, gl) && !j.fails(n, EvalAll(j.act, kids, gl).0, EvalAll(j.act, kids, gl).1)
  }

  predicate QuietAll<V, L, G>(j: Job<V, L, G>, trees: seq<Tree<V, L>>, gl: G)
    decreases trees
  {
    trees == []
    || (QuietAll(j, trees[..|trees| - 1], gl)
        && Quiet(j, trees[|trees| - 1], EvalAll(j.act, trees[..|trees| - 1], gl).1))
  }

  lemma QuietOneMore<V, L, G>(j: Job<V, L, G>, a: seq<Tree<V, L>>, x: Tree<V, L>, gl: G)
    ensures QuietAll(j, a + [x], gl) <==> QuietAll(j, a, gl) && Quiet(j, x, EvalAll(j.act, a, gl).1)
  {
    assert (a + [x])[..|a + [x]| - 1] == a && (a + [x])[|a + [x]| - 1] == x;
  }

  lemma {:induction false} QuietConcat<V, L, G>(j: Job<V, L, G>, a: seq<Tree<V, L>>, b: seq<Tree<V, L>>, gl: G)
    ensures QuietAll(j, a + b, gl) <==> QuietAll(j, a, gl) && QuietAll(j, b, EvalAll(j.act, a, gl).1)
    decreases |b|
  {
    if b == [] {
      assert a + b == a;
    } else {
      var c, x := b[..|b| - 1], b[|b| - 1];
      assert b == c + [x] && a + b == (a + c) + [x];
      QuietConcat(j, a, c, gl);
      QuietOneMore(j, a + c, x, gl);
      QuietOneMore(j, c, x, EvalAll(j.act, a, gl).1);
      EvalConcat(j.act, a, c, gl);
    }
  }

  // ----- one turn

  /** The stacks, with `l` for the location of each symbol. */
  function Plain<V, L, G>(c: Config<V, L, G>, l: L): Stacks<V, L> { Stacks(c.states, c.vals, seq(|c.vals|, _ => l)) }

  ghost predicate RunsQuietly<V, L, G>(j: Job<V, L, G>, c: Config<V, L, G>, l: L) {
    Runs(j, Plain(c, l), c.n, c.gl, c.trees) && QuietAll(j, c.trees, j.start)
  }

  /** A run of the parser, in which no action has raised an error so far; locations have no say in it. */
  ghost predicate Going<V, L(!new), G>(j: Job<V, L, G>, c: Config<V, L, G>) {
    forall l: L {:trigger Plain(c, l)} :: RunsQuietly(j, c, l)
  }

  lemma AnyLocations<V, L(!new), G>(j: Job<V, L, G>, c: Config<V, L, G>, k: Stacks<V, L>)
    requires c.states == k.states && c.vals == k.vals && Runs(j, k, c.n, c.gl, c.trees) && QuietAll(j, c.trees, j.start)
    ensures Going(j, c)
  {
    forall l: L ensures RunsQuietly(j, c, l) { assert |Plain(c, l).locs| == |c.vals|; }
  }

  /** What the tables say in state `s` before the symbol `x`. A state that acts by default does not look at it. */
  function Decided(t: Tables, s: nat, x: nat): Decision
    requires s < |t.pact| == |t.defact| && |t.check| == |t.table|
  {
    if t.pact[s] == t.pactNinf then ByDefault(t, s) else ByToken(t, s, x)
  }

  function Symbol<V, L, G>(j: Job<V, L, G>, n: nat): nat { SymbolOf(j.t, j.lex(n).code) }

  lemma Opened<V, L(!new), G>(j: Job<V, L, G>, c: Config<V, L, G>) returns (k: Stacks<V, L>)
    requires Going(j, c)
    ensures k == Plain(c, j.lex(0).loc) && Runs(j, k, c.n, c.gl, c.trees) && QuietAll(j, c.trees, j.start)
  {
    k := Plain(c, j.lex(0).loc);
    assert RunsQuietly(j, c, j.lex(0).loc);
  }

  lemma Shape<V, L(!new), G>(j: Job<V, L, G>, c: Config<V, L, G>)
    requires Going(j, c)
    ensures TablesOk(j.t, j.g, j.items) && |c.states| == |c.vals| + 1 == |c.trees| + 1
    ensures c.states[|c.trees|] < |j.t.pact|
  {
    var k := Opened(j, c);
    TopIsState(j.t, j.g, j.items, c.states, c.trees, |c.trees|);
  }

  lemma Decides<V, L(!new), G>(j: Job<V, L, G>, c: Config<V, L, G>)
    requires Going(j, c) && |c.states| == |c.trees| + 1 && c.states[|c.trees|] != j.t.final
    ensures var s := c.states[|c.trees|];
      && Acts(j, s)
      && match Decided(j.t, s, Symbol(j, c.n))
         case Error => true
         case Shift(s') => MayShift(j, s, j.lex(c.n), s')
         case Reduce(m) => MayReduce(j, s, m)
  {
    var k := Opened(j, c);
    var s := c.states[|c.trees|];
    TopActs(j, k, c.n, c.gl, c.trees);
    if j.t.pact[s] == j.t.pactNinf { DefaultIs(j, s); } else { TokenIs(j, s, j.lex(c.n)); }
  }

  function Shifted<V, L, G>(j: Job<V, L, G>, c: Config<V, L, G>, s: nat): Config<V, L, G> {
    var tok := j.lex(c.n);
    Config(c.states + [s], c.vals + [tok.val], c.trees + [Leaf(tok)], c.gl, c.n + 1)
  }

  /** The height from which on the stacks hold the right hand side of rule `m`. */
  function Height<V, L, G>(j: Job<V, L, G>, c: Config<V, L, G>, m: nat): int
    requires m < |j.t.r2|
  {
    |c.vals| - j.t.r2[m]
  }

  /** Rule `m` can be reduced. */
  ghost predicate Reducible<V, L, G>(j: Job<V, L, G>, c: Config<V, L, G>, m: int) {
    && |c.states| == |c.vals| + 1 == |c.trees| + 1 && |j.t.check| == |j.t.table| && |j.t.pgoto| == |j.t.defgoto|
    && 0 <= m < |j.t.r2| == |j.t.r1| && 0 <= Height(j, c, m)
    && j.t.ntokens <= j.t.r1[m] < j.t.ntokens + |j.t.pgoto|
    && 0 <= GotoOf(j.t, c.states[Height(j, c, m)], j.t.r1[m])
  }

  function Reduced<V, L, G>(j: Job<V, L, G>, c: Config<V, L, G>, m: nat): Config<V, L, G>
    requires Reducible(j, c, m)
  {
    var h := Height(j, c, m);
    var (v, gl) := j.act(m, c.vals[h..], c.gl);
    Config(c.states[..h + 1] + [GotoOf(j.t, c.states[h], j.t.r1[m])], c.vals[..h] + [v],
      c.trees[..h] + [Node(m, c.trees[h..])], gl, c.n)
  }

  lemma CanShift<V, L(!new), G>(j: Job<V, L, G>, c: Config<V, L, G>, s: int)
    requires Going(j, c) && |c.states| == |c.trees| + 1 && MayShift(j, c.states[|c.trees|], j.lex(c.n), s)
    ensures 0 <= s && Going(j, Shifted(j, c, s))
  {
    var tok := j.lex(c.n);
    var k := Opened(j, c);
    ShiftRuns(j, k, c.n, c.gl, c.trees, tok, s);
    QuietOneMore(j, c.trees, Leaf(tok), j.start);
    AnyLocations(j, Shifted(j, c, s), Pushed(k, s, tok.val, tok.loc));
  }

  lemma CanReduce<V, L(!new), G>(j: Job<V, L, G>, c: Config<V, L, G>, m: int)
    requires Going(j, c) && |c.states| == |c.trees| + 1 && MayReduce(j, c.states[|c.trees|], m)
    ensures Reducible(j, c, m)
    ensures !j.fails(m, c.vals[Height(j, c, m)..], c.gl) ==> Going(j, Reduced(j, c, m))
  {
    var k := Opened(j, c);
    var h, s := ReduceRuns(j, k, c.n, c.gl, c.trees, m);
    if !j.fails(m, c.vals[h..], c.gl) {
      QuietReduce(j, c, m, h);
      AnyLocations(j, Reduced(j, c, m), Pushed(Popped(k, h), s, j.act(m, k.vals[h..], c.gl).0, j.lex(0).loc));
    }
  }

  lemma QuietReduce<V, L, G>(j: Job<V, L, G>, c: Config<V, L, G>, m: nat, h: nat)
    requires QuietAll(j, c.trees, j.start) && EvalAll(j.act, c.trees, j.start) == (c.vals, c.gl)
    requires h <= |c.trees| == |c.vals| && !j.fails(m, c.vals[h..], c.gl)
    ensures QuietAll(j, c.trees[..h] + [Node(m, c.trees[h..])], j.start)
  {
    var a, b := c.trees[..h], c.trees[h..];
    assert c.trees == a + b;
    QuietConcat(j, a, b, j.start);
    var g1 := ValuesSplit(j.act, a, b, j.start, c.vals, c.gl);
    QuietOneMore(j, a, Node(m, b), j.start);
  }

  /** The final state has been entered. */
  ghost predicate Ended<V, L, G>(j: Job<V, L, G>, c: Config<V, L, G>) {
    c.states != [] && c.states[|c.states| - 1] == j.t.final
  }

  function Landed<V, L, G>(c: Config<V, L, G>): Turn<V, L, G> { if |c.states| < DEPTH then To(c) else Full }

  /** One turn of the parser. */
  ghost function Next<V, L(!new), G>(j: Job<V, L, G>, c: Config<V, L, G>): (r: Turn<V, L, G>)
    requires Going(j, c)
    ensures r.To? ==> Going(j, r.c)
  {
    Shape(j, c);
    var s := c.states[|c.trees|];
    if s == j.t.final then Done(c)
    else
      Decides(j, c);
      match Decided(j.t, s, Symbol(j, c.n))
      case Error => NoAction
      case Shift(s') => CanShift(j, c, s'); Landed(Shifted(j, c, s'))
      case Reduce(m) =>
        CanReduce(j, c, m);
        if j.fails(m, c.vals[Height(j, c, m)..], c.gl) then Raised(m) else Landed(Reduced(j, c, m))
  }

  /** Up to `k` turns. */
  ghost function Drive<V, L(!new), G>(j: Job<V, L, G>, c: Config<V, L, G>, k: nat): (r: Turn<V, L, G>)
    requires Going(j, c)
    ensures r.To? ==> Going(j, r.c)
    decreases k
  {
    if k == 0 then To(c)
    else
      var r := Next(j, c);
      if r.To? then Drive(j, r.c, k - 1) else r
  }

  lemma Begins<V, L(!new), G>(j: Job<V, L, G>)
    requires TablesOk(j.t, j.g, j.items)
    ensures Going(j, Begin(j))
  {
    RunBegins(j);
    AnyLocations(j, Begin(j), Stacks([0], [], []));
  }

  /** Turns follow one another. */
  lemma {:induction false} DriveOn<V, L(!new), G>(j: Job<V, L, G>, c: Config<V, L, G>, k: nat, l: nat, n: nat)
    requires Going(j, c) && n == k + l
    ensures var r := Drive(j, c, k); Drive(j, c, n) == if r.To? then Drive(j, r.c, l) else r
    decreases k
  {
    if k > 0 {
      FirstTurn(j, c, k);
      FirstTurn(j, c, n);
      if Next(j, c).To? { DriveOn(j, Next(j, c).c, k - 1, l, n - 1); }
    }
  }

  lemma {:induction false} DriveEnds<V, L(!new), G>(j: Job<V, L, G>, c: Config<V, L, G>, k: nat)
    requires Going(j, c) && Drive(j, c, k).Done?
    ensures Going(j, Drive(j, c, k).end) && Ended(j, Drive(j, c, k).end)
    decreases k
  {
    if k > 0 {
      FirstTurn(j, c, k);
      Shape(j, c);
      if Next(j, c).To? { DriveEnds(j, Next(j, c).c, k - 1); }
    }
  }

  lemma FirstTurn<V, L(!new), G>(j: Job<V, L, G>, c: Config<V, L, G>, k: nat)
    requires Going(j, c) && 0 < k
    ensures var r := Next(j, c); Drive(j, c, k) == if r.To? then Drive(j, r.c, k - 1) else r
  {}

  // ----- complete tables

  /** What a generator finds out about a grammar: the symbols that may be empty, the tokens that a symbol may begin
      with, and for each state its dotted rules with the tokens that may come behind the rule. */
  datatype Lookahead = Lookahead(
    nullable: nat -> bool, first: (nat, nat) -> bool, ahead: (nat, nat, nat, nat) -> bool)

  predicate AllNullable(a: Lookahead, syms: seq<nat>) { forall i :: 0 <= i < |syms| ==> a.nullable(syms[i]) }

  ghost predicate MayStart(a: Lookahead, syms: seq<nat>, y: nat) {
    exists i: nat {:trigger StartAt(a, syms, i, y)} :: StartAt(a, syms, i, y)
  }

  predicate StartAt(a: Lookahead, syms: seq<nat>, i: nat, y: nat) {
    i < |syms| && AllNullable(a, syms[..i]) && a.first(syms[i], y)
  }

  /** Token `y` may come next where `syms` and then `x` are still to come. */
  ghost predicate MayFollow(a: Lookahead, syms: seq<nat>, x: nat, y: nat) {
    MayStart(a, syms, y) || (AllNullable(a, syms) && y == x)
  }

  ghost predicate RuleStarts(g: Grammar, a: Lookahead, n: nat, y: nat) {
    ACCEPT < n < |g.rhs| == |g.lhs| ==>
      && (AllNullable(a, g.rhs[n]) ==> a.nullable(g.lhs[n]))
      && (MayStart(a, g.rhs[n], y) ==> a.first(g.lhs[n], y))
  }

  ghost predicate Shifts(t: Tables, a: Lookahead, s: nat, y: nat, m: nat, d: nat, x: nat)
    requires s < |t.pact| == |t.defact| && |t.check| == |t.table|
  {
    var e := Decided(t, s, y);
    e.Shift? && 0 <= e.state && a.ahead(e.state, m, d + 1, x)
  }

  ghost predicate Goes(t: Tables, a: Lookahead, s: nat, y: nat, m: nat, d: nat, x: nat)
    requires |t.check| == |t.table| && |t.pgoto| == |t.defgoto| && t.ntokens <= y
  {
    y < t.ntokens + |t.pgoto| && 0 <= GotoOf(t, s, y) && a.ahead(GotoOf(t, s, y), m, d + 1, x)
  }

  /** With the dot before a token the tables shift it; before another symbol its rules belong to the state, and the goto
      moves the dot over it; with the dot at the end the tables reduce, or are in the final state. */
  ghost predicate Served(t: Tables, g: Grammar, a: Lookahead, s: nat, m: nat, d: nat, x: nat)
    requires |t.pact| == |t.defact| && |t.check| == |t.table| && |t.pgoto| == |t.defgoto| && |g.lhs| == |g.rhs|
  {
    && s < |t.pact| && m < |g.rhs| && d <= |g.rhs[m]| && (s == t.final <==> m == ACCEPT && d == |g.rhs[m]|)
    && if d == |g.rhs[m]| then m == ACCEPT || Decided(t, s, x) == Reduce(m)
       else if g.rhs[m][d] < t.ntokens then Shifts(t, a, s, g.rhs[m][d], m, d, x)
       else
         && Goes(t, a, s, g.rhs[m][d], m, d, x)
         && forall n: nat, y: nat {:trigger a.ahead(s, n, 0, y)} ::
           ACCEPT < n < |g.lhs| && g.lhs[n] == g.rhs[m][d] && MayFollow(a, g.rhs[m][d + 1..], x, y) ==>
             a.ahead(s, n, 0, y)
  }

  /** The tables have an entry for everything that the grammar allows. */
  ghost predicate Complete(t: Tables, g: Grammar, a: Lookahead)
    requires |t.pact| == |t.defact| && |t.check| == |t.table| && |t.pgoto| == |t.defgoto| && |g.lhs| == |g.rhs|
  {
    && a.ahead(0, ACCEPT, 0, END) && (forall x: nat {:trigger a.first(x, x)} :: x < t.ntokens ==> a.first(x, x))
    && (forall n: nat, y: nat {:trigger RuleStarts(g, a, n, y)} :: RuleStarts(g, a, n, y))
    && (forall s: nat, m: nat, d: nat, x: nat {:trigger Served(t, g, a, s, m, d, x)} ::
      a.ahead(s, m, d, x) ==> Served(t, g, a, s, m, d, x))
  }

  ghost predicate Suited<V, L, G>(j: Job<V, L, G>, a: Lookahead) {
    TablesOk(j.t, j.g, j.items) && Complete(j.t, j.g, a)
  }

  // ----- what a tree begins with

  lemma StartsLater(a: Lookahead, syms: seq<nat>, x: nat, y: nat)
    ensures MayStart(a, syms, y) ==> MayStart(a, syms + [x], y)
    ensures AllNullable(a, syms) && a.first(x, y) ==> MayStart(a, syms + [x], y)
  {
    if i: nat :| StartAt(a, syms, i, y) {
      assert (syms + [x])[..i] == syms[..i] && (syms + [x])[i] == syms[i];
      assert StartAt(a, syms + [x], i, y);
    }
    if AllNullable(a, syms) && a.first(x, y) {
      assert (syms + [x])[..|syms|] == syms && (syms + [x])[|syms|] == x;
      assert StartAt(a, syms + [x], |syms|, y);
    }
  }

  lemma FollowsBefore(a: Lookahead, syms: seq<nat>, x: nat, y: nat)
    requires syms != []
    ensures a.first(syms[0], y) ==> MayFollow(a, syms, x, y)
    ensures a.nullable(syms[0]) && MayFollow(a, syms[1..], x, y) ==> MayFollow(a, syms, x, y)
  {
    var rest := syms[1..];
    if a.first(syms[0], y) { assert StartAt(a, syms, 0, y); }
    if a.nullable(syms[0]) {
      if i: nat :| StartAt(a, rest, i, y) {
        assert syms[..i + 1] == [syms[0]] + rest[..i];
        assert StartAt(a, syms, i + 1, y);
      }
      if AllNullable(a, rest) { assert syms == [syms[0]] + rest; }
    }
  }

  /** The first token of a tree is one that its symbol may begin with; without tokens the symbol may be empty. */
  lemma {:induction false} TreeStarts<V, L>(t: Tables, g: Grammar, items: Items, a: Lookahead, tree: Tree<V, L>)
    requires TablesOk(t, g, items) && Complete(t, g, a) && Derives(t, g, tree)
    ensures Yield(tree) == [] ==> a.nullable(Root(t, g, tree))
    ensures Yield(tree) != [] ==> a.first(Root(t, g, tree), SymbolOf(t, Yield(tree)[0].code))
    decreases tree
  {
    match tree
    case Leaf(tok) => SymbolIsTerminal(t, g, items, tok.code);
    case Node(n, kids) =>
      TreesStart(t, g, items, a, kids);
      var y := if YieldAll(kids) == [] then 0 else SymbolOf(t, YieldAll(kids)[0].code);
      assert RuleStarts(g, a, n, y);
  }

  lemma {:induction false} TreesStart<V, L>(t: Tables, g: Grammar, items: Items, a: Lookahead, trees: seq<Tree<V, L>>)
    requires TablesOk(t, g, items) && Complete(t, g, a) && forall k :: k in trees ==> Derives(t, g, k)
    ensures YieldAll(trees) == [] ==> AllNullable(a, Roots(t, g, trees))
    ensures YieldAll(trees) != [] ==> MayStart(a, Roots(t, g, trees), SymbolOf(t, YieldAll(trees)[0].code))
    decreases trees
  {
    if trees != [] {
      var front, last := trees[..|trees| - 1], trees[|trees| - 1];
      TreesStart(t, g, items, a, front);
      TreeStarts(t, g, items, a, last);
      var x := Root(t, g, last);
      assert Roots(t, g, trees) == Roots(t, g, front) + [x];
      if YieldAll(trees) != [] { StartsLater(a, Roots(t, g, front), x, SymbolOf(t, YieldAll(trees)[0].code)); }
    }
  }

  // ----- a parse tree drives the parser

  /** How many turns a tree takes, and how many places on the stacks. */
  function Turns<V, L>(tree: Tree<V, L>): nat {
    match tree
    case Leaf(_) => 1
    case Node(_, kids) => TurnsAll(kids) + 1
  }

  function TurnsAll<V, L>(trees: seq<Tree<V, L>>): nat {
    if trees == [] then 0 else TurnsAll(trees[..|trees| - 1]) + Turns(trees[|trees| - 1])
  }

  function Max(x: nat, y: nat): nat { if x < y then y else x }

  function Tall<V, L>(tree: Tree<V, L>): nat {
    match tree
    case Leaf(_) => 1
    case Node(_, kids) => Max(1, TallAll(kids))
  }

  function TallAll<V, L>(trees: seq<Tree<V, L>>): nat {
    if trees == [] then 0 else Max(TallAll(trees[..|trees| - 1]), |trees| - 1 + Tall(trees[|trees| - 1]))
  }

  /** The tokens `w` come next. */
  ghost predicate Comes<V, L, G>(j: Job<V, L, G>, n: nat, w: seq<Token<V, L>>) {
    forall i :: 0 <= i < |w| ==> j.lex(n + i) == w[i]
  }

  /** The stacks have grown by `trees`, and their tokens have been shifted. */
  ghost predicate Grown<V, L, G>(j: Job<V, L, G>, c: Config<V, L, G>, c': Config<V, L, G>, trees: seq<Tree<V, L>>) {
    && c'.trees == c.trees + trees && (c'.vals, c'.gl) == (c.vals + EvalAll(j.act, trees, c.gl).0,
      EvalAll(j.act, trees, c.gl).1)
    && c'.n == c.n + |YieldAll(trees)| && |c'.states| == |c.states| + |trees| && c.states <= c'.states
  }

  /** After `k` turns the trees are on the stacks, in a state with the dot behind them, or the stacks are full. */
  ghost predicate Driven<V, L(!new), G>(j: Job<V, L, G>, a: Lookahead, c: Config<V, L, G>, trees: seq<Tree<V, L>>,
                                        k: nat, high: nat, m: nat, d: nat, x: nat)
    requires Going(j, c)
  {
    var r := Drive(j, c, k);
    if r.To? then Grown(j, c, r.c, trees) && r.c.states != [] && a.ahead(r.c.states[|r.c.states| - 1], m, d, x)
    else r.Full? && DEPTH <= |c.states| + high
  }

  /** A tree can be read here: its symbol is behind the dot of a rule of the top state, its tokens come next, and then
      one that may come behind it. */
  ghost predicate Ready<V, L(!new), G>(j: Job<V, L, G>, a: Lookahead, c: Config<V, L, G>, tree: Tree<V, L>, m: nat,
                                       d: nat, x: nat, rest: seq<nat>, y: nat) {
    && Going(j, c) && |c.states| == |c.trees| + 1 && Derives(j.t, j.g, tree)
    && a.ahead(c.states[|c.trees|], m, d, x) && m < |j.g.rhs| && d < |j.g.rhs[m]|
    && j.g.rhs[m][d] == Root(j.t, j.g, tree) && Comes(j, c.n, Yield(tree)) && Quiet(j, tree, c.gl)
    && rest == j.g.rhs[m][d + 1..] && y == Symbol(j, c.n + |Yield(tree)|) && MayFollow(a, rest, x, y)
  }

  /** The same for the first symbols of a right hand side. */
  ghost predicate ReadyAll<V, L(!new), G>(j: Job<V, L, G>, a: Lookahead, c: Config<V, L, G>, trees: seq<Tree<V, L>>,
                                          m: nat, x: nat, rest: seq<nat>, y: nat) {
    && Going(j, c) && |c.states| == |c.trees| + 1 && (forall k :: k in trees ==> Derives(j.t, j.g, k))
    && a.ahead(c.states[|c.trees|], m, 0, x) && m < |j.g.rhs| && |trees| <= |j.g.rhs[m]|
    && Roots(j.t, j.g, trees) == j.g.rhs[m][..|trees|] && Comes(j, c.n, YieldAll(trees)) && QuietAll(j, trees, c.gl)
    && rest == j.g.rhs[m][|trees|..] && y == Symbol(j, c.n + |YieldAll(trees)|) && MayFollow(a, rest, x, y)
  }

  lemma One<V, L, G>(j: Job<V, L, G>, tree: Tree<V, L>, gl: G)
    ensures YieldAll([tree]) == Yield(tree) && EvalAll(j.act, [tree], gl) == ([Eval(j.act, tree, gl).0], Eval(j.act,
      tree, gl).1)
  {
    YieldOneMore([], tree);
    EvalOne(j.act, tree, gl);
    assert [] + [tree] == [tree];
  }

  lemma LeafDecided<V, L(!new), G>(j: Job<V, L, G>, a: Lookahead, c: Config<V, L, G>, tok: Token<V, L>, m: nat, d: nat,
                             x: nat, rest: seq<nat>, y: nat) returns (s: nat)
    requires Suited(j, a) && Ready(j, a, c, Leaf(tok), m, d, x, rest, y)
    ensures MayShift(j, c.states[|c.trees|], tok, s) && a.ahead(s, m, d + 1, x) && tok == j.lex(c.n)
    ensures Decided(j.t, c.states[|c.trees|], Symbol(j, c.n)) == Shift(s)
  {
    SymbolIsTerminal(j.t, j.g, j.items, tok.code);
    FirstComes(j, c.n, tok);
    s := TokenServed(j, a, c.states[|c.trees|], m, d, x);
    Decides(j, c);
  }

  lemma FirstComes<V, L, G>(j: Job<V, L, G>, n: nat, tok: Token<V, L>)
    requires Comes(j, n, [tok])
    ensures j.lex(n) == tok
  {
    assert j.lex(n + 0) == [tok][0];
  }

  /** Before a token the tables shift. */
  lemma TokenServed<V, L, G>(j: Job<V, L, G>, a: Lookahead, top: nat, m: nat, d: nat, x: nat) returns (s: nat)
    requires Suited(j, a) && a.ahead(top, m, d, x) && m < |j.g.rhs| && d < |j.g.rhs[m]| && j.g.rhs[m][d] < j.t.ntokens
    ensures top != j.t.final && top < |j.t.pact| == |j.t.defact| && |j.t.check| == |j.t.table|
    ensures Decided(j.t, top, j.g.rhs[m][d]) == Shift(s) && a.ahead(s, m, d + 1, x)
  {
    assert Served(j.t, j.g, a, top, m, d, x);
    s := Decided(j.t, top, j.g.rhs[m][d]).state;
  }

  lemma NextShifts<V, L(!new), G>(j: Job<V, L, G>, c: Config<V, L, G>, s: nat)
    requires Going(j, c) && |c.states| == |c.trees| + 1 && MayShift(j, c.states[|c.trees|], j.lex(c.n), s)
    requires Decided(j.t, c.states[|c.trees|], Symbol(j, c.n)) == Shift(s)
    ensures Next(j, c) == Landed(Shifted(j, c, s))
  {}

  lemma NextReduces<V, L(!new), G>(j: Job<V, L, G>, c: Config<V, L, G>, m: nat)
    requires Going(j, c) && |c.states| == |c.trees| + 1 && Reducible(j, c, m)
      && MayReduce(j, c.states[|c.trees|], m) && Acts(j, c.states[|c.trees|])
    requires Decided(j.t, c.states[|c.trees|], Symbol(j, c.n)) == Reduce(m)
      && !j.fails(m, c.vals[Height(j, c, m)..], c.gl)
    ensures Next(j, c) == Landed(Reduced(j, c, m))
  {}

  lemma NextFails<V, L(!new), G>(j: Job<V, L, G>, c: Config<V, L, G>)
    requires Going(j, c) && |c.states| == |c.trees| + 1 && Acts(j, c.states[|c.trees|])
    requires Decided(j.t, c.states[|c.trees|], Symbol(j, c.n)) == Error
    ensures Next(j, c) == NoAction
  {}

  lemma NextRaises<V, L(!new), G>(j: Job<V, L, G>, c: Config<V, L, G>, m: nat)
    requires Going(j, c) && |c.states| == |c.trees| + 1 && Reducible(j, c, m)
      && MayReduce(j, c.states[|c.trees|], m) && Acts(j, c.states[|c.trees|])
    requires Decided(j.t, c.states[|c.trees|], Symbol(j, c.n)) == Reduce(m)
      && j.fails(m, c.vals[Height(j, c, m)..], c.gl)
    ensures Next(j, c) == Raised(m)
  {}

  lemma ShiftGrows<V, L, G>(j: Job<V, L, G>, c: Config<V, L, G>, s: nat)
    ensures Grown(j, c, Shifted(j, c, s), [Leaf(j.lex(c.n))])
  {
    One(j, Leaf(j.lex(c.n)), c.gl);
  }

  lemma LeafDriven<V, L(!new), G>(j: Job<V, L, G>, a: Lookahead, c: Config<V, L, G>, tok: Token<V, L>, m: nat, d: nat,
                            x: nat, rest: seq<nat>, y: nat)
    requires Suited(j, a) && Ready(j, a, c, Leaf(tok), m, d, x, rest, y)
    ensures Driven(j, a, c, [Leaf(tok)], 1, 1, m, d + 1, x)
  {
    var s := LeafDecided(j, a, c, tok, m, d, x, rest, y);
    NextShifts(j, c, s);
    ShiftGrows(j, c, s);
    LandedDriven(j, a, c, Shifted(j, c, s), [Leaf(tok)], m, d + 1, x);
  }

  lemma LandedDriven<V, L(!new), G>(j: Job<V, L, G>, a: Lookahead, c: Config<V, L, G>, c': Config<V, L, G>,
                              trees: seq<Tree<V, L>>, m: nat, d: nat, x: nat)
    requires Going(j, c) && Next(j, c) == Landed(c') && Grown(j, c, c', trees) && c.states != []
    requires a.ahead(c'.states[|c'.states| - 1], m, d, x)
    ensures Driven(j, a, c, trees, 1, |trees|, m, d, x)
  {
    assert Drive(j, c, 1) == Next(j, c);
  }

  lemma NodeReady<V, L(!new), G>(j: Job<V, L, G>, a: Lookahead, c: Config<V, L, G>, n: nat, kids: seq<Tree<V, L>>,
                                 m: nat, d: nat, x: nat, rest: seq<nat>, y: nat)
    requires Suited(j, a) && Ready(j, a, c, Node(n, kids), m, d, x, rest, y)
    ensures ReadyAll(j, a, c, kids, n, y, [], y) && |kids| == |j.g.rhs[n]|
  {
    NodeParts(j.t, j.g, n, kids);
    RuleServed(j, a, c.states[|c.trees|], m, d, x, rest, n, y);
    WholeSide(a, j.g.rhs[n], y);
  }

  lemma NodeParts<V, L>(t: Tables, g: Grammar, n: nat, kids: seq<Tree<V, L>>)
    requires Derives(t, g, Node(n, kids))
    ensures ACCEPT < n < |g.lhs| == |g.rhs| && Roots(t, g, kids) == g.rhs[n] && |kids| == |g.rhs[n]|
    ensures Root(t, g, Node(n, kids)) == g.lhs[n] && Yield(Node(n, kids)) == YieldAll(kids)
    ensures forall k :: k in kids ==> Derives(t, g, k)
  {
    assert |Roots(t, g, kids)| == |kids|;
  }

  lemma WholeSide(a: Lookahead, syms: seq<nat>, y: nat)
    ensures syms[..|syms|] == syms && syms[|syms|..] == [] && MayFollow(a, [], y, y)
  {
    assert AllNullable(a, []);
  }

  /** Before another symbol its rules belong to the state, and the goto moves the dot over it. */
  lemma RuleServed<V, L, G>(j: Job<V, L, G>, a: Lookahead, top: nat, m: nat, d: nat, x: nat,
                            rest: seq<nat>, n: nat, y: nat)
    requires Suited(j, a) && a.ahead(top, m, d, x) && m < |j.g.rhs| && d < |j.g.rhs[m]|
    requires ACCEPT < n < |j.g.lhs| && j.g.rhs[m][d] == j.g.lhs[n]
    requires rest == j.g.rhs[m][d + 1..] && MayFollow(a, rest, x, y)
    ensures a.ahead(top, n, 0, y) && |j.g.lhs| == |j.g.rhs|
    ensures |j.t.check| == |j.t.table| && |j.t.pgoto| == |j.t.defgoto| && j.t.ntokens <= j.g.lhs[n]
    ensures Goes(j.t, a, top, j.g.lhs[n], m, d, x)
  {
    assert Served(j.t, j.g, a, top, m, d, x);
  }

  /** With the dot at the end the tables reduce. */
  lemma EndServed<V, L(!new), G>(j: Job<V, L, G>, a: Lookahead, c: Config<V, L, G>, n: nat, y: nat)
    requires Suited(j, a) && Going(j, c) && |c.states| == |c.trees| + 1 && ACCEPT < n < |j.g.rhs|
    requires y == Symbol(j, c.n) && a.ahead(c.states[|c.trees|], n, |j.g.rhs[n]|, y)
    ensures var top := c.states[|c.trees|];
      Acts(j, top) && MayReduce(j, top, n) && Decided(j.t, top, Symbol(j, c.n)) == Reduce(n) && Reducible(j, c, n)
  {
    assert Served(j.t, j.g, a, c.states[|c.trees|], n, |j.g.rhs[n]|, y);
    Decides(j, c);
    CanReduce(j, c, n);
  }

  /** What the stacks are once the rule of a node has been reduced. */
  lemma ReduceGrows<V, L, G>(j: Job<V, L, G>, c: Config<V, L, G>, c1: Config<V, L, G>, n: nat, kids: seq<Tree<V, L>>)
    requires Grown(j, c, c1, kids) && Reducible(j, c1, n) && |kids| == j.t.r2[n]
      && |c.states| == |c.trees| + 1 == |c.vals| + 1
    requires Quiet(j, Node(n, kids), c.gl)
    ensures !j.fails(n, c1.vals[Height(j, c1, n)..], c1.gl)
    ensures Grown(j, c, Reduced(j, c1, n), [Node(n, kids)])
    ensures Reduced(j, c1, n).states == c.states + [GotoOf(j.t, c.states[|c.trees|], j.t.r1[n])]
  {
    var u := EvalAll(j.act, kids, c.gl);
    SplitAt(c.vals, u.0, c1.vals);
    SplitAt(c.trees, kids, c1.trees);
    One(j, Node(n, kids), c.gl);
    EvalNode(j.act, n, kids, c.gl);
  }

  /** The rule is reduced once its right hand side is on the stacks. */
  lemma NodeReduced<V, L(!new), G>(j: Job<V, L, G>, a: Lookahead, c: Config<V, L, G>, c1: Config<V, L, G>, n: nat,
                             kids: seq<Tree<V, L>>, m: nat, d: nat, x: nat, rest: seq<nat>, y: nat)
      returns (c': Config<V, L, G>)
    requires Suited(j, a) && Ready(j, a, c, Node(n, kids), m, d, x, rest, y) && Going(j, c1) && Grown(j, c, c1, kids)
    requires c1.states != [] && a.ahead(c1.states[|c1.states| - 1], n, |kids|, y)
    ensures Next(j, c1) == Landed(c') && Grown(j, c, c', [Node(n, kids)]) && c'.states != []
    ensures a.ahead(c'.states[|c'.states| - 1], m, d + 1, x)
  {
    NodeParts(j.t, j.g, n, kids);
    Shape(j, c);
    Shape(j, c1);
    EndServed(j, a, c1, n, y);
    ReduceGrows(j, c, c1, n, kids);
    NextReduces(j, c1, n);
    RuleServed(j, a, c.states[|c.trees|], m, d, x, rest, n, y);
    c' := Reduced(j, c1, n);
  }

  lemma NothingDriven<V, L(!new), G>(j: Job<V, L, G>, a: Lookahead, c: Config<V, L, G>, m: nat, x: nat)
    requires Going(j, c) && |c.states| == |c.trees| + 1 && a.ahead(c.states[|c.trees|], m, 0, x)
    ensures Driven(j, a, c, [], 0, 0, m, 0, x)
  {
    var none: seq<Tree<V, L>> := [];
    assert c.trees + none == c.trees && c.vals + EvalAll(j.act, none, c.gl).0 == c.vals;
  }

  lemma GrownOn<V, L, G>(j: Job<V, L, G>, c: Config<V, L, G>, c1: Config<V, L, G>, c': Config<V, L, G>,
                         front: seq<Tree<V, L>>, last: Tree<V, L>, all: seq<Tree<V, L>>)
    requires Grown(j, c, c1, front) && Grown(j, c1, c', [last]) && all == front + [last]
    ensures Grown(j, c, c', all)
  {
    One(j, last, c1.gl);
    YieldOneMore(front, last);
    EvalOneMore(j.act, front, last, c.gl);
    Associates(c.trees, front, [last]);
    Associates(c.vals, EvalAll(j.act, front, c.gl).0, [Eval(j.act, last, c1.gl).0]);
  }

  /** One tree more. */
  lemma DrivenOn<V, L(!new), G>(j: Job<V, L, G>, a: Lookahead, c: Config<V, L, G>, front: seq<Tree<V, L>>,
                          last: Tree<V, L>, all: seq<Tree<V, L>>, m: nat, x: nat)
    requires Going(j, c) && Driven(j, a, c, front, TurnsAll(front), TallAll(front), m, |front|, x)
    requires var r := Drive(j, c, TurnsAll(front));
      r.To? ==> Driven(j, a, r.c, [last], Turns(last), Tall(last), m, |front| + 1, x)
    requires all == front + [last]
    ensures Driven(j, a, c, all, TurnsAll(all), TallAll(all), m, |all|, x)
  {
    Measures(front, last, all);
    DrivenTwice(j, a, c, front, last, all, TurnsAll(front), Turns(last), TurnsAll(all), TallAll(front), Tall(last),
      TallAll(all), |front|, |all|, m, x);
  }

  lemma DrivenTwice<V, L(!new), G>(j: Job<V, L, G>, a: Lookahead, c: Config<V, L, G>, front: seq<Tree<V, L>>,
                                   last: Tree<V, L>, all: seq<Tree<V, L>>, k: nat, l: nat, n: nat, high: nat,
                                   more: nat, top: nat, d: nat, d': nat, m: nat, x: nat)
    requires Going(j, c) && Driven(j, a, c, front, k, high, m, d, x)
    requires var r := Drive(j, c, k); r.To? ==> Driven(j, a, r.c, [last], l, more, m, d', x)
    requires all == front + [last] && n == k + l && top == Max(high, |front| + more)
    ensures Driven(j, a, c, all, n, top, m, d', x)
  {
    DriveOn(j, c, k, l, n);
    var r := Drive(j, c, k);
    if r.To? && Drive(j, r.c, l).To? { GrownOn(j, c, r.c, Drive(j, r.c, l).c, front, last, all); }
  }

  lemma Measures<V, L>(front: seq<Tree<V, L>>, last: Tree<V, L>, all: seq<Tree<V, L>>)
    requires all == front + [last]
    ensures TurnsAll(all) == TurnsAll(front) + Turns(last) && |all| == |front| + 1
    ensures TallAll(all) == Max(TallAll(front), |front| + Tall(last))
  {
    assert all[..|all| - 1] == front && all[|all| - 1] == last;
  }

  lemma ComesSplit<V, L, G>(j: Job<V, L, G>, n: nat, v: seq<Token<V, L>>, w: seq<Token<V, L>>)
    ensures Comes(j, n, v + w) <==> Comes(j, n, v) && Comes(j, n + |v|, w)
  {
    var u := v + w;
    if Comes(j, n, u) {
      forall i | 0 <= i < |v| ensures j.lex(n + i) == v[i] { assert u[i] == v[i]; }
      forall i | 0 <= i < |w| ensures j.lex(n + |v| + i) == w[i] {
        assert u[|v| + i] == w[i] && j.lex(n + (|v| + i)) == u[|v| + i];
      }
    }
    if Comes(j, n, v) && Comes(j, n + |v|, w) {
      forall i | 0 <= i < |u| ensures j.lex(n + i) == u[i] {
        if |v| <= i { assert j.lex(n + |v| + (i - |v|)) == w[i - |v|]; }
      }
    }
  }

  /** What may come before a tree: what it begins with. */
  lemma TreeFollows<V, L, G>(j: Job<V, L, G>, a: Lookahead, n: nat, tree: Tree<V, L>, syms: seq<nat>, rest: seq<nat>,
                             x: nat, y: nat) returns (z: nat)
    requires Suited(j, a) && Derives(j.t, j.g, tree) && Comes(j, n, Yield(tree))
    requires syms != [] && syms[0] == Root(j.t, j.g, tree) && rest == syms[1..]
    requires y == Symbol(j, n + |Yield(tree)|) && MayFollow(a, rest, x, y)
    ensures z == Symbol(j, n) && MayFollow(a, syms, x, z)
  {
    z := Symbol(j, n);
    TreeStarts(j.t, j.g, j.items, a, tree);
    FollowsBefore(a, syms, x, z);
    if Yield(tree) != [] { assert j.lex(n + 0) == Yield(tree)[0]; }
  }

  lemma SideSplit<V, L>(t: Tables, g: Grammar, front: seq<Tree<V, L>>, last: Tree<V, L>, syms: seq<nat>)
    requires |front| < |syms| && Roots(t, g, front + [last]) == syms[..|front| + 1]
    ensures Roots(t, g, front) == syms[..|front|] && syms[|front|] == Root(t, g, last)
    ensures syms[|front|..][1..] == syms[|front| + 1..] && syms[|front|..][0] == syms[|front|]
  {
    var k := |front|;
    assert Roots(t, g, front + [last]) == Roots(t, g, front) + [Root(t, g, last)];
    assert syms[..k + 1] == syms[..k] + [syms[k]];
  }

  /** What is known of the last of several trees, and of those before it. */
  lemma SymbolParts<V, L(!new), G>(j: Job<V, L, G>, a: Lookahead, c: Config<V, L, G>, front: seq<Tree<V, L>>,
                             last: Tree<V, L>, m: nat, x: nat, rest: seq<nat>, y: nat)
    requires ReadyAll(j, a, c, front + [last], m, x, rest, y)
    ensures Derives(j.t, j.g, last) && forall k :: k in front ==> Derives(j.t, j.g, k)
    ensures Roots(j.t, j.g, front) == j.g.rhs[m][..|front|] && j.g.rhs[m][|front|] == Root(j.t, j.g, last)
    ensures j.g.rhs[m][|front|..][1..] == rest == j.g.rhs[m][|front| + 1..]
      && j.g.rhs[m][|front|..][0] == j.g.rhs[m][|front|]
  {
    assert |front + [last]| == |front| + 1;
    AllDerive(j.t, j.g, front, last);
    SideSplit(j.t, j.g, front, last, j.g.rhs[m]);
  }

  lemma TokenParts<V, L, G>(j: Job<V, L, G>, n: nat, n': nat, front: seq<Tree<V, L>>, last: Tree<V, L>, y: nat)
    requires Comes(j, n, YieldAll(front + [last]))
    requires y == Symbol(j, n + |YieldAll(front + [last])|) && n' == n + |YieldAll(front)|
    ensures Comes(j, n, YieldAll(front)) && Comes(j, n', Yield(last))
    ensures y == Symbol(j, n' + |Yield(last)|)
  {
    YieldOneMore(front, last);
    TokensApart(j, n, n', YieldAll(front), Yield(last), YieldAll(front + [last]), y);
  }

  lemma TokensApart<V, L, G>(j: Job<V, L, G>, n: nat, n': nat, v: seq<Token<V, L>>, w: seq<Token<V, L>>,
                             u: seq<Token<V, L>>, y: nat)
    requires u == v + w && Comes(j, n, u) && y == Symbol(j, n + |u|) && n' == n + |v|
    ensures Comes(j, n, v) && Comes(j, n', w) && y == Symbol(j, n' + |w|)
  {
    ComesSplit(j, n, v, w);
    assert n + |u| == n' + |w|;
  }

  lemma AllDerive<V, L>(t: Tables, g: Grammar, front: seq<Tree<V, L>>, last: Tree<V, L>)
    requires forall k :: k in front + [last] ==> Derives(t, g, k)
    ensures Derives(t, g, last) && forall k :: k in front ==> Derives(t, g, k)
  {
    assert last in front + [last];
  }

  /** The first symbols of a right hand side, less the last of them. */
  lemma FrontReady<V, L(!new), G>(j: Job<V, L, G>, a: Lookahead, c: Config<V, L, G>, front: seq<Tree<V, L>>,
                            last: Tree<V, L>, m: nat, x: nat, rest: seq<nat>, y: nat) returns (z: nat)
    requires Suited(j, a) && ReadyAll(j, a, c, front + [last], m, x, rest, y)
    ensures |front| <= |j.g.rhs[m]| && ReadyAll(j, a, c, front, m, x, j.g.rhs[m][|front|..], z)
  {
    var n' := c.n + |YieldAll(front)|;
    SymbolParts(j, a, c, front, last, m, x, rest, y);
    TokenParts(j, c.n, n', front, last, y);
    QuietOneMore(j, front, last, c.gl);
    z := TreeFollows(j, a, n', last, j.g.rhs[m][|front|..], rest, x, y);
  }

  lemma LastReady<V, L(!new), G>(j: Job<V, L, G>, a: Lookahead, c: Config<V, L, G>, c1: Config<V, L, G>,
                           front: seq<Tree<V, L>>, last: Tree<V, L>, m: nat, x: nat, rest: seq<nat>, y: nat)
    requires ReadyAll(j, a, c, front + [last], m, x, rest, y) && Going(j, c1) && Grown(j, c, c1, front)
    requires c1.states != [] && a.ahead(c1.states[|c1.states| - 1], m, |front|, x)
    ensures Ready(j, a, c1, last, m, |front|, x, rest, y)
  {
    SymbolParts(j, a, c, front, last, m, x, rest, y);
    TokenParts(j, c.n, c1.n, front, last, y);
    QuietOneMore(j, front, last, c.gl);
  }

  // ----- all turns of a tree

  /** A tree that is ready to be read is read, unless the stacks become full. */
  lemma {:induction false} TreeDriven<V, L(!new), G>(j: Job<V, L, G>, a: Lookahead, c: Config<V, L, G>,
                                                     tree: Tree<V, L>, m: nat, d: nat, x: nat, rest: seq<nat>, y: nat)
    requires Suited(j, a) && Ready(j, a, c, tree, m, d, x, rest, y)
    ensures Driven(j, a, c, [tree], Turns(tree), Tall(tree), m, d + 1, x)
    decreases tree
  {
    match tree
    case Leaf(tok) => LeafDriven(j, a, c, tok, m, d, x, rest, y);
    case Node(n, kids) =>
      NodeReady(j, a, c, n, kids, m, d, x, rest, y);
      TreesDriven(j, a, c, kids, n, y, [], y);
      NodeDriven(j, a, c, n, kids, m, d, x, rest, y);
  }

  lemma NodeDriven<V, L(!new), G>(j: Job<V, L, G>, a: Lookahead, c: Config<V, L, G>, n: nat, kids: seq<Tree<V, L>>,
                                  m: nat, d: nat, x: nat, rest: seq<nat>, y: nat)
    requires Suited(j, a) && Ready(j, a, c, Node(n, kids), m, d, x, rest, y)
    requires Driven(j, a, c, kids, TurnsAll(kids), TallAll(kids), n, |kids|, y)
    ensures Driven(j, a, c, [Node(n, kids)], Turns(Node(n, kids)), Tall(Node(n, kids)), m, d + 1, x)
  {
    if Drive(j, c, TurnsAll(kids)).To? {
      var c1 := DrivenTo(j, a, c, kids, TurnsAll(kids), TallAll(kids), n, |kids|, y);
      var c' := NodeReduced(j, a, c, c1, n, kids, m, d, x, rest, y);
      TurnDriven(j, a, c, c1, c', TurnsAll(kids), Node(n, kids), m, d + 1, x);
    } else {
      FullDriven(j, a, c, kids, n, y, m, d + 1, x);
    }
  }

  lemma DrivenTo<V, L(!new), G>(j: Job<V, L, G>, a: Lookahead, c: Config<V, L, G>, trees: seq<Tree<V, L>>, k: nat,
                                high: nat, m: nat, d: nat, x: nat) returns (c1: Config<V, L, G>)
    requires Going(j, c) && Driven(j, a, c, trees, k, high, m, d, x) && Drive(j, c, k).To?
    ensures Drive(j, c, k) == To(c1) && Going(j, c1) && Grown(j, c, c1, trees) && c1.states != []
    ensures a.ahead(c1.states[|c1.states| - 1], m, d, x)
  {
    c1 := Drive(j, c, k).c;
  }

  /** Stacks that have become full stay so. */
  lemma FullDriven<V, L(!new), G>(j: Job<V, L, G>, a: Lookahead, c: Config<V, L, G>, kids: seq<Tree<V, L>>, n: nat,
                                  y: nat, m: nat, d: nat, x: nat)
    requires Going(j, c) && Driven(j, a, c, kids, TurnsAll(kids), TallAll(kids), n, |kids|, y)
    requires !Drive(j, c, TurnsAll(kids)).To?
    ensures Driven(j, a, c, [Node(n, kids)], Turns(Node(n, kids)), Tall(Node(n, kids)), m, d, x)
  {
    StaysFull(j, c, TurnsAll(kids), Turns(Node(n, kids)));
  }

  lemma StaysFull<V, L(!new), G>(j: Job<V, L, G>, c: Config<V, L, G>, k: nat, k': nat)
    requires Going(j, c) && Drive(j, c, k).Full? && k <= k'
    ensures Drive(j, c, k').Full?
  {
    DriveOn(j, c, k, k' - k, k');
  }

  lemma TurnDriven<V, L(!new), G>(j: Job<V, L, G>, a: Lookahead, c: Config<V, L, G>, c1: Config<V, L, G>,
                            c': Config<V, L, G>, k: nat, tree: Tree<V, L>, m: nat, d: nat, x: nat)
    requires Going(j, c) && Going(j, c1) && Drive(j, c, k) == To(c1) && Next(j, c1) == Landed(c')
      && k + 1 == Turns(tree)
    requires Grown(j, c, c', [tree]) && c'.states != [] && a.ahead(c'.states[|c'.states| - 1], m, d, x)
    ensures Driven(j, a, c, [tree], Turns(tree), Tall(tree), m, d, x)
  {
    TurnMore(j, c, k);
  }

  lemma TurnMore<V, L(!new), G>(j: Job<V, L, G>, c: Config<V, L, G>, k: nat)
    requires Going(j, c)
    ensures var r := Drive(j, c, k); Drive(j, c, k + 1) == if r.To? then Next(j, r.c) else r
  {
    DriveOn(j, c, k, 1, k + 1);
    if Drive(j, c, k).To? { FirstTurn(j, Drive(j, c, k).c, 1); }
  }

  lemma {:induction false} TreesDriven<V, L(!new), G>(j: Job<V, L, G>, a: Lookahead, c: Config<V, L, G>,
                                                trees: seq<Tree<V, L>>, m: nat, x: nat, rest: seq<nat>, y: nat)
    requires Suited(j, a) && ReadyAll(j, a, c, trees, m, x, rest, y)
    ensures Driven(j, a, c, trees, TurnsAll(trees), TallAll(trees), m, |trees|, x)
    decreases trees
  {
    if trees == [] {
      NothingDriven(j, a, c, m, x);
    } else {
      var front, last := trees[..|trees| - 1], trees[|trees| - 1];
      assert trees == front + [last];
      var z := FrontReady(j, a, c, front, last, m, x, rest, y);
      TreesDriven(j, a, c, front, m, x, j.g.rhs[m][|front|..], z);
      if Drive(j, c, TurnsAll(front)).To? {
        var c1 := DrivenTo(j, a, c, front, TurnsAll(front), TallAll(front), m, |front|, x);
        LastReady(j, a, c, c1, front, last, m, x, rest, y);
        TreeDriven(j, a, c1, last, m, |front|, x, rest, y);
      }
      DrivenOn(j, a, c, front, last, trees, m, x);
    }
  }

  // ----- exactly the sentences are accepted

  /** The first `n` tokens are a sentence, an end comes next, and no action raises an error on the way. */
  ghost predicate Accepts<V, L, G>(j: Job<V, L, G>, n: nat, tree: Tree<V, L>, gl: G) {
    IsResult(j, n, tree, gl) && Quiet(j, tree, j.start)
  }

  /** What is accepted is a sentence. */
  lemma AcceptedIsSentence<V, L(!new), G>(j: Job<V, L, G>, k: nat) returns (tree: Tree<V, L>)
    requires TablesOk(j.t, j.g, j.items) && Going(j, Begin(j)) && Drive(j, Begin(j), k).Done?
    ensures var c := Drive(j, Begin(j), k).end;
      0 < c.n && c.trees != [] && tree == c.trees[0] && Accepts(j, c.n - 1, tree, c.gl)
  {
    var c := Drive(j, Begin(j), k).end;
    DriveEnds(j, Begin(j), k);
    tree := EndAccepts(j, c);
  }

  lemma EndAccepts<V, L(!new), G>(j: Job<V, L, G>, c: Config<V, L, G>) returns (tree: Tree<V, L>)
    requires Going(j, c) && Ended(j, c)
    ensures 0 < c.n && c.trees != [] && tree == c.trees[0] && Accepts(j, c.n - 1, tree, c.gl)
  {
    var k := Opened(j, c);
    Shape(j, c);
    FinalIsSentence(j.t, j.g, j.items, j.act, j.lex, j.start, k, c.n, c.gl, c.trees);
    tree := c.trees[0];
    assert c.trees == [] + [tree] + [c.trees[1]];
    QuietOneMore(j, [tree], c.trees[1], j.start);
    QuietOneMore(j, [], tree, j.start);
    assert [] + [tree] == [tree];
  }

  /** A sentence is ready to be read from the start. */
  lemma SentenceReady<V, L(!new), G>(j: Job<V, L, G>, a: Lookahead, n: nat, tree: Tree<V, L>, gl: G)
    requires Suited(j, a) && Going(j, Begin(j)) && Accepts(j, n, tree, gl)
    ensures Ready(j, a, Begin(j), tree, ACCEPT, 0, END, [END], END) && |Yield(tree)| == n
  {
    assert j.g.rhs[ACCEPT][1..] == [END];
    assert a.first(END, END) && StartAt(a, [END], 0, END);
  }

  /** After the sentence comes the end, and the final state. */
  lemma EndShifted<V, L(!new), G>(j: Job<V, L, G>, a: Lookahead, c: Config<V, L, G>) returns (c': Config<V, L, G>)
    requires Suited(j, a) && Going(j, c) && Symbol(j, c.n) == END && |c.states| == |c.trees| + 1 == 2
    requires a.ahead(c.states[1], ACCEPT, 1, END)
    ensures Next(j, c) == To(c') && Going(j, c') && Next(j, c') == Done(c') && c'.trees == c.trees + [Leaf(j.lex(c.n))]
    ensures c'.n == c.n + 1
  {
    var s := TokenServed(j, a, c.states[1], ACCEPT, 1, END);
    assert Served(j.t, j.g, a, s, ACCEPT, 2, END);
    Decides(j, c);
    NextShifts(j, c, s);
    c' := Shifted(j, c, s);
  }

  /** Every sentence is accepted with its own parse tree, unless it is too tall for the stacks. */
  lemma SentenceAccepted<V, L(!new), G>(j: Job<V, L, G>, a: Lookahead, n: nat, tree: Tree<V, L>, gl: G)
    requires Suited(j, a) && Going(j, Begin(j)) && Accepts(j, n, tree, gl)
    ensures var r := Drive(j, Begin(j), Turns(tree) + 2);
      if r.Done? then r.end.n == n + 1 && r.end.trees == [tree, Leaf(j.lex(n))]
      else r.Full? && DEPTH <= 1 + Tall(tree)
  {
    SentenceReady(j, a, n, tree, gl);
    TreeDriven(j, a, Begin(j), tree, ACCEPT, 0, END, [END], END);
    var k := Turns(tree);
    if Drive(j, Begin(j), k).To? {
      var c := DrivenTo(j, a, Begin(j), [tree], k, Tall(tree), ACCEPT, 1, END);
      One(j, tree, j.start);
      var c' := EndShifted(j, a, c);
      TurnMore(j, Begin(j), k);
      TurnMore(j, Begin(j), k + 1);
    } else {
      StaysFull(j, Begin(j), k, k + 2);
    }
  }

  /** The verdict is right: where the parser accepts, the tokens are a sentence, with this parse tree and no other;
      where it reports an error, they are none. */
  lemma VerdictIsRight<V, L(!new), G>(j: Job<V, L, G>, a: Lookahead, k: nat)
    requires Suited(j, a) && Going(j, Begin(j))
    ensures var r := Drive(j, Begin(j), k);
      && (r.Done? ==> 0 < r.end.n && r.end.trees != [] && Accepts(j, r.end.n - 1, r.end.trees[0], r.end.gl))
      && (r.Done? ==> forall n, tree, gl :: Accepts(j, n, tree, gl) ==> n == r.end.n - 1 && tree == r.end.trees[0])
      && (r.NoAction? || r.Raised? ==> forall n, tree, gl :: !Accepts(j, n, tree, gl))
  {
    var r := Drive(j, Begin(j), k);
    if r.Done? { var tree := AcceptedIsSentence(j, k); }
    if !r.To? && !r.Full? {
      forall n, tree, gl | Accepts(j, n, tree, gl)
        ensures r.Done? && n == r.end.n - 1 && tree == r.end.trees[0]
      {
        SentenceAccepted(j, a, n, tree, gl);
        OneOutcome(j, Begin(j), k, Turns(tree) + 2);
      }
    }
  }

  /** There is no more than one outcome, however many turns are allowed. */
  lemma OneOutcome<V, L(!new), G>(j: Job<V, L, G>, c: Config<V, L, G>, k: nat, l: nat)
    requires Going(j, c) && !Drive(j, c, k).To? && !Drive(j, c, l).To?
    ensures Drive(j, c, k) == Drive(j, c, l)
  {
    if k <= l { DriveOn(j, c, k, l - k, l); } else { DriveOn(j, c, l, k - l, k); }
  }

  // ----- an example

  function SmallLookahead(): Lookahead {
    Lookahead(x => false, (x, y) => y == if x == 5 then 3 else x,
      (s, m, d, x) => x == END && ((s, m, d) == (0, ACCEPT, 0) || (s, m, d) == (0, 2, 0) || (s, m, d) == (1, 2, 1)
        || (s, m, d) == (2, ACCEPT, 1) || (s, m, d) == (3, ACCEPT, 2)))
  }

  /** There are complete tables. */
  lemma SmallTablesComplete()
    ensures TablesOk(SmallTables(), SmallGrammar(), SmallItems())
    ensures Complete(SmallTables(), SmallGrammar(), SmallLookahead())
  {
    SmallTablesOk();
    var t, g, a := SmallTables(), SmallGrammar(), SmallLookahead();
    forall n: nat, y: nat ensures RuleStarts(g, a, n, y) {
      assert g.rhs[2] == [3] && !a.nullable(g.rhs[2][0]);
      if MayStart(a, g.rhs[2], y) { var i: nat :| StartAt(a, g.rhs[2], i, y); }
    }
    forall s: nat, m: nat, d: nat, x: nat | a.ahead(s, m, d, x) ensures Served(t, g, a, s, m, d, x) {}
  }
}
