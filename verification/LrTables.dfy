/** Tables of the parser generator, the grammar they are made for, and what a run of the parser keeps. */
module LrTables {

  /** A token as the scanner returns it: its code, its value and its location. */
  datatype Token<V, L> = Token(code: int, val: V, loc: L)

  /** `yypact`, `yydefact`, `yypgoto`, `yydefgoto`, `yytable`, `yycheck`, `yyr1`, `yyr2` and `yytranslate`, the number
      of terminal symbols, the final state, and the mark of states that act without looking ahead. */
  datatype Tables = Tables(
    pact: seq<int>, defact: seq<nat>, pgoto: seq<int>, defgoto: seq<int>, table: seq<int>, check: seq<int>,
    r1: seq<nat>, r2: seq<nat>, translate: seq<nat>, ntokens: nat, final: nat, pactNinf: int)

  /** Terminal symbol 0 is the end of the input, 2 stands for codes that are no tokens. */
  const END := 0
  const UNDEF := 2

  /** A grammar: left and right hand sides of the rules, by number. Rule 1 is the start symbol followed by the end. */
  datatype Grammar = Grammar(lhs: seq<nat>, rhs: seq<seq<nat>>)

  const ACCEPT := 1

  /** The symbol of a token (`YYTRANSLATE`, with everything up to 0 taken for the end). */
  function SymbolOf(t: Tables, code: int): nat {
    if code <= 0 then END else if code < |t.translate| then t.translate[code] else UNDEF
  }

  // ----- what the tables say

  datatype Decision = Shift(state: int) | Reduce(rule: int) | Error

  function ByDefault(t: Tables, s: nat): Decision
    requires s < |t.defact|
  {
    if t.defact[s] == 0 then Error else Reduce(t.defact[s])
  }

  function ByToken(t: Tables, s: nat, x: nat): Decision
    requires s < |t.pact| == |t.defact| && |t.check| == |t.table|
  {
    var i := t.pact[s] + x;
    if i < 0 || |t.table| <= i || t.check[i] != x then ByDefault(t, s)
    else if 0 < t.table[i] then Shift(t.table[i])
    else Reduce(-t.table[i])
  }

  function GotoOf(t: Tables, s: nat, x: nat): int
    requires |t.check| == |t.table| && |t.pgoto| == |t.defgoto| && t.ntokens <= x < t.ntokens + |t.pgoto|
  {
    var i := t.pgoto[x - t.ntokens] + s;
    if 0 <= i < |t.table| && t.check[i] == s then t.table[i] else t.defgoto[x - t.ntokens]
  }

  // ----- when tables belong to a grammar

  /** Whether a dotted rule belongs to a state. */
  type Items = (int, int, int) -> bool

  ghost predicate Advances(g: Grammar, items: Items, p: int, x: nat, s: int) {
    && s != 0
    && forall m: nat, d: nat {:trigger items(s, m, d)} :: items(s, m, d) && 0 < d ==>
      m < |g.rhs| && d <= |g.rhs[m]| && g.rhs[m][d - 1] == x && items(p, m, d - 1)
  }

  ghost predicate DecisionOk(t: Tables, g: Grammar, items: Items, s: nat, x: nat, d: Decision) {
    match d
    case Error => true
    case Shift(s') => 0 <= s' < |t.pact| && Advances(g, items, s, x, s')
    case Reduce(n) => ACCEPT < n < |g.rhs| && items(s, n, |g.rhs[n]|)
  }

  ghost predicate StateOk(t: Tables, g: Grammar, items: Items, s: nat, x: nat)
    requires |t.pact| == |t.defact| && |t.check| == |t.table|
  {
    s < |t.pact| && s != t.final && x < t.ntokens ==>
      && DecisionOk(t, g, items, s, x, ByDefault(t, s)) && DecisionOk(t, g, items, s, x, ByToken(t, s, x))
  }

  ghost predicate GotoOk(t: Tables, g: Grammar, items: Items, s: nat, n: nat)
    requires |t.check| == |t.table| && |t.pgoto| == |t.defgoto|
  {
    s < |t.pact| && ACCEPT < n < |g.lhs| && items(s, n, 0) ==>
      && t.ntokens <= g.lhs[n] < t.ntokens + |t.pgoto|
      && 0 <= GotoOf(t, s, g.lhs[n]) < |t.pact| && Advances(g, items, s, g.lhs[n], GotoOf(t, s, g.lhs[n]))
  }

  /** The tables fit together, and each state has dotted rules so that a shift or a goto moves the dot over the symbol,
      a reduction has the dot at the end of its rule, and the start state has no dot past a symbol. */
  ghost predicate TablesOk(t: Tables, g: Grammar, items: Items) {
    && |t.pact| == |t.defact| && |t.check| == |t.table| && |t.pgoto| == |t.defgoto| && 2 < t.ntokens
    && 0 < t.final < |t.pact|
    && |g.lhs| == |g.rhs| && t.r1 == g.lhs && (forall n :: ACCEPT < n < |g.lhs| ==> t.ntokens <= g.lhs[n])
    && |t.r2| == |g.rhs| && (forall n :: 0 <= n < |g.rhs| ==> t.r2[n] == |g.rhs[n]|)
    && (forall c :: 0 <= c < |t.translate| ==> t.translate[c] < t.ntokens)
    && (forall s: nat, x: nat {:trigger StateOk(t, g, items, s, x)} :: StateOk(t, g, items, s, x))
    && (forall s: nat, n: nat {:trigger GotoOk(t, g, items, s, n)} :: GotoOk(t, g, items, s, n))
    && (forall m: nat, d: nat {:trigger items(0, m, d)} :: items(0, m, d) ==> d == 0)
    && (forall s: int {:trigger items(s, ACCEPT, 0)} :: items(s, ACCEPT, 0) ==> s == 0)
    && ACCEPT < |g.rhs| && |g.rhs[ACCEPT]| == 2 && g.rhs[ACCEPT][1] == END && items(t.final, ACCEPT, 2)
  }

  // ----- parse trees

  datatype Tree<V, L> = Leaf(tok: Token<V, L>) | Node(rule: nat, kids: seq<Tree<V, L>>)

  function Root<V, L>(t: Tables, g: Grammar, tree: Tree<V, L>): nat {
    match tree
    case Leaf(tok) => SymbolOf(t, tok.code)
    case Node(n, _) => if n < |g.lhs| then g.lhs[n] else 0
  }

  function Roots<V, L>(t: Tables, g: Grammar, trees: seq<Tree<V, L>>): (r: seq<nat>)
    ensures |r| == |trees|
  {
    seq(|trees|, i requires 0 <= i < |trees| => Root(t, g, trees[i]))
  }

  /** Every inner node follows a rule of the grammar. */
  ghost predicate Derives<V, L>(t: Tables, g: Grammar, tree: Tree<V, L>) {
    match tree
    case Leaf(_) => true
    case Node(n, kids) => ACCEPT < n < |g.lhs| == |g.rhs| && Roots(t, g, kids) == g.rhs[n] && forall k :: k in kids ==>
      Derives(t, g, k)
  }

  /** The tokens of a tree, and of several trees, in order. */
  function Yield<V, L>(tree: Tree<V, L>): seq<Token<V, L>> {
    match tree
    case Leaf(tok) => [tok]
    case Node(_, kids) => YieldAll(kids)
  }

  function YieldAll<V, L>(trees: seq<Tree<V, L>>): seq<Token<V, L>> {
    if trees == [] then [] else YieldAll(trees[..|trees| - 1]) + Yield(trees[|trees| - 1])
  }

  lemma YieldOneMore<V, L>(a: seq<Tree<V, L>>, x: Tree<V, L>)
    ensures YieldAll(a + [x]) == YieldAll(a) + Yield(x)
  {
    assert (a + [x])[..|a + [x]| - 1] == a && (a + [x])[|a + [x]| - 1] == x;
  }

  lemma Associates<T>(a: seq<T>, b: seq<T>, c: seq<T>)
    ensures (a + b) + c == a + (b + c)
  {}

  lemma {:induction false} YieldConcat<V, L>(a: seq<Tree<V, L>>, b: seq<Tree<V, L>>)
    ensures YieldAll(a + b) == YieldAll(a) + YieldAll(b)
    decreases |b|
  {
    if b == [] {
      assert a + b == a;
    } else {
      var c, x := b[..|b| - 1], b[|b| - 1];
      YieldConcat(a, c);
      assert (a + b)[..|a + b| - 1] == a + c && (a + b)[|a + b| - 1] == x;
      Associates(YieldAll(a), YieldAll(c), Yield(x));
    }
  }

  // ----- semantic actions

  /** What the actions make of a rule: the value of the left hand side from those of the right, and the global
      variables. */
  type Action<!V, !G> = (nat, seq<V>, G) -> (V, G)

  /** The value of a tree: actions run from the leaves up and from left to right, passing the global variables on. */
  function Eval<V, L, G>(act: Action<V, G>, tree: Tree<V, L>, gl: G): (V, G) {
    match tree
    case Leaf(tok) => (tok.val, gl)
    case Node(n, kids) => var (vs, gl') := EvalAll(act, kids, gl); act(n, vs, gl')
  }

  function EvalAll<V, L, G>(act: Action<V, G>, trees: seq<Tree<V, L>>, gl: G): (r: (seq<V>, G))
    ensures |r.0| == |trees|
  {
    if trees == [] then ([], gl)
    else
      var (vs, g1) := EvalAll(act, trees[..|trees| - 1], gl);
      var (v, g2) := Eval(act, trees[|trees| - 1], g1);
      (vs + [v], g2)
  }

  lemma EvalOneMore<V, L, G>(act: Action<V, G>, a: seq<Tree<V, L>>, x: Tree<V, L>, gl: G)
    ensures var u := EvalAll(act, a, gl);
      var w := Eval(act, x, u.1);
      EvalAll(act, a + [x], gl) == (u.0 + [w.0], w.1)
  {
    assert (a + [x])[..|a + [x]| - 1] == a && (a + [x])[|a + [x]| - 1] == x;
  }

  lemma EvalOne<V, L, G>(act: Action<V, G>, x: Tree<V, L>, gl: G)
    ensures EvalAll(act, [x], gl) == ([Eval(act, x, gl).0], Eval(act, x, gl).1)
  {
    EvalOneMore(act, [], x, gl);
    var none: seq<Tree<V, L>> := [];
    assert none + [x] == [x] && EvalAll(act, none, gl) == ([], gl);
    assert EvalAll(act, none, gl).0 + [Eval(act, x, gl).0] == [Eval(act, x, gl).0];
  }

  lemma {:induction false} EvalConcat<V, L, G>(act: Action<V, G>, a: seq<Tree<V, L>>, b: seq<Tree<V, L>>, gl: G)
    ensures var u := EvalAll(act, a, gl);
      var w := EvalAll(act, b, u.1);
      EvalAll(act, a + b, gl) == (u.0 + w.0, w.1)
    decreases |b|
  {
    var u := EvalAll(act, a, gl);
    if b == [] {
      assert a + b == a && u.0 + [] == u.0;
    } else {
      var c, x := b[..|b| - 1], b[|b| - 1];
      EvalConcat(act, a, c, gl);
      var w := EvalAll(act, c, u.1);
      assert (u.0 + w.0) + [Eval(act, x, w.1).0] == u.0 + (w.0 + [Eval(act, x, w.1).0]);
      assert b == c + [x] && a + b == (a + c) + [x];
      EvalOneMore(act, a + c, x, gl);
      EvalOneMore(act, c, x, EvalAll(act, a, gl).1);
    }
  }

  // ----- what a run keeps

  /** The stacks of the parser: states, and above the first of them a value and a location for each symbol. */
  datatype Stacks<V, L> = Stacks(states: seq<nat>, vals: seq<V>, locs: seq<L>)

  ghost predicate LinkOk<V, L>(t: Tables, g: Grammar, items: Items, states: seq<nat>, trees: seq<Tree<V, L>>, i: nat)
    requires |states| == |trees| + 1
  {
    i < |trees| ==> states[i + 1] < |t.pact| && Advances(g, items, states[i], Root(t, g, trees[i]),
      states[i + 1]) && Derives(t, g, trees[i])
  }

  /** Each symbol on the stack has a tree, and leads from the state below it to the state on it. */
  ghost predicate Linked<V, L>(t: Tables, g: Grammar, items: Items, states: seq<nat>, trees: seq<Tree<V, L>>) {
    && |states| == |trees| + 1 && states[0] == 0 < |t.pact|
    && forall i: nat {:trigger LinkOk(t, g, items, states, trees, i)} :: LinkOk(t, g, items, states, trees, i)
  }

  /** The tokens that have been shifted: the first `n` that the scanner returns. */
  function Taken<V, L>(lex: nat -> Token<V, L>, n: nat): (r: seq<Token<V, L>>)
    ensures |r| == n
  {
    seq(n, i requires 0 <= i < n => lex(i))
  }

  /** The stacks after `n` tokens have been shifted: trees of these tokens, their values, and the global variables as
      the actions have left them. */
  ghost predicate RunOk<V, L, G>(t: Tables, g: Grammar, items: Items, act: Action<V, G>, lex: nat -> Token<V, L>,
                                 gl0: G,
                                 k: Stacks<V, L>, n: nat, gl: G, trees: seq<Tree<V, L>>) {
    && Linked(t, g, items, k.states, trees) && |k.vals| == |k.locs| == |trees|
    && YieldAll(trees) == Taken(lex, n) && EvalAll(act, trees, gl0) == (k.vals, gl)
  }

  /** A run of a parser with the right tables. */
  ghost predicate InRun<V, L, G>(t: Tables, g: Grammar, items: Items, act: Action<V, G>, lex: nat -> Token<V, L>,
                                 gl0: G,
                                 k: Stacks<V, L>, n: nat, gl: G, trees: seq<Tree<V, L>>) {
    TablesOk(t, g, items) && RunOk(t, g, items, act, lex, gl0, k, n, gl, trees)
  }

  // ----- walking down the stack

  lemma StartItems(t: Tables, g: Grammar, items: Items, m: nat, d: nat)
    requires TablesOk(t, g, items) && items(0, m, d)
    ensures d == 0
  {}

  /** A dotted rule of the top state has its symbols on top of the stack, and begins in the state below them. */
  lemma {:induction false} WalkBack<V, L>(t: Tables, g: Grammar, items: Items, states: seq<nat>, trees: seq<Tree<V, L>>,
                                          h: nat, m: nat, d: nat)
    requires TablesOk(t, g, items) && Linked(t, g, items, states, trees) && h <= |trees| && items(states[h], m, d)
    ensures d <= h && items(states[h - d], m, 0) && (0 < d ==> m < |g.rhs| && d <= |g.rhs[m]|)
    ensures forall i {:trigger Root(t, g, trees[i])} :: h - d <= i < h ==> Root(t, g, trees[i]) == g.rhs[m][i - (h - d)]
    decreases h
  {
    if d > 0 {
      if h == 0 {
        StartItems(t, g, items, m, d);
      } else {
        var l := h - 1;
        assert LinkOk(t, g, items, states, trees, l);
        WalkBack(t, g, items, states, trees, l, m, d - 1);
      }
    }
  }

  /** The right hand side of a rule with the dot at its end is what the top of the stack spells. */
  lemma HandleOnTop<V, L>(t: Tables, g: Grammar, items: Items, states: seq<nat>, trees: seq<Tree<V, L>>, n: nat)
    requires TablesOk(t, g, items) && Linked(t, g, items, states, trees) && n < |g.rhs|
      && items(states[|trees|], n, |g.rhs[n]|)
    ensures |g.rhs[n]| <= |trees| && items(states[|trees| - |g.rhs[n]|], n, 0)
    ensures Roots(t, g, trees[|trees| - |g.rhs[n]|..]) == g.rhs[n]
  {
    WalkBack(t, g, items, states, trees, |trees|, n, |g.rhs[n]|);
  }

  lemma StartIsBelow<V, L>(t: Tables, g: Grammar, items: Items, states: seq<nat>, trees: seq<Tree<V, L>>, h: nat)
    requires Linked(t, g, items, states, trees) && h <= |trees|
    ensures states[h] == 0 ==> h == 0
  {
    if h > 0 {
      var l := h - 1;
      assert LinkOk(t, g, items, states, trees, l);
    }
  }

  // ----- a shift, a reduction, and the end

  lemma LinkedPush<V, L>(t: Tables, g: Grammar, items: Items, states: seq<nat>, trees: seq<Tree<V, L>>, s: nat,
                         tree: Tree<V, L>)
    requires Linked(t, g, items, states, trees) && s < |t.pact| && Derives(t, g, tree)
    requires Advances(g, items, states[|trees|], Root(t, g, tree), s)
    ensures Linked(t, g, items, states + [s], trees + [tree])
  {
    var states', trees' := states + [s], trees + [tree];
    forall i: nat ensures LinkOk(t, g, items, states', trees', i) {
      if i < |trees| { assert LinkOk(t, g, items, states, trees, i); }
    }
  }

  lemma LinkedPop<V, L>(t: Tables, g: Grammar, items: Items, states: seq<nat>, trees: seq<Tree<V, L>>, h: nat)
    requires Linked(t, g, items, states, trees) && h <= |trees|
    ensures Linked(t, g, items, states[..h + 1], trees[..h])
    ensures forall x :: x in trees ==> Derives(t, g, x)
  {
    var states', trees' := states[..h + 1], trees[..h];
    forall i: nat ensures LinkOk(t, g, items, states', trees', i) {
      if i < h { assert LinkOk(t, g, items, states, trees, i); }
    }
    forall i: nat | i < |trees| ensures Derives(t, g, trees[i]) { assert LinkOk(t, g, items, states, trees, i); }
  }

  function Pushed<V, L>(k: Stacks<V, L>, s: nat, v: V, l: L): Stacks<V, L> {
    Stacks(k.states + [s], k.vals + [v], k.locs + [l])
  }

  lemma ShiftKeeps<V, L, G>(t: Tables, g: Grammar, items: Items, act: Action<V, G>, lex: nat -> Token<V, L>, gl0: G,
                            k: Stacks<V, L>, n: nat, gl: G, trees: seq<Tree<V, L>>, tok: Token<V, L>, s: int)
    requires InRun(t, g, items, act, lex, gl0, k, n, gl, trees) && k.states[|trees|] != t.final
    requires tok == lex(n) && SymbolOf(t, tok.code) < t.ntokens && k.states[|trees|] < |t.pact|
    requires ByToken(t, k.states[|trees|], SymbolOf(t, tok.code)) == Shift(s)
    ensures 0 <= s && InRun(t, g, items, act, lex, gl0, Pushed(k, s, tok.val, tok.loc), n + 1, gl, trees + [Leaf(tok)])
  {
    var top, x := k.states[|trees|], SymbolOf(t, tok.code);
    assert StateOk(t, g, items, top, x);
    LinkedPush(t, g, items, k.states, trees, s, Leaf(tok));
    YieldOneMore(trees, Leaf(tok));
    assert Taken(lex, n + 1) == Taken(lex, n) + [tok];
    EvalOneMore(act, trees, Leaf(tok), gl0);
  }

  lemma TopIsState<V, L>(t: Tables, g: Grammar, items: Items, states: seq<nat>, trees: seq<Tree<V, L>>, h: nat)
    requires Linked(t, g, items, states, trees) && h <= |trees|
    ensures states[h] < |t.pact|
  {
    if h > 0 {
      var l := h - 1;
      assert LinkOk(t, g, items, states, trees, l);
    }
  }

  function Popped<V, L>(k: Stacks<V, L>, h: nat): Stacks<V, L>
    requires h < |k.states| && h <= |k.vals| && h <= |k.locs|
  {
    Stacks(k.states[..h + 1], k.vals[..h], k.locs[..h])
  }

  /** The trees of a right hand side become the children of a new tree. */
  lemma NodeDerives<V, L>(t: Tables, g: Grammar, items: Items, states: seq<nat>, trees: seq<Tree<V, L>>, m: nat)
    requires TablesOk(t, g, items) && Linked(t, g, items, states, trees) && ACCEPT < m < |g.rhs|
      && items(states[|trees|], m, |g.rhs[m]|)
    ensures |g.rhs[m]| <= |trees| && items(states[|trees| - |g.rhs[m]|], m, 0)
    ensures Derives(t, g, Node(m, trees[|trees| - |g.rhs[m]|..]))
  {
    HandleOnTop(t, g, items, states, trees, m);
    var h := |trees| - |g.rhs[m]|;
    LinkedPop(t, g, items, states, trees, h);
    forall x | x in trees[h..] ensures Derives(t, g, x) { assert x in trees; }
  }

  lemma GotoKeeps<V, L>(t: Tables, g: Grammar, items: Items, states: seq<nat>, trees: seq<Tree<V, L>>, m: nat, h: nat,
                        s: int)
    requires TablesOk(t, g, items) && Linked(t, g, items, states, trees) && ACCEPT < m < |g.rhs|
      && items(states[|trees|], m, |g.rhs[m]|)
    requires h == |trees| - |g.rhs[m]| && t.ntokens <= g.lhs[m] < t.ntokens + |t.pgoto|
      && s == GotoOf(t, states[h], g.lhs[m])
    ensures 0 <= s && Linked(t, g, items, states[..h + 1] + [s], trees[..h] + [Node(m, trees[h..])])
  {
    NodeDerives(t, g, items, states, trees, m);
    TopIsState(t, g, items, states, trees, h);
    LinkedPop(t, g, items, states, trees, h);
    assert GotoOk(t, g, items, states[h], m);
    LinkedPush(t, g, items, states[..h + 1], trees[..h], s, Node(m, trees[h..]));
  }

  lemma SplitAt<T>(x: seq<T>, y: seq<T>, z: seq<T>)
    requires z == x + y
    ensures |z| == |x| + |y| && z[..|x|] == x && z[|x|..] == y
  {}

  lemma ValuesCount<V, L, G>(act: Action<V, G>, trees: seq<Tree<V, L>>, gl0: G, vals: seq<V>, gl: G)
    requires EvalAll(act, trees, gl0) == (vals, gl)
    ensures |vals| == |trees|
  {}

  lemma ValuesReduce<V, L, G>(act: Action<V, G>, a: seq<Tree<V, L>>, b: seq<Tree<V, L>>, gl0: G, vals: seq<V>, gl: G,
                              m: nat)
    requires EvalAll(act, a + b, gl0) == (vals, gl)
    requires |vals| == |a| + |b|
    ensures var r := act(m, vals[|a|..], gl); EvalAll(act, a + [Node(m, b)], gl0) == (vals[..|a|] + [r.0], r.1)
  {
    var g1 := ValuesSplit(act, a, b, gl0, vals, gl);
    EvalOneMore(act, a, Node(m, b), gl0);
    EvalNode(act, m, b, g1);
  }

  /** The values of the trees, and of those behind them, with the global variables in between. */
  lemma ValuesSplit<V, L, G>(act: Action<V, G>, a: seq<Tree<V, L>>, b: seq<Tree<V, L>>, gl0: G, vals: seq<V>, gl: G)
      returns (g1: G)
    requires EvalAll(act, a + b, gl0) == (vals, gl) && |vals| == |a| + |b|
    ensures EvalAll(act, a, gl0) == (vals[..|a|], g1) && EvalAll(act, b, g1) == (vals[|a|..], gl)
  {
    EvalConcat(act, a, b, gl0);
    g1 := EvalAll(act, a, gl0).1;
    SplitAt(EvalAll(act, a, gl0).0, EvalAll(act, b, g1).0, vals);
  }

  lemma EvalNode<V, L, G>(act: Action<V, G>, m: nat, kids: seq<Tree<V, L>>, gl: G)
    ensures var u := EvalAll(act, kids, gl); Eval(act, Node(m, kids), gl) == act(m, u.0, u.1)
  {}

  lemma YieldReduce<V, L>(trees: seq<Tree<V, L>>, m: nat, h: nat)
    requires h <= |trees|
    ensures YieldAll(trees[..h] + [Node(m, trees[h..])]) == YieldAll(trees)
  {
    assert trees == trees[..h] + trees[h..];
    YieldConcat(trees[..h], trees[h..]);
    YieldOneMore(trees[..h], Node(m, trees[h..]));
  }

  lemma ReduceKeeps<V, L, G>(t: Tables, g: Grammar, items: Items, act: Action<V, G>, lex: nat -> Token<V, L>, gl0: G,
                             k: Stacks<V, L>, n: nat, gl: G, trees: seq<Tree<V, L>>, m: nat, h: nat, s: int, l: L)
    requires InRun(t, g, items, act, lex, gl0, k, n, gl, trees) && k.states[|trees|] != t.final
    requires ACCEPT < m < |g.rhs| && items(k.states[|trees|], m, |g.rhs[m]|)
    requires h == |trees| - |g.rhs[m]| && t.ntokens <= g.lhs[m] < t.ntokens + |t.pgoto|
      && s == GotoOf(t, k.states[h], g.lhs[m])
    ensures 0 <= s
    ensures var (v, gl') := act(m, k.vals[h..], gl);
      InRun(t, g, items, act, lex, gl0, Pushed(Popped(k, h), s, v, l), n, gl', trees[..h] + [Node(m, trees[h..])])
  {
    GotoKeeps(t, g, items, k.states, trees, m, h, s);
    assert trees == trees[..h] + trees[h..];
    ValuesCount(act, trees, gl0, k.vals, gl);
    ValuesReduce(act, trees[..h], trees[h..], gl0, k.vals, gl, m);
    YieldReduce(trees, m, h);
  }

  /** A sentence: what the start symbol derives. */
  ghost predicate IsSentence<V, L>(t: Tables, g: Grammar, tree: Tree<V, L>, w: seq<Token<V, L>>)
    requires ACCEPT < |g.rhs| && |g.rhs[ACCEPT]| == 2
  {
    Derives(t, g, tree) && Root(t, g, tree) == g.rhs[ACCEPT][0] && Yield(tree) == w
  }

  /** In the final state all tokens but the last, which is the end, have been recognized as a sentence, and
      evaluated. */
  lemma FinalIsSentence<V, L, G>(t: Tables, g: Grammar, items: Items, act: Action<V, G>, lex: nat -> Token<V, L>,
                                 gl0: G,
                                 k: Stacks<V, L>, n: nat, gl: G, trees: seq<Tree<V, L>>)
    requires InRun(t, g, items, act, lex, gl0, k, n, gl, trees) && k.states[|trees|] == t.final
    ensures |trees| == 2 && 0 < n && SymbolOf(t, lex(n - 1).code) == END
    ensures IsSentence(t, g, trees[0], Taken(lex, n - 1)) && Eval(act, trees[0], gl0).1 == gl
  {
    HandleOnTop(t, g, items, k.states, trees, ACCEPT);
    var h := |trees| - 2;
    StartIsBelow(t, g, items, k.states, trees, h);
    LinkedPop(t, g, items, k.states, trees, h);
    var a, b := trees[0], trees[1];
    assert trees == [a] + [b] && a in trees && b in trees;
    assert Root(t, g, a) == Roots(t, g, trees[h..])[0] && Root(t, g, b) == Roots(t, g, trees[h..])[1];
    YieldOneMore([a], b);
    YieldOneMore([], a);
    EvalOneMore(act, [a], b, gl0);
    EvalOneMore(act, [], a, gl0);
    NodeRoot(t, g, items, b);
    LastTaken(lex, Yield(a), b.tok, n);
  }

  lemma NodeRoot<V, L>(t: Tables, g: Grammar, items: Items, tree: Tree<V, L>)
    requires TablesOk(t, g, items) && Derives(t, g, tree) && Root(t, g, tree) == END
    ensures tree.Leaf?
  {}

  lemma LastTaken<V, L>(lex: nat -> Token<V, L>, w: seq<Token<V, L>>, tok: Token<V, L>, n: nat)
    requires w + [tok] == Taken(lex, n)
    ensures 0 < n && tok == lex(n - 1) && w == Taken(lex, n - 1)
  {
    assert tok == (w + [tok])[|w|];
    assert w == (w + [tok])[..|w|];
  }

  lemma SymbolIsTerminal(t: Tables, g: Grammar, items: Items, code: int)
    requires TablesOk(t, g, items)
    ensures SymbolOf(t, code) < t.ntokens
  {}

  lemma GotoFits<V, L>(t: Tables, g: Grammar, items: Items, states: seq<nat>, trees: seq<Tree<V, L>>, m: nat)
    requires TablesOk(t, g, items) && Linked(t, g, items, states, trees) && ACCEPT < m < |g.rhs|
      && items(states[|trees|], m, |g.rhs[m]|)
    ensures |g.rhs[m]| <= |trees| && t.ntokens <= g.lhs[m] < t.ntokens + |t.pgoto|
    ensures 0 <= GotoOf(t, states[|trees| - |g.rhs[m]|], g.lhs[m])
  {
    NodeDerives(t, g, items, states, trees, m);
    var h := |trees| - |g.rhs[m]|;
    TopIsState(t, g, items, states, trees, h);
    assert GotoOk(t, g, items, states[h], m);
  }

  // ----- the same for a parser that has been set up

  /** What a parser is set up with; `fails` tells when an action raises an error (`YYERROR`). */
  datatype Job<!V, !L, !G> = Job(t: Tables, g: Grammar, items: Items, act: Action<V, G>,
    fails: (nat, seq<V>, G) -> bool, lex: nat -> Token<V, L>, start: G)

  ghost predicate Runs<V, L, G>(j: Job<V, L, G>, k: Stacks<V, L>, n: nat, gl: G, trees: seq<Tree<V, L>>) {
    InRun(j.t, j.g, j.items, j.act, j.lex, j.start, k, n, gl, trees)
  }

  /** What is to be done in the top state: a shift of a token, or a reduction. */
  ghost predicate MayShift<V, L, G>(j: Job<V, L, G>, top: nat, tok: Token<V, L>, s: int) {
    && top < |j.t.pact| == |j.t.defact| && |j.t.check| == |j.t.table| && SymbolOf(j.t, tok.code) < j.t.ntokens
    && top != j.t.final && ByToken(j.t, top, SymbolOf(j.t, tok.code)) == Shift(s)
  }

  ghost predicate MayReduce<V, L, G>(j: Job<V, L, G>, top: nat, m: int) {
    top != j.t.final && ACCEPT < m < |j.g.rhs| && j.items(top, m, |j.g.rhs[m]|)
  }

  lemma ShiftRuns<V, L, G>(j: Job<V, L, G>, k: Stacks<V, L>, n: nat, gl: G, trees: seq<Tree<V, L>>, tok: Token<V, L>,
                           s: int)
    requires Runs(j, k, n, gl, trees) && |k.states| > 0 && MayShift(j, k.states[|k.states| - 1], tok, s)
      && tok == j.lex(n)
    ensures 0 <= s && Runs(j, Pushed(k, s, tok.val, tok.loc), n + 1, gl, trees + [Leaf(tok)])
  {
    ShiftKeeps(j.t, j.g, j.items, j.act, j.lex, j.start, k, n, gl, trees, tok, s);
  }

  /** Whether rule `m` can be reduced on the stacks, above height `h`, leading to state `s`. */
  ghost predicate Reduces<V, L, G>(j: Job<V, L, G>, k: Stacks<V, L>, m: int, h: int, s: int) {
    && ACCEPT < m < |j.g.rhs| == |j.g.lhs| && j.t.r1 == j.g.lhs && |j.t.r2| == |j.g.rhs| && j.t.r2[m] == |j.g.rhs[m]|
    && 0 <= h < |k.states| == |k.vals| + 1 == |k.locs| + 1 && h == |k.vals| - j.t.r2[m]
    && |j.t.check| == |j.t.table| && |j.t.pgoto| == |j.t.defgoto|
    && j.t.ntokens <= j.t.r1[m] < j.t.ntokens + |j.t.pgoto|
    && s == GotoOf(j.t, k.states[h], j.t.r1[m])
  }

  lemma ReduceRuns<V, L, G>(j: Job<V, L, G>, k: Stacks<V, L>, n: nat, gl: G, trees: seq<Tree<V, L>>, m: int)
      returns (h: nat, s: nat)
    requires Runs(j, k, n, gl, trees) && |k.states| > 0 && MayReduce(j, k.states[|k.states| - 1], m)
    ensures h <= |trees| && Reduces(j, k, m, h, s)
    ensures forall l: L :: Runs(j, Pushed(Popped(k, h), s, j.act(m, k.vals[h..], gl).0, l), n,
      j.act(m, k.vals[h..], gl).1,
      trees[..h] + [Node(m, trees[h..])])
  {
    GotoFits(j.t, j.g, j.items, k.states, trees, m);
    h := |trees| - |j.g.rhs[m]|;
    s := GotoOf(j.t, k.states[h], j.g.lhs[m]);
    forall l: L ensures Runs(j, Pushed(Popped(k, h), s, j.act(m, k.vals[h..], gl).0, l), n, j.act(m, k.vals[h..], gl).1,
      trees[..h] + [Node(m, trees[h..])])
    {
      ReduceKeeps(j.t, j.g, j.items, j.act, j.lex, j.start, k, n, gl, trees, m, h, s, l);
    }
  }

  lemma RunBegins<V, L, G>(j: Job<V, L, G>)
    requires TablesOk(j.t, j.g, j.items)
    ensures Runs(j, Stacks([0], [], []), 0, j.start, [])
  {}

  /** The top state can be looked up. */
  ghost predicate Acts<V, L, G>(j: Job<V, L, G>, top: nat) {
    TablesOk(j.t, j.g, j.items) && top < |j.t.pact| == |j.t.defact| && |j.t.check| == |j.t.table| && top != j.t.final
  }

  lemma TopActs<V, L, G>(j: Job<V, L, G>, k: Stacks<V, L>, n: nat, gl: G, trees: seq<Tree<V, L>>)
    requires Runs(j, k, n, gl, trees) && |k.states| > 0 && k.states[|k.states| - 1] != j.t.final
    ensures Acts(j, k.states[|k.states| - 1])
  {
    TopIsState(j.t, j.g, j.items, k.states, trees, |trees|);
  }

  lemma DefaultIs<V, L, G>(j: Job<V, L, G>, top: nat)
    requires Acts(j, top)
    ensures var d := ByDefault(j.t, top); !d.Shift? && (d.Reduce? ==> MayReduce(j, top, d.rule))
  {
    var x := END;
    assert StateOk(j.t, j.g, j.items, top, x);
  }

  lemma TokenIs<V, L, G>(j: Job<V, L, G>, top: nat, tok: Token<V, L>)
    requires Acts(j, top)
    ensures var d := ByToken(j.t, top, SymbolOf(j.t, tok.code));
      (d.Shift? ==> MayShift(j, top, tok, d.state)) && (d.Reduce? ==> MayReduce(j, top, d.rule))
  {
    SymbolIsTerminal(j.t, j.g, j.items, tok.code);
    assert StateOk(j.t, j.g, j.items, top, SymbolOf(j.t, tok.code));
  }

  /** The first `n` tokens are a sentence, an end comes next, and `gl` is what the actions make of the parse tree. An
      end may stand inside the sentence as well, where the grammar allows it. */
  ghost predicate IsResult<V, L, G>(j: Job<V, L, G>, n: nat, tree: Tree<V, L>, gl: G) {
    && ACCEPT < |j.g.rhs| && |j.g.rhs[ACCEPT]| == 2 && IsSentence(j.t, j.g, tree, Taken(j.lex, n))
    && SymbolOf(j.t, j.lex(n).code) == END && gl == Eval(j.act, tree, j.start).1
  }

  // ----- an example

  /** The grammar with the one sentence of one token, number 3, and its tables. */
  function SmallGrammar(): Grammar { Grammar([0, 4, 5], [[], [5, END], [3]]) }

  function SmallTables(): Tables {
    Tables([0, -9, 1, -9], [0, 2, 0, 1], [-9, -9], [-1, 2], [0, 3, 0, 1], [-1, 0, -1, 3], [0, 4, 5], [0, 2, 1], [0, 3],
      4, 3, -9)
  }

  function SmallItems(): Items {
    (s, n, d) => (s == 0 && d == 0 && (n == 1 || n == 2)) || (s == 1 && n == 2 && d == 1)
      || (s == 2 && n == 1 && d == 1)
      || (s == 3 && n == 1 && d == 2)
  }

  /** There are tables that belong to a grammar. */
  lemma SmallTablesOk()
    ensures TablesOk(SmallTables(), SmallGrammar(), SmallItems())
  {
    var t, g, items := SmallTables(), SmallGrammar(), SmallItems();
    forall s: nat, x: nat ensures StateOk(t, g, items, s, x) {}
    forall s: nat, n: nat ensures GotoOk(t, g, items, s, n) {}
  }
}
