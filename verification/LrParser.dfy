/** The parser of help documents (`yyparse`): shifts and reductions on three stacks that grow together. */
module LrParser {
  import opened LrTables
  import M = LrMachine
  import DocGrammar

  /** `YYSTYPE`; a document node is known by its address. */
  type Value = DocGrammar.Value<nat>

  const YYINITDEPTH := 200
  const YYMAXDEPTH := M.DEPTH

  datatype Option<T> = None | Some(value: T)

  /** How a run ends: an error comes from the tables or is raised by an action. `OutOfSteps` is no outcome of the
      parser: it says that the run goes on. */
  datatype Outcome = Accepted | SyntaxError | Raised | Exhausted | OutOfSteps

  /** What the outcome says of the turns that the tables ask for. */
  predicate Says<V, L, G>(r: Outcome, d: M.Turn<V, L, G>) {
    match r
    case Accepted => d.Done?
    case SyntaxError => d.NoAction?
    case Raised => d.Raised?
    case Exhausted => d.Full?
    case OutOfSteps => d.To?
  }

  /** The tables have no entry for symbol `x` in state `s`, and no default. */
  predicate NoEntry(t: Tables, s: nat, x: nat) {
    && s < |t.pact| == |t.defact| && |t.check| == |t.table| && t.defact[s] == 0
    && (t.pact[s] == t.pactNinf
        || var i := t.pact[s] + x; i < 0 || |t.check| <= i || t.check[i] != x)
  }

  /** `YYLTYPE` */
  datatype Location = Location(firstLine: int, firstColumn: int, lastLine: int, lastColumn: int)

  /** `YYLLOC_DEFAULT`: from the first to the last symbol of a right hand side, or behind what is before an empty
      one. */
  function Across(first: Location, last: Location): Location {
    Location(first.firstLine, first.firstColumn, last.lastLine, last.lastColumn)
  }

  function Behind(last: Location): Location { Location(last.lastLine, last.lastColumn, last.lastLine, last.lastColumn) }

  /** What is known of a stack after it was moved to a larger place. */
  method Relocated<T(0)>(a: array<T>, used: nat, size: nat) returns (b: array<T>)
    requires used <= a.Length && used <= size
    ensures fresh(b) && b.Length == size && b[..used] == a[..used]
  {
    b := new T[size];
    var i := 0;
    while i < used
      invariant 0 <= i <= used && b[..i] == a[..i]
    {
      b[i] := a[i];
      i := i + 1;
    }
  }

  lemma AboveFirst<T>(a: seq<T>, b: seq<T>, a1: seq<T>, b1: seq<T>)
    requires a == b && 1 <= |a| && a1 == a[1..] && b1 == b[1..]
    ensures a1 == b1
  {}

  /** The lower part of a stack whose lowest element is not used. */
  lemma Fronts<T>(a: seq<T>, k: seq<T>, h: nat)
    requires h <= |k| < |a| && k == a[1..|k| + 1]
    ensures a[1..h + 1] == k[..h]
  {}

  lemma Topped<T>(a: seq<T>, a': seq<T>, h: nat, x: T, k: seq<T>)
    requires h + 1 < |a| && a' == a[h + 1 := x] && k == a[1..h + 1]
    ensures a'[1..h + 2] == k + [x]
  {}

  class Parser<G> {
    const t: Tables
    /** The semantic actions, when they raise an error instead (`YYERROR`), and the scanner: its tokens, the end again
        and again after the last. */
    const act: Action<Value, G>
    const fails: (nat, seq<Value>, G) -> bool
    const lex: nat -> Token<Value, Location>

    /** The stacks, with their pointers; the lowest value and the lowest location are never used. */
    var yyss: array<nat>
    var yyvs: array<Value>
    var yyls: array<Location>
    var yyssp: nat
    var yyvsp: nat
    var yylsp: nat
    var yystacksize: nat

    /** The token looked at, unless `yychar` is empty, and the number of tokens that the scanner was asked for. */
    var yychar: Option<Token<Value, Location>>
    var read: nat

    /** What the actions change beside the values: `topnode`, `method_type`, and all nodes. */
    var globals: G

    ghost const job: Job<Value, Location, G>

    /** The trees of the symbols on the stack, and the number of tokens shifted. */
    ghost var trees: seq<Tree<Value, Location>>
    ghost var n: nat

    /** The stacks are equally large and equally high, and have room for one element more. */
    ghost predicate StacksOk()
      reads this
    {
      && yyss.Length == yyvs.Length == yyls.Length == yystacksize && yyssp == yyvsp == yylsp
      && yyssp + 1 < yystacksize <= YYMAXDEPTH
    }

    ghost function Contents(): Stacks<Value, Location>
      requires StacksOk()
      reads this, yyss, yyvs, yyls
    {
      Stacks(yyss[..yyssp + 1], yyvs[1..yyvsp + 1], yyls[1..yylsp + 1])
    }

    /** The parser as a configuration of the machine that the tables make. */
    ghost function Now(): M.Config<Value, Location, G>
      requires StacksOk()
      reads this, yyss, yyvs, yyls
    {
      M.Config(Contents().states, Contents().vals, trees, globals, n)
    }

    ghost predicate Valid()
      reads this, yyss, yyvs, yyls
    {
      && StacksOk() && job.t == t && job.act == act && job.lex == lex && job.fails == fails && M.Going(job, Now())
      && (yychar.None? ==> read == n) && (yychar.Some? ==> read == n + 1 && yychar.value == lex(n))
    }

    constructor (t: Tables, act: Action<Value, G>, fails: (nat, seq<Value>, G) -> bool,
                 lex: nat -> Token<Value, Location>, globals: G, ghost g: Grammar, ghost items: Items)
      requires TablesOk(t, g, items)
      ensures Valid() && fresh(yyss) && fresh(yyvs) && fresh(yyls) && n == 0 && this.globals == globals
      ensures job == Job(t, g, items, act, fails, lex, globals) && Now() == M.Begin(job)
    {
      this.t, this.act, this.fails, this.lex, this.globals := t, act, fails, lex, globals;
      job := Job(t, g, items, act, fails, lex, globals);
      yystacksize := YYINITDEPTH;
      yyss := new nat[YYINITDEPTH];
      yyvs := new Value[YYINITDEPTH];
      yyls := new Location[YYINITDEPTH](_ => Location(0, 0, 0, 0));
      yyssp, yyvsp, yylsp := 0, 0, 0;
      yychar, read := None, 0;
      trees, n := [], 0;
      new;
      yyss[0] := 0;
      assert Contents() == Stacks([0], [], []);
      M.Begins(job);
    }

    /** The stacks are moved to a place twice as large, if there may be one; what is on them stays. */
    method Grow() returns (ok: bool)
      requires yyss.Length == yyvs.Length == yyls.Length == yystacksize && yyssp == yyvsp == yylsp
        && yyssp + 1 == yystacksize <= YYMAXDEPTH
      modifies `yyss, `yyvs, `yyls, `yyssp, `yyvsp, `yylsp, `yystacksize
      ensures yyssp == yyvsp == yylsp == old(yyssp)
      ensures ok <==> old(yystacksize) < YYMAXDEPTH
      ensures !ok ==> yyss == old(yyss) && yyvs == old(yyvs) && yyls == old(yyls) && yystacksize == old(yystacksize)
      ensures ok ==> yystacksize == if 2 * old(yystacksize) <= YYMAXDEPTH then 2 * old(yystacksize) else YYMAXDEPTH
      ensures ok ==> StacksOk() && fresh(yyss) && fresh(yyvs) && fresh(yyls)
      ensures ok ==> yyss[..yyssp + 1] == old(yyss[..yyssp + 1])
      ensures ok ==> yyvs[..yyvsp + 1] == old(yyvs[..yyvsp + 1]) && yyls[..yylsp + 1] == old(yyls[..yylsp + 1])
    {
      var used := yyssp + 1;
      if YYMAXDEPTH <= yystacksize { return false; }
      yystacksize := yystacksize * 2;
      if YYMAXDEPTH < yystacksize { yystacksize := YYMAXDEPTH; }
      yyss := Relocated(yyss, used, yystacksize);
      yyvs := Relocated(yyvs, used, yystacksize);
      yyls := Relocated(yyls, used, yystacksize);
      yyssp, yyvsp, yylsp := used - 1, used - 1, used - 1;
      return true;
    }

    /** The arrays are the same as before, or new. */
    twostate predicate Kept()
      reads this
    {
      && (yyss == old(yyss) || fresh(yyss)) && (yyvs == old(yyvs) || fresh(yyvs)) && (yyls == old(yyls) || fresh(yyls))
    }

    /** `yynewstate`: value and location have been pushed, and a state evens the stacks. */
    method EnterState(s: nat, ghost k: Stacks<Value, Location>) returns (ok: bool)
      requires yyss.Length == yyvs.Length == yyls.Length == yystacksize <= YYMAXDEPTH
        && yyssp + 1 == yyvsp == yylsp < yystacksize
      requires k == Stacks(yyss[..yyssp + 1], yyvs[1..yyvsp + 1], yyls[1..yylsp + 1])
      modifies `yyss, `yyvs, `yyls, `yyssp, `yyvsp, `yylsp, `yystacksize, yyss
      ensures Kept() && (ok ==> StacksOk() && Contents() == Stacks(k.states + [s], k.vals, k.locs))
      ensures !ok ==> YYMAXDEPTH <= old(yyssp) + 2
    {
      yyssp := yyssp + 1;
      yyss[yyssp] := s;
      assert yyss[..yyssp + 1] == k.states + [s];
      if yystacksize - 1 <= yyssp {
        ghost var vs, ls := yyvs[..yyvsp + 1], yyls[..yylsp + 1];
        ok := Grow();
        if ok {
          AboveFirst(vs, yyvs[..yyvsp + 1], k.vals, yyvs[1..yyvsp + 1]);
          AboveFirst(ls, yyls[..yylsp + 1], k.locs, yyls[1..yylsp + 1]);
        }
      } else {
        ok := true;
      }
    }

    /** The lookahead token is shifted. */
    method ShiftToken(tok: Token<Value, Location>, s: nat) returns (ok: bool)
      requires StacksOk()
      modifies `yyss, `yyvs, `yyls, `yyssp, `yyvsp, `yylsp, `yystacksize, `yychar, yyss, yyvs, yyls
      ensures Kept() && yychar == None && (ok ==>
        StacksOk() && Contents() == Pushed(old(Contents()), s, tok.val, tok.loc))
      ensures !ok ==> YYMAXDEPTH <= old(yyssp) + 2
    {
      ghost var k := Contents();
      yychar := None;
      yyvsp := yyvsp + 1;
      yyvs[yyvsp] := tok.val;
      yylsp := yylsp + 1;
      yyls[yylsp] := tok.loc;
      assert yyvs[1..yyvsp + 1] == k.vals + [tok.val] && yyls[1..yylsp + 1] == k.locs + [tok.loc];
      ok := EnterState(s, Stacks(k.states, k.vals + [tok.val], k.locs + [tok.loc]));
    }

    /** `YYPOPSTACK`, and a value and a location pushed. */
    method Replace(yylen: nat, val: Value, loc: Location, ghost k: Stacks<Value, Location>, ghost h: nat)
      requires StacksOk() && k == Contents() && h + yylen == yyssp
      modifies `yyssp, `yyvsp, `yylsp, yyvs, yyls
      ensures yyssp == h && yyvsp == h + 1 && yylsp == h + 1 && yyss[..h + 1] == k.states[..h + 1]
      ensures yyvs[1..yyvsp + 1] == k.vals[..h] + [val] && yyls[1..yylsp + 1] == k.locs[..h] + [loc]
    {
      assert yyss[..h + 1] == k.states[..h + 1];
      Fronts(yyvs[..], k.vals, h);
      Fronts(yyls[..], k.locs, h);
      yyvsp, yyssp, yylsp := yyvsp - yylen, yyssp - yylen, yylsp - yylen;
      yyvsp := yyvsp + 1;
      yyvs[yyvsp] := val;
      yylsp := yylsp + 1;
      yyls[yylsp] := loc;
      Topped(old(yyvs[..]), yyvs[..], h, val, k.vals[..h]);
      Topped(old(yyls[..]), yyls[..], h, loc, k.locs[..h]);
    }

    /** `yyreduce`: the action runs on the values of the right hand side, and its value takes their place. */
    method ReduceRule(m: nat, ghost k: Stacks<Value, Location>, ghost h: nat, ghost s: nat)
        returns (ok: bool, ghost l: Location)
      requires StacksOk() && job.t == t && k == Contents() && Reduces(job, k, m, h, s)
      modifies `yyss, `yyvs, `yyls, `yyssp, `yyvsp, `yylsp, `yystacksize, `globals, yyss, yyvs, yyls
      ensures Kept() && globals == act(m, k.vals[h..], old(globals)).1
      ensures ok ==> StacksOk()
      ensures ok ==> Contents() == Pushed(Popped(k, h), s, act(m, k.vals[h..], old(globals)).0, l)
      ensures !ok ==> YYMAXDEPTH <= h + 2
    {
      var yylen := t.r2[m];
      assert yyvs[yyvsp + 1 - yylen..yyvsp + 1] == k.vals[h..];
      var (yyval, gl) := act(m, yyvs[yyvsp + 1 - yylen..yyvsp + 1], globals);
      globals := gl;
      var yyloc := if yylen > 0 then Across(yyls[yylsp + 1 - yylen], yyls[yylsp]) else Behind(yyls[yylsp]);
      l := yyloc;
      Replace(yylen, yyval, yyloc, k, h);
      assert yyss[yyssp] == yyss[..yyssp + 1][h] == k.states[h];
      ok := EnterState(GotoOf(t, yyss[yyssp], t.r1[m]),
        Stacks(k.states[..h + 1], k.vals[..h] + [yyval], k.locs[..h] + [yyloc]));
    }

    ghost function Top(): nat
      requires StacksOk()
      reads this, yyss
    {
      yyss[yyssp]
    }

    /** `yybackup`: what is to be done, without a lookahead token where the state does not need one. */
    method Decide() returns (d: Decision)
      requires Valid() && Top() != t.final
      modifies `yychar, `read
      ensures Valid() && Now() == old(Now()) && (d.Shift? ==> yychar.Some?)
      ensures Acts(job, Top())
      ensures d == M.Decided(t, Top(), SymbolOf(t, lex(n).code))
      ensures d.Error? ==> NoEntry(t, Top(), SymbolOf(t, lex(n).code))
      ensures d.Shift? ==> MayShift(job, Top(), lex(n), d.state)
      ensures d.Reduce? ==> MayReduce(job, Top(), d.rule)
    {
      var state := yyss[yyssp];
      TopDecides();
      if t.pact[state] == t.pactNinf { return ByDefault(t, state); }
      if yychar == None {
        yychar := Some(lex(read));
        read := read + 1;
      }
      d := ByToken(t, state, SymbolOf(t, yychar.value.code));
    }

    lemma TopDecides()
      requires Valid() && Top() != t.final
      ensures Acts(job, Top())
      ensures match M.Decided(t, Top(), SymbolOf(t, lex(n).code))
        case Error => true
        case Shift(s) => MayShift(job, Top(), lex(n), s)
        case Reduce(m) => MayReduce(job, Top(), m)
    {
      M.Shape(job, Now());
      M.Decides(job, Now());
    }

    /** The lookahead token is shifted; `ok` is false when the stacks cannot grow any more. */
    method ActShift(s: int) returns (ok: bool)
      requires Valid() && yychar.Some? && MayShift(job, Top(), lex(n), s)
        && M.Decided(t, Top(), SymbolOf(t, lex(n).code)) == Shift(s)
      modifies this, yyss, yyvs, yyls
      ensures Kept() && (ok ==> Valid() && M.Next(job, old(Now())) == M.To(Now()))
      ensures !ok ==> M.Next(job, old(Now())) == M.Full
    {
      ghost var c := Now();
      var tok := yychar.value;
      ghost var c' := ShiftLands(s);
      ok := ShiftToken(tok, s);
      trees, n := c'.trees, c'.n;
      assert ok ==> Now() == c';
    }

    lemma ShiftLands(s: int) returns (c': M.Config<Value, Location, G>)
      requires Valid() && MayShift(job, Top(), lex(n), s)
        && M.Decided(t, Top(), SymbolOf(t, lex(n).code)) == Shift(s)
      ensures 0 <= s && c' == M.Shifted(job, Now(), s) && M.Going(job, c') && |c'.states| == yyssp + 2
      ensures M.Next(job, Now()) == M.Landed(c')
    {
      M.Shape(job, Now());
      M.CanShift(job, Now(), s);
      M.NextShifts(job, Now(), s);
      c' := M.Shifted(job, Now(), s);
    }

    /** Whether the action of a rule raises an error on the values on the stack. */
    method Raises(m: int) returns (b: bool)
      requires Valid() && MayReduce(job, Top(), m)
      ensures M.Reducible(job, Now(), m) && 0 <= m && b == fails(m, Now().vals[M.Height(job, Now(), m)..], globals)
    {
      M.Shape(job, Now());
      M.CanReduce(job, Now(), m);
      assert yyvs[yyvsp + 1 - t.r2[m]..yyvsp + 1] == Contents().vals[M.Height(job, Now(), m)..];
      b := fails(m, yyvs[yyvsp + 1 - t.r2[m]..yyvsp + 1], globals);
    }

    /** A rule is reduced. */
    method ActReduce(m: int) returns (ok: bool)
      requires Valid() && MayReduce(job, Top(), m) && M.Reducible(job, Now(), m)
      requires Acts(job, Top()) && M.Decided(t, Top(), SymbolOf(t, lex(n).code)) == Reduce(m)
      requires !fails(m, Now().vals[M.Height(job, Now(), m)..], globals)
      modifies this, yyss, yyvs, yyls
      ensures Kept() && (ok ==> Valid() && M.Next(job, old(Now())) == M.To(Now()))
      ensures !ok ==> M.Next(job, old(Now())) == M.Full
    {
      ghost var h, s, c' := ReduceLands(m);
      ok := ReduceTo(m, h, s, c');
    }

    /** The same, to a known configuration. */
    method ReduceTo(m: nat, ghost h: nat, ghost s: nat, ghost c': M.Config<Value, Location, G>) returns (ok: bool)
      requires Valid() && Reduces(job, Contents(), m, h, s) && M.Going(job, c')
      requires c'.states == Contents().states[..h + 1] + [s] && c'.n == n
        && (c'.vals, c'.gl) == (Contents().vals[..h] + [act(m, Contents().vals[h..], globals).0],
          act(m, Contents().vals[h..], globals).1)
      modifies this, yyss, yyvs, yyls
      ensures Kept() && (ok ==> Valid() && Now() == c' && |c'.states| < YYMAXDEPTH)
      ensures !ok ==> YYMAXDEPTH <= |c'.states|
    {
      ghost var k := Contents();
      ghost var l;
      ok, l := ReduceRule(m, k, h, s);
      trees := c'.trees;
      assert ok ==> Now() == c';
    }

    lemma ReduceLands(m: int) returns (h: nat, s: nat, c': M.Config<Value, Location, G>)
      requires Valid() && MayReduce(job, Top(), m) && M.Reducible(job, Now(), m)
      requires Acts(job, Top()) && M.Decided(t, Top(), SymbolOf(t, lex(n).code)) == Reduce(m)
      requires !fails(m, Now().vals[M.Height(job, Now(), m)..], globals)
      ensures 0 <= m && Reduces(job, Contents(), m, h, s) && M.Going(job, c') && M.Next(job, Now()) == M.Landed(c')
      ensures c'.states == Contents().states[..h + 1] + [s] && c'.n == n
        && (c'.vals, c'.gl) == (Contents().vals[..h] + [act(m, Contents().vals[h..], globals).0],
          act(m, Contents().vals[h..], globals).1)
    {
      M.Shape(job, Now());
      M.CanReduce(job, Now(), m);
      M.NextReduces(job, Now(), m);
      h := M.Height(job, Now(), m);
      s := GotoOf(t, Now().states[h], t.r1[m]);
      c' := M.Reduced(job, Now(), m);
    }

    /** One turn of the automaton, or how the run ends. */
    method Step() returns (ended: bool, r: Outcome)
      requires Valid() && Top() != t.final
      modifies this, yyss, yyvs, yyls
      ensures Kept() && (!ended ==> Valid() && M.Next(job, old(Now())) == M.To(Now()))
      ensures ended ==> Says(r, M.Next(job, old(Now()))) && (r.SyntaxError? || r.Raised? || r.Exhausted?)
      ensures ended && !r.Exhausted? ==> Valid()
      ensures ended && r.SyntaxError? ==> NoEntry(t, Top(), SymbolOf(t, lex(n).code))
    {
      ghost var c := Now();
      M.Shape(job, c);
      var d := Decide();
      if d == Error {
        M.NextFails(job, c);
        return true, SyntaxError;
      }
      var ok;
      if d.Shift? {
        ok := ActShift(d.state);
      } else {
        var raised := Raises(d.rule);
        if raised {
          M.NextRaises(job, c, d.rule);
          return true, Raised;
        }
        ok := ActReduce(d.rule);
      }
      return !ok, Exhausted;
    }

    lemma FirstOf(left: nat, d: M.Turn<Value, Location, G>)
      requires Valid() && 0 < left && M.Drive(job, Now(), left) == d
      ensures Top() == t.final ==> d == M.Done(Now()) && M.Ended(job, Now())
      ensures var r := M.Next(job, Now()); d == if r.To? then M.Drive(job, r.c, left - 1) else r
    {
      M.Shape(job, Now());
      M.FirstTurn(job, Now(), left);
    }

    /** The next turn, unless the final state has been entered. */
    method Turn(left: nat, ghost d: M.Turn<Value, Location, G>)
        returns (ended: bool, r: Outcome)
      requires Valid() && 0 < left && M.Drive(job, Now(), left) == d
      modifies this, yyss, yyvs, yyls
      ensures Kept() && (!ended ==> Valid() && M.Drive(job, Now(), left - 1) == d)
      ensures ended ==> Says(r, d) && (!r.Exhausted? ==> Valid())
      ensures ended && r.Accepted? ==> M.Ended(job, Now())
      ensures ended && r.SyntaxError? ==> NoEntry(t, Top(), SymbolOf(t, lex(n).code))
    {
      FirstOf(left, d);
      if yyss[yyssp] == t.final { return true, Accepted; }
      ended, r := Step();
    }

    /** Turn after turn, until the run ends. */
    method Turns(steps: nat, ghost d: M.Turn<Value, Location, G>) returns (r: Outcome)
      requires Valid() && M.Drive(job, Now(), steps) == d
      modifies this, yyss, yyvs, yyls
      ensures Kept() && Says(r, d)
      ensures !r.Exhausted? ==> Valid()
      ensures r.Accepted? ==> M.Ended(job, Now())
      ensures r.SyntaxError? ==> NoEntry(t, Top(), SymbolOf(t, lex(n).code))
    {
      var left := steps;
      while left > 0
        invariant Kept()
        invariant Valid() && M.Drive(job, Now(), left) == d
      {
        var ended;
        ended, r := Turn(left, d);
        if ended { return; }
        left := left - 1;
      }
      return OutOfSteps;
    }

    /** `yyparse`, for any number of steps: it does what the tables ask for. When it accepts, the tokens up to an end
        are a sentence of the grammar, and the actions have run over its parse tree from the leaves up and from left to
        right; a syntax error means that the tables have no entry for the next token. */
    method Parse(steps: nat) returns (r: Outcome, ghost tree: Tree<Value, Location>)
      requires Valid()
      modifies this, yyss, yyvs, yyls
      ensures Kept()
      ensures Says(r, M.Drive(job, old(Now()), steps))
      ensures r.Accepted? ==> 0 < n && M.Accepts(job, n - 1, tree, globals)
      ensures !r.Exhausted? ==> Valid()
      ensures r.SyntaxError? ==> NoEntry(t, Top(), SymbolOf(t, lex(n).code))
    {
      tree := Node(0, []);
      r := Turns(steps, M.Drive(job, Now(), steps));
      if r.Accepted? { tree := M.EndAccepts(job, Now()); }
    }
  }
}
