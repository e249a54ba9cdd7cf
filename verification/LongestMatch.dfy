/** Tokens of a text by longest match, for any tables of the scanner generator. */
module LongestMatch {

  /** The compressed tables (`yy_ec`, `yy_accept`, `yy_base`, `yy_chk`, `yy_def`, `yy_nxt`, `yy_meta`). States are
      counted from 1, and from `templates` on they are templates, which accept nothing and have no entry in `accept`.
      `jam` is the state without continuation, `eob` is the state after the end-of-buffer character and `endAct` its
      action. `rank` bounds the length of the chains of defaults. */
  datatype Tables = Tables(
    ec: seq<nat>, accept: seq<nat>, base: seq<nat>, chk: seq<nat>, def: seq<nat>, nxt: seq<nat>, meta: seq<nat>,
    jam: nat, templates: nat, eob: nat, endAct: nat, rank: seq<nat>)

  const EOB: char := 0 as char

  /** The lookups stay within the tables and every chain of defaults ends. */
  ghost predicate TablesOk(t: Tables) {
    && |t.ec| == 256 && |t.accept| <= |t.base| == |t.def| == |t.rank| && |t.chk| == |t.nxt|
    && (forall i :: 0 <= i < 256 ==> t.ec[i] < |t.meta|)
    && (forall c :: 0 <= c < |t.meta| ==> t.meta[c] < |t.meta|)
    && (forall s: nat, c: nat {:trigger LookupOk(t, s, c)} ::
      0 < s < |t.base| && c < |t.meta| ==> LookupOk(t, s, c))
  }

  ghost predicate LookupOk(t: Tables, s: nat, c: nat)
    requires |t.base| == |t.def| == |t.rank| && |t.chk| == |t.nxt| && s < |t.base|
  {
    && t.base[s] + c < |t.chk|
    && if t.chk[t.base[s] + c] == s then 0 < t.nxt[t.base[s] + c] < |t.accept|
       else 0 < t.def[s] < |t.base| && t.rank[t.def[s]] < t.rank[s]
  }

  /** The transition on a character class: along the defaults until an entry belongs to the state. */
  function Chase(t: Tables, s: nat, c: nat): (s': nat)
    requires TablesOk(t) && 0 < s < |t.base| && c < |t.meta|
    ensures 0 < s' < |t.accept|
    decreases t.rank[s]
  {
    assert LookupOk(t, s, c);
    if t.chk[t.base[s] + c] == s then t.nxt[t.base[s] + c]
    else Chase(t, t.def[s], if t.def[s] >= t.templates then t.meta[c] else c)
  }

  /** State `s` and class `c` have an entry of their own. */
  predicate Owns(t: Tables, s: nat, c: nat) {
    s < |t.base| && t.base[s] + c < |t.chk| == |t.nxt| && t.chk[t.base[s] + c] == s
  }

  /** A state, its default, the default's default and so on, up to the first that has an entry; for a template the class
      is replaced by its meta class. */
  ghost predicate IsChain(t: Tables, s: nat, c: nat, states: seq<nat>, classes: seq<nat>) {
    && |states| == |classes| > 0 && states[0] == s && classes[0] == c && |t.def| == |t.base|
    && (forall i :: 0 <= i < |states| ==> states[i] < |t.base| && classes[i] < |t.meta|)
    && (forall i :: 0 <= i < |states| ==> (Owns(t, states[i], classes[i]) <==> i == |states| - 1))
    && (forall i, j :: 0 <= i && j == i + 1 && j < |states| ==>
      && states[j] == t.def[states[i]]
      && classes[j] == if states[j] >= t.templates then t.meta[classes[i]] else classes[i])
  }

  /** The transition is the entry at the end of the chain of defaults. */
  lemma {:induction false} ChaseIsEntry(t: Tables, s: nat, c: nat) returns (states: seq<nat>, classes: seq<nat>)
    requires TablesOk(t) && 0 < s < |t.base| && c < |t.meta|
    ensures IsChain(t, s, c, states, classes)
    ensures Chase(t, s, c) == t.nxt[t.base[states[|states| - 1]] + classes[|states| - 1]]
    decreases t.rank[s]
  {
    assert LookupOk(t, s, c);
    states, classes := [s], [c];
    if !Owns(t, s, c) {
      var d := t.def[s];
      var c' := if d >= t.templates then t.meta[c] else c;
      var ss, cs := ChaseIsEntry(t, d, c');
      states, classes := [s] + ss, [c] + cs;
      ChainLonger(t, s, c, d, c', ss, cs);
    }
  }

  lemma ChainLonger(t: Tables, s: nat, c: nat, d: nat, c': nat, ss: seq<nat>, cs: seq<nat>)
    requires IsChain(t, d, c', ss, cs) && s < |t.base| && c < |t.meta| && !Owns(t, s, c) && d == t.def[s]
    requires c' == if d >= t.templates then t.meta[c] else c
    ensures IsChain(t, s, c, [s] + ss, [c] + cs)
  {
    var states, classes := [s] + ss, [c] + cs;
    forall i | 0 < i < |states| ensures states[i] == ss[i - 1] && classes[i] == cs[i - 1] {}
  }

  predicate IsByte(c: char) { c as int < 256 }

  // ----- the automaton that the tables stand for

  datatype Automaton = Automaton(step: (nat, char) -> nat, accept: nat -> nat, jam: nat, eob: nat, endAct: nat)

  /** What the actions do to the scanner: the start state of a mode (`yy_start`), and the mode after an action. */
  datatype Rules = Rules(startOf: nat -> nat, after: (nat, nat, string) -> nat)

  ghost predicate Agrees(t: Tables, a: Automaton) {
    && TablesOk(t) && a.jam == t.jam < |t.accept| && a.eob == t.eob && a.endAct == t.endAct
    && (forall s: nat, c: char {:trigger StepAgrees(t, a, s, c)} :: 0 < s < |t.accept| && IsByte(c) ==>
      StepAgrees(t, a, s, c))
    && (forall s: nat {:trigger AcceptAgrees(t, a, s)} :: s < |t.accept| ==> AcceptAgrees(t, a, s))
  }

  ghost predicate StepAgrees(t: Tables, a: Automaton, s: nat, c: char)
    requires TablesOk(t) && 0 < s < |t.accept| && IsByte(c)
  {
    a.step(s, c) == Chase(t, s, t.ec[c as int])
  }

  ghost predicate AcceptAgrees(t: Tables, a: Automaton, s: nat)
    requires s < |t.accept|
  {
    a.accept(s) == t.accept[s]
  }

  predicate Proper(a: Automaton, s: nat) { 0 < s < a.jam && s != a.eob }

  predicate Ordinary(c: char) { c != EOB && IsByte(c) }

  /** How the generator lays the automaton out: the end-of-buffer character leads every proper state to `eob` and from
      there to `jam`; nothing else leads to `eob`; and every ordinary character begins a token. */
  ghost predicate AutomatonOk(a: Automaton, r: Rules) {
    && 0 < a.eob < a.jam && a.accept(a.jam) == 0 && a.accept(a.eob) == a.endAct != 0 && a.step(a.eob, EOB) == a.jam
    && (forall s: nat {:trigger StateOk(a, s)} :: StateOk(a, s))
    && (forall s: nat, c: char {:trigger StepOk(a, s, c)} :: StepOk(a, s, c))
    && (forall m: nat, c: char {:trigger StartOk(a, r, m, c)} :: StartOk(a, r, m, c))
  }

  ghost predicate StateOk(a: Automaton, s: nat) {
    Proper(a, s) ==> a.step(s, EOB) == a.eob && a.accept(s) != a.endAct
  }

  ghost predicate StepOk(a: Automaton, s: nat, c: char) {
    Proper(a, s) && Ordinary(c) ==> Proper(a, a.step(s, c)) || a.step(s, c) == a.jam
  }

  ghost predicate StartOk(a: Automaton, r: Rules, m: nat, c: char) {
    Proper(a, r.startOf(m)) && (Ordinary(c) ==> a.accept(a.step(r.startOf(m), c)) != 0)
  }

  ghost predicate AllOrdinary(w: string) { forall i :: 0 <= i < |w| ==> Ordinary(w[i]) }

  /** The state after reading `w`; nothing is read once the automaton has jammed. */
  function Run(a: Automaton, s: nat, w: string): nat {
    if w == "" then s
    else
      var p := Run(a, s, w[..|w| - 1]);
      if p == a.jam then p else a.step(p, w[|w| - 1])
  }

  function Accepts(a: Automaton, s: nat, w: string): nat { a.accept(Run(a, s, w)) }

  lemma {:induction false} RunProper(a: Automaton, r: Rules, s: nat, w: string)
    requires AutomatonOk(a, r) && Proper(a, s) && AllOrdinary(w)
    ensures Proper(a, Run(a, s, w)) || Run(a, s, w) == a.jam
  {
    if w != "" {
      RunProper(a, r, s, w[..|w| - 1]);
      assert StepOk(a, Run(a, s, w[..|w| - 1]), w[|w| - 1]);
    }
  }

  lemma {:induction false} JamStays(a: Automaton, s: nat, w: string, m: nat, k: nat)
    requires m <= k <= |w| && Run(a, s, w[..m]) == a.jam
    ensures Run(a, s, w[..k]) == a.jam
    decreases k
  {
    if m < k {
      JamStays(a, s, w, m, k - 1);
      assert w[..k][..k - 1] == w[..k - 1];
    }
  }

  /** `n` is the length of the longest prefix of `w` that is a token. */
  ghost predicate IsLongest(a: Automaton, s: nat, w: string, n: nat) {
    && 1 <= n <= |w| && Accepts(a, s, w[..n]) != 0
    && forall k :: n < k <= |w| ==> Accepts(a, s, w[..k]) == 0
  }

  function LongestUpTo(a: Automaton, s: nat, w: string, k: nat): nat
    requires k <= |w|
    decreases k
  {
    if k == 0 || Accepts(a, s, w[..k]) != 0 then k else LongestUpTo(a, s, w, k - 1)
  }

  function Longest(a: Automaton, s: nat, w: string): (n: nat)
    ensures n <= |w|
  {
    LongestBound(a, s, w, |w|);
    LongestUpTo(a, s, w, |w|)
  }

  lemma {:induction false} LongestBound(a: Automaton, s: nat, w: string, k: nat)
    requires k <= |w|
    ensures LongestUpTo(a, s, w, k) <= k
    ensures forall j :: LongestUpTo(a, s, w, k) < j <= k ==> Accepts(a, s, w[..j]) == 0
    ensures LongestUpTo(a, s, w, k) > 0 ==> Accepts(a, s, w[..LongestUpTo(a, s, w, k)]) != 0
    decreases k
  {
    if k > 0 && Accepts(a, s, w[..k]) == 0 { LongestBound(a, s, w, k - 1); }
  }

  lemma LongestIs(a: Automaton, s: nat, w: string, n: nat)
    requires IsLongest(a, s, w, n)
    ensures Longest(a, s, w) == n
  {
    LongestBound(a, s, w, |w|);
  }

  /** Every text has a longest token. */
  lemma LongestExists(a: Automaton, r: Rules, m: nat, w: string)
    requires AutomatonOk(a, r) && AllOrdinary(w) && w != ""
    ensures IsLongest(a, r.startOf(m), w, Longest(a, r.startOf(m), w))
  {
    LongestBound(a, r.startOf(m), w, |w|);
    FirstAccepted(a, r, m, w);
  }

  lemma FirstAccepted(a: Automaton, r: Rules, m: nat, w: string)
    requires AutomatonOk(a, r) && AllOrdinary(w) && w != ""
    ensures Accepts(a, r.startOf(m), w[..1]) != 0
  {
    assert w[..1][..0] == "" && w[..1][0] == w[0];
    assert StartOk(a, r, m, w[0]);
    assert Run(a, r.startOf(m), w[..1]) == a.step(r.startOf(m), w[0]);
  }

  datatype Token = Token(act: nat, text: string)

  /** A text cut into tokens, each the longest there is, with the mode that the actions before it have left. */
  function Tokens(a: Automaton, r: Rules, m: nat, w: string): seq<Token>
    decreases |w|
  {
    var n := Longest(a, r.startOf(m), w);
    if n == 0 then []
    else
      var tok := Token(Accepts(a, r.startOf(m), w[..n]), w[..n]);
      [tok] + Tokens(a, r, r.after(m, tok.act, tok.text), w[n..])
  }

  /** The texts of the tokens make up the whole text. */
  function Joined(toks: seq<Token>): string {
    if toks == [] then "" else toks[0].text + Joined(toks[1..])
  }

  lemma {:induction false} NothingLost(a: Automaton, r: Rules, m: nat, w: string)
    requires AutomatonOk(a, r) && AllOrdinary(w)
    ensures Joined(Tokens(a, r, m, w)) == w
    decreases |w|
  {
    if w != "" {
      var n := Longest(a, r.startOf(m), w);
      LongestExists(a, r, m, w);
      var tok := Token(Accepts(a, r.startOf(m), w[..n]), w[..n]);
      NothingLost(a, r, r.after(m, tok.act, tok.text), w[n..]);
      assert w == w[..n] + w[n..];
      assert Tokens(a, r, m, w)[1..] == Tokens(a, r, r.after(m, tok.act, tok.text), w[n..]);
    }
  }

  // ----- an example

  /** Tables of a scanner for which any text is a single token. State 1 is the start state, 2 follows any character, 3
      the end-of-buffer character; 4 jams, and state 2 takes its entries from the template 5. State 0 is never
      entered: its entry at class 1 belongs to state 1, and it is its own default. */
  function SmallTables(): Tables {
    Tables(seq(256, i => if i == 0 then 1 else 2), [0, 0, 1, 2, 0], [0, 0, 0, 0, 5, 2], [0, 1, 1, 5, 5, 4, 4, 4],
      [0, 4, 5, 4, 0, 4], [0, 3, 2, 3, 2, 4, 4, 4], [0, 1, 2], 4, 5, 3, 2, [0, 1, 2, 1, 0, 1])
  }

  function SmallStep(s: nat, c: char): nat { if s == 1 || s == 2 then if c == EOB then 3 else 2 else 4 }

  function SmallAutomaton(): Automaton {
    Automaton((s, c) => SmallStep(s, c), s => if s == 2 then 1 else if s == 3 then 2 else 0, 4, 3, 2)
  }

  function SmallRules(): Rules { Rules(m => 1, (m, act, text) => m) }

  lemma SmallLookups()
    ensures TablesOk(SmallTables())
  {
    var t := SmallTables();
    forall s: nat, c: nat | 0 < s < |t.base| && c < |t.meta| ensures LookupOk(t, s, c) {
      assert s == 1 || s == 2 || s == 3 || s == 4 || s == 5;
      assert c == 0 || c == 1 || c == 2;
    }
  }

  lemma SmallChase(s: nat, c: nat)
    requires TablesOk(SmallTables()) && 0 < s < 5 && (c == 1 || c == 2)
    ensures Chase(SmallTables(), s, c) == SmallStep(s, if c == 1 then EOB else 'a')
  {
    var t := SmallTables();
    assert s == 1 || s == 2 || s == 3 || s == 4;
    assert Chase(t, 4, c) == 4 && Chase(t, 5, c) == if c == 1 then 3 else 2;
  }

  /** There are tables, with a state 0 that is not used and with a template, that meet the conditions. */
  lemma SmallTablesOk()
    ensures Agrees(SmallTables(), SmallAutomaton()) && AutomatonOk(SmallAutomaton(), SmallRules())
  {
    SmallLookups();
    var t, a := SmallTables(), SmallAutomaton();
    forall s: nat, c: char | 0 < s < |t.accept| && IsByte(c) ensures StepAgrees(t, a, s, c) {
      SmallChase(s, t.ec[c as int]);
    }
  }
}
