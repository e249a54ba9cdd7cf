/** Reading a help document: the texts in its tree, from left to right, are the texts of its tokens in the order of the
    source, but for the commas between the names of a list. */
module DocReading {
  import opened DocTree
  import opened DocGrammar
  import opened DocMeaning
  import opened DocActions
  import opened DocParser
  import opened DocLists
  import L = LrTables
  import P = LrParser

  function TextOf(c: Chars): string { if c.Some? then c.s else "" }

  predicate IsMethod(id: Id) { id.Other? && IsMethodName(id.name) }

  /** All texts of a tree. Of a method the names, its first child, are read before the arguments, its text. */
  function Read(n: Node): string
    decreases n
  {
    if IsMethod(n.id) && n.children != [] then Read(n.children[0]) + TextOf(n.text) + ReadAll(n.children[1..])
    else TextOf(n.text) + ReadAll(n.children)
  }

  function ReadAll(cs: seq<Node>): string
    decreases cs
  {
    if cs == [] then "" else ReadAll(cs[..|cs| - 1]) + Read(cs[|cs| - 1])
  }

  function ReadIf(n: Option<Node>): string { if n.Just? then Read(n.value) else "" }

  function ReadValue(w: Value<Node>): string {
    match w
    case Doc(n) => ReadIf(n)
    case Str(s) => TextOf(s)
    case _ => ""
  }

  // ----- what the source says

  function WithoutScore(s: string): string { if s != "" && s[|s| - 1] == '_' then s[..|s| - 1] else s }

  /** What a right hand side says, if its symbols say `s`. */
  function Heard(d: Does, s: string): string {
    match d
    case Break => "\n"
    case Strip => WithoutScore(s)
    case _ => s
  }

  /** The texts of the tokens of a parse tree, in order. A symbol that its rule gives up is left out, a line break
      between words counts as one, and a method's name loses an underscore at its end. */
  function Says(tree: ParseTree): string {
    match tree
    case Leaf(tok) => if tok.val.Str? then TextOf(tok.val.str) else ""
    case Node(n, kids) => Heard(RuleOf(n).does, SaysAll(kids, RuleOf(n).drops))
  }

  function SaysAll(trees: seq<ParseTree>, drops: Option<nat>): string {
    if trees == [] then ""
    else
      var k := |trees| - 1;
      SaysAll(trees[..k], drops) + if drops == Just(k) then "" else Says(trees[k])
  }

  // ----- values of a right hand side

  function ValuesRead(ws: seq<Value<Node>>, drops: Option<nat>): string {
    if ws == [] then ""
    else
      var k := |ws| - 1;
      ValuesRead(ws[..k], drops) + if drops == Just(k) then "" else ReadValue(ws[k])
  }

  lemma ValuesOneMore(ws: seq<Value<Node>>, w: Value<Node>, drops: Option<nat>)
    ensures ValuesRead(ws + [w], drops) == ValuesRead(ws, drops) + if drops == Just(|ws|) then "" else ReadValue(w)
  {
    assert (ws + [w])[..|ws + [w]| - 1] == ws && (ws + [w])[|ws + [w]| - 1] == w;
  }

  function UsesRead(ws: seq<Value<Node>>, uses: seq<nat>): string {
    if uses == [] then "" else UsesRead(ws, uses[..|uses| - 1]) + ReadValue(ValueAt(ws, uses[|uses| - 1]))
  }

  lemma UsesOneMore(ws: seq<Value<Node>>, a: seq<nat>, k: nat)
    ensures UsesRead(ws, a + [k]) == UsesRead(ws, a) + ReadValue(ValueAt(ws, k))
  {
    assert (a + [k])[..|a + [k]| - 1] == a && (a + [k])[|a + [k]| - 1] == k;
  }

  lemma {:induction false} UsesConcat(ws: seq<Value<Node>>, a: seq<nat>, b: seq<nat>)
    ensures UsesRead(ws, a + b) == UsesRead(ws, a) + UsesRead(ws, b)
    decreases |b|
  {
    if b == [] {
      assert a + b == a;
    } else {
      var c, k := b[..|b| - 1], b[|b| - 1];
      UsesConcat(ws, a, c);
      assert (a + b)[..|a + b| - 1] == a + c && (a + b)[|a + b| - 1] == k;
      L.Associates(UsesRead(ws, a), UsesRead(ws, c), ReadValue(ValueAt(ws, k)));
    }
  }

  ghost predicate Below(uses: seq<nat>, n: nat) { forall i :: 0 <= i < |uses| ==> uses[i] < n }

  lemma {:induction false} UsesPrefix(ws: seq<Value<Node>>, n: nat, uses: seq<nat>)
    requires n <= |ws| && Below(uses, n)
    ensures UsesRead(ws[..n], uses) == UsesRead(ws, uses)
    decreases |uses|
  {
    if uses != [] { UsesPrefix(ws, n, uses[..|uses| - 1]); }
  }

  ghost predicate Silent(ws: seq<Value<Node>>, drops: Option<nat>, uses: seq<nat>, k: nat)
    requires k < |ws|
  {
    k in uses || drops == Just(k) || ReadValue(ws[k]) == ""
  }

  /** The values that are used, in order, are all that can be read. */
  lemma {:induction false} AllRead(ws: seq<Value<Node>>, drops: Option<nat>, uses: seq<nat>)
    requires Ascending(uses) && Below(uses, |ws|) && (drops.Just? ==> drops.value !in uses)
    requires AllSilent(ws, drops, uses)
    ensures ValuesRead(ws, drops) == UsesRead(ws, uses)
    decreases |ws|
  {
    if ws == [] {
      NoUses(uses);
    } else {
      var n := |ws| - 1;
      assert Silent(ws, drops, uses, n);
      if uses != [] && uses[|uses| - 1] == n {
        var front := uses[..|uses| - 1];
        FrontUses(uses, n);
        SilentBelow(ws, drops, uses, front);
        AllRead(ws[..n], drops, front);
        UsesPrefix(ws, n, front);
      } else {
        LastBelow(uses, n);
        SilentBelow(ws, drops, uses, uses);
        AllRead(ws[..n], drops, uses);
        UsesPrefix(ws, n, uses);
      }
    }
  }

  lemma FrontUses(uses: seq<nat>, n: nat)
    requires Ascending(uses) && uses != [] && uses[|uses| - 1] == n
    ensures var front := uses[..|uses| - 1];
      Ascending(front) && Below(front, n) && (forall k :: k in front ==> k in uses)
      && (forall k :: k in uses && k < n ==> k in front)
  {
    assert uses == uses[..|uses| - 1] + [n];
  }

  ghost predicate AllSilent(ws: seq<Value<Node>>, drops: Option<nat>, uses: seq<nat>) {
    forall k: nat {:trigger Silent(ws, drops, uses, k)} :: k < |ws| ==> Silent(ws, drops, uses, k)
  }

  lemma SilentBelow(ws: seq<Value<Node>>, drops: Option<nat>, uses: seq<nat>, front: seq<nat>)
    requires ws != [] && AllSilent(ws, drops, uses) && forall k :: k in uses && k < |ws| - 1 ==> k in front
    ensures AllSilent(ws[..|ws| - 1], drops, front)
  {
    var n := |ws| - 1;
    forall k: nat | k < n ensures Silent(ws[..n], drops, front, k) { assert Silent(ws, drops, uses, k); }
  }

  lemma NoUses(uses: seq<nat>)
    requires uses != [] ==> uses[0] < 0
    ensures uses == []
  {}

  lemma LastBelow(uses: seq<nat>, n: nat)
    requires Ascending(uses) && Below(uses, n + 1) && (uses != [] ==> uses[|uses| - 1] != n)
    ensures Below(uses, n) && n !in uses
  {
    forall i | 0 <= i < |uses| ensures uses[i] < n {
      if i < |uses| - 1 { assert uses[i] < uses[|uses| - 1]; }
    }
  }

  // ----- reading nodes

  lemma ReadOneMore(cs: seq<Node>, c: Node)
    ensures ReadAll(cs + [c]) == ReadAll(cs) + Read(c)
  {
    assert (cs + [c])[..|cs + [c]| - 1] == cs && (cs + [c])[|cs + [c]| - 1] == c;
  }

  /** A child that is added is read last, unless it is the first of a method. */
  lemma AppendedRead(n: Node, c: Option<Node>)
    requires IsMethod(n.id) ==> n.children != []
    ensures Read(Appended(n, c)) == Read(n) + ReadIf(c)
  {
    if c.Just? {
      if IsMethod(n.id) {
        assert (n.children + [c.value])[1..] == n.children[1..] + [c.value];
        ReadOneMore(n.children[1..], c.value);
      } else {
        ReadOneMore(n.children, c.value);
      }
    }
  }

  lemma ItemRead(r: Rule, it: Item, ws: seq<Value<Node>>)
    requires ItemOk(r, it) && it.k < |r.rhs| && AllFit(ws, r.rhs)
    ensures ReadIf(ItemTree(it, ws)) == ReadValue(ws[it.k])
  {
    assert Fits(ws[it.k], SortOf(r.rhs[it.k]));
    assert ReadAll([]) == "";
  }

  lemma {:induction false} ItemsRead(r: Rule, n: Node, items: seq<Item>, ws: seq<Value<Node>>)
    requires AllFit(ws, r.rhs) && (IsMethod(n.id) ==> n.children != [])
    requires forall it :: it in items ==> ItemOk(r, it) && it.k < |r.rhs|
    ensures Read(ItemsTree(n, items, ws)) == Read(n) + UsesRead(ws, ItemUses(items))
    decreases |items|
  {
    if items != [] {
      var it, rest := items[0], items[1..];
      var n' := ItemAppended(r, n, it, ws);
      ItemsRead(r, n', rest, ws);
      FirstUse(ws, items);
      L.Associates(Read(n), ReadValue(ValueAt(ws, it.k)), UsesRead(ws, ItemUses(rest)));
    }
  }

  lemma ItemAppended(r: Rule, n: Node, it: Item, ws: seq<Value<Node>>) returns (n': Node)
    requires ItemOk(r, it) && it.k < |r.rhs| && AllFit(ws, r.rhs) && (IsMethod(n.id) ==> n.children != [])
    ensures n' == Appended(n, ItemTree(it, ws)) && Read(n') == Read(n) + ReadValue(ValueAt(ws, it.k))
    ensures IsMethod(n'.id) ==> n'.children != []
  {
    n' := Appended(n, ItemTree(it, ws));
    AppendedRead(n, ItemTree(it, ws));
    ItemRead(r, it, ws);
  }

  lemma UsesOne(ws: seq<Value<Node>>, k: nat)
    ensures UsesRead(ws, [k]) == ReadValue(ValueAt(ws, k))
  {
    UsesOneMore(ws, [], k);
    assert [] + [k] == [k];
  }

  lemma FirstUse(ws: seq<Value<Node>>, items: seq<Item>)
    requires items != []
    ensures UsesRead(ws, ItemUses(items)) == ReadValue(ValueAt(ws, items[0].k)) + UsesRead(ws, ItemUses(items[1..]))
  {
    UsesConcat(ws, [items[0].k], ItemUses(items[1..]));
    UsesOne(ws, items[0].k);
  }

  // ----- reading what an action makes

  lemma TextRead(r: Rule, text: KidText, ws: seq<Value<Node>>)
    requires TextOk(r, text) && AllFit(ws, r.rhs)
    ensures TextOf(TextBy(text, ws)) == UsesRead(ws, TextUses(text))
  {
    if text.TheKid? {
      assert Fits(ws[text.k], KidSort(r, text.k));
      UsesOne(ws, text.k);
    }
  }

  /** What is read of a new node before its items are added. */
  lemma NewBase(r: Rule, ws: seq<Value<Node>>, kind: string) returns (n: Node)
    requires RuleOk(r) && r.does.Build? && r.does.base.New? && AllFit(ws, r.rhs) && IsMethodName(kind)
    requires r.does.base.name != MethodKind
    ensures BaseTree(r.does.base, ws, kind) == Just(n) && !IsMethod(n.id)
    ensures Read(n) == UsesRead(ws, TextUses(r.does.base.text))
  {
    var base := r.does.base;
    n := BaseTree(base, ws, kind).value;
    NameSorted(r, base.name, ws, kind, SortOf(r.lhs).piece && r.does.items == []);
    TextRead(r, base.text, ws);
    assert Read(n) == TextOf(n.text) + "";
  }

  lemma NewRead(r: Rule, ws: seq<Value<Node>>, kind: string)
    requires RuleOk(r) && r.does.Build? && r.does.base.New? && AllFit(ws, r.rhs) && IsMethodName(kind)
    requires r.does.base.name != MethodKind
    ensures ReadIf(BuildTree(r.does.base, r.does.items, ws, kind)) == UsesRead(ws, Uses(r))
  {
    var base, items := r.does.base, r.does.items;
    var n := NewBase(r, ws, kind);
    ItemsWithin(r);
    ItemsRead(r, n, items, ws);
    UsesConcat(ws, TextUses(base.text), ItemUses(items));
  }

  lemma TakingBase(r: Rule, ws: seq<Value<Node>>, kind: string) returns (n: Node)
    requires RuleOk(r) && r.does.Build? && r.does.base.Taking? && AllFit(ws, r.rhs) && IsMethodName(kind)
    ensures BaseTree(r.does.base, ws, kind) == Just(n) && !IsMethod(n.id)
    ensures Read(n) == UsesRead(ws, TextUses(r.does.base.text) + [r.does.base.k])
  {
    var base := r.does.base;
    n := BaseTree(base, ws, kind).value;
    ItemsWithin(r);
    assert Fits(ws[base.k], SortOf(r.rhs[base.k]));
    NameSorted(r, base.name, ws, kind, false);
    TextRead(r, base.text, ws);
    UsesOneMore(ws, TextUses(base.text), base.k);
    assert Read(n) == TextOf(n.text) + ReadAll(ChildrenOf(NodeAt(ws, base.k)));
    HandedOn(NodeAt(ws, base.k));
  }

  /** The children of a bare node are all that is read of it. */
  lemma HandedOn(n: Option<Node>)
    requires n.Just? ==> n.value.text.NoText? && !IsMethod(n.value.id)
    ensures ReadIf(n) == ReadAll(ChildrenOf(n))
  {}

  lemma TakingRead(r: Rule, ws: seq<Value<Node>>, kind: string)
    requires RuleOk(r) && r.does.Build? && r.does.base.Taking? && AllFit(ws, r.rhs) && IsMethodName(kind)
    ensures ReadIf(BuildTree(r.does.base, r.does.items, ws, kind)) == UsesRead(ws, Uses(r))
  {
    var base, items := r.does.base, r.does.items;
    var n := TakingBase(r, ws, kind);
    ItemsWithin(r);
    ItemsRead(r, n, items, ws);
    UsesConcat(ws, TextUses(base.text) + [base.k], ItemUses(items));
  }

  lemma SameRead(r: Rule, ws: seq<Value<Node>>, kind: string)
    requires RuleOk(r) && r.does.Build? && r.does.base.Same? && AllFit(ws, r.rhs)
    ensures ReadIf(BuildTree(r.does.base, r.does.items, ws, kind)) == UsesRead(ws, Uses(r))
  {
    var k, items := r.does.base.k, r.does.items;
    ItemsWithin(r);
    assert Fits(ws[k], SortOf(r.rhs[k]));
    ItemsRead(r, NodeAt(ws, k).value, items, ws);
    UsesConcat(ws, [k], ItemUses(items));
    UsesOne(ws, k);
  }

  /** A method is read with its names first. */
  lemma MethodRead(r: Rule, ws: seq<Value<Node>>, kind: string)
    requires RuleOk(r) && r.does.Build? && r.does.base.New? && AllFit(ws, r.rhs) && IsMethodName(kind)
    requires r.does.base.name == MethodKind
    ensures ReadIf(BuildTree(r.does.base, r.does.items, ws, kind)) == UsesRead(ws, Uses(r))
  {
    var base, items := r.does.base, r.does.items;
    var it, rest, text := items[0], items[1..], TextUses(base.text);
    ItemsWithin(r);
    TextRead(r, base.text, ws);
    var n := FirstOfMethod(r, ws, kind);
    ItemsRead(r, n, rest, ws);
    UsesOne(ws, it.k);
    UsesConcat(ws, [it.k], text);
    UsesConcat(ws, [it.k] + text, ItemUses(rest));
  }

  lemma FirstOfMethod(r: Rule, ws: seq<Value<Node>>, kind: string) returns (n: Node)
    requires RuleOk(r) && r.does.Build? && r.does.base.New? && AllFit(ws, r.rhs) && IsMethodName(kind)
    requires r.does.base.name == MethodKind && r.does.items[0].k < |r.rhs|
    ensures n == Appended(BaseTree(r.does.base, ws, kind).value, ItemTree(r.does.items[0], ws))
    ensures Read(n) == ReadValue(ws[r.does.items[0].k]) + TextOf(TextBy(r.does.base.text, ws)) && n.children != []
  {
    var it := r.does.items[0];
    ItemRead(r, it, ws);
    n := Appended(BaseTree(r.does.base, ws, kind).value, ItemTree(it, ws));
    assert n == Node(Other(kind), TextBy(r.does.base.text, ws), [] + [ItemTree(it, ws).value]);
    OneChildRead(n, ItemTree(it, ws).value);
  }

  lemma OneChildRead(n: Node, c: Node)
    requires IsMethod(n.id) && n.children == [] + [c]
    ensures Read(n) == Read(c) + TextOf(n.text)
  {
    assert n.children[1..] == [];
  }

  /** Of the values that an action is given all are read in what it makes, in order, but for one that is given up. */
  lemma DoRead(r: Rule, ws: seq<Value<Node>>, kind: string)
    requires RuleOk(r) && AllFit(ws, r.rhs) && IsMethodName(kind)
    ensures ReadValue(TreeDo(r.does, ws, kind).0) == Heard(r.does, ValuesRead(ws, r.drops))
  {
    RestRead(r, ws);
    if r.does.Build? {
      BuildRead(r, ws, kind);
    } else {
      PlainValues(r, ws);
      PlainRead(r, ws, kind);
    }
  }

  lemma RestRead(r: Rule, ws: seq<Value<Node>>)
    requires RuleOk(r) && AllFit(ws, r.rhs)
    ensures ValuesRead(ws, r.drops) == UsesRead(ws, Uses(r))
  {
    RestSilent(r, ws);
    AllRead(ws, r.drops, Uses(r));
  }

  ghost predicate PlainOk(r: Rule, ws: seq<Value<Node>>) {
    match r.does
    case Build(_, _) => false
    case Strip => |ws| == 1 && ws[0].Str?
    case Join => |ws| == 2 && ws[0].Str? && ws[1].Str?
    case Pass => |ws| == |r.rhs|
    case Top => false
    case GiveUp => false
    case _ => true
  }

  lemma PlainValues(r: Rule, ws: seq<Value<Node>>)
    requires RuleOk(r) && AllFit(ws, r.rhs) && !r.does.Build?
    ensures PlainOk(r, ws)
  {
    assert |ws| > 0 ==> Fits(ws[0], SortOf(r.rhs[0]));
    assert |ws| > 1 ==> Fits(ws[1], SortOf(r.rhs[1]));
  }

  lemma PlainRead(r: Rule, ws: seq<Value<Node>>, kind: string)
    requires PlainOk(r, ws)
    ensures ReadValue(TreeDo(r.does, ws, kind).0) == Heard(r.does, UsesRead(ws, Uses(r)))
  {
    match r.does
    case Join => JoinRead(ws);
    case Strip => StripRead(ws);
    case Pass => if r.rhs != [] { UsesOne(ws, 0); }
    case _ =>
  }

  lemma StripRead(ws: seq<Value<Node>>)
    requires |ws| == 1 && ws[0].Str?
    ensures TextOf(Unscored(ws[0].str)) == WithoutScore(UsesRead(ws, [0]))
  {
    UsesOne(ws, 0);
  }

  lemma JoinRead(ws: seq<Value<Node>>)
    requires |ws| == 2 && ws[0].Str? && ws[1].Str?
    ensures TextOf(Merged(ws[0].str, ws[1].str)) == UsesRead(ws, [0, 1])
  {
    UsesOneMore(ws, [0], 1);
    UsesOne(ws, 0);
    assert [0] + [1] == [0, 1];
  }

  lemma BuildRead(r: Rule, ws: seq<Value<Node>>, kind: string)
    requires RuleOk(r) && r.does.Build? && AllFit(ws, r.rhs) && IsMethodName(kind)
    ensures ReadIf(BuildTree(r.does.base, r.does.items, ws, kind)) == UsesRead(ws, Uses(r))
  {
    match r.does.base
    case Same(_) => SameRead(r, ws, kind);
    case Taking(_, _, _) => TakingRead(r, ws, kind);
    case New(name, _) => if name == MethodKind { MethodRead(r, ws, kind); } else { NewRead(r, ws, kind); }
  }

  /** Symbols that an action does not use have nothing to read. */
  lemma RestSilent(r: Rule, ws: seq<Value<Node>>)
    requires RuleOk(r) && AllFit(ws, r.rhs)
    ensures Ascending(Uses(r)) && Below(Uses(r), |ws|) && (r.drops.Just? ==> r.drops.value !in Uses(r))
    ensures AllSilent(ws, r.drops, Uses(r))
  {
    forall k: nat | k < |ws| ensures Silent(ws, r.drops, Uses(r), k) { assert Fits(ws[k], SortOf(r.rhs[k])); }
  }

  // ----- reading a document

  /** Nothing that the source says is lost or out of its place in the tree. */
  lemma {:induction false} ReadsAsSaid(t: L.Tables, tree: ParseTree, kind: string)
    requires IsPart(t, tree) && IsMethodName(kind)
    ensures ReadValue(Meaning(tree, kind).0) == Says(tree)
    decreases tree
  {
    match tree
    case Leaf(_) =>
    case Node(n, kids) =>
      KidsFit(t, tree, kind);
      AllReadAsSaid(t, kids, kind, RuleOf(n).drops);
      NodeReads(n, kids, kind);
  }

  lemma KidsFit(t: L.Tables, tree: ParseTree, kind: string)
    requires IsPart(t, tree) && tree.Node? && IsMethodName(kind)
    ensures AllParts(t, tree.kids) && RuleOk(RuleOf(tree.rule)) && IsMethodName(MeaningAll(tree.kids, kind).1)
    ensures AllFit(MeaningAll(tree.kids, kind).0, RuleOf(tree.rule).rhs)
  {
    PartRule(t, tree);
    MeaningAllFits(t, tree.kids, kind);
  }

  lemma NodeReads(n: nat, kids: seq<ParseTree>, kind: string)
    requires RuleOk(RuleOf(n)) && AllFit(MeaningAll(kids, kind).0, RuleOf(n).rhs)
    requires IsMethodName(MeaningAll(kids, kind).1)
    requires ValuesRead(MeaningAll(kids, kind).0, RuleOf(n).drops) == SaysAll(kids, RuleOf(n).drops)
    ensures ReadValue(Meaning(L.Node(n, kids), kind).0) == Says(L.Node(n, kids))
  {
    DoRead(RuleOf(n), MeaningAll(kids, kind).0, MeaningAll(kids, kind).1);
  }

  ghost predicate AllParts(t: L.Tables, trees: seq<ParseTree>) {
    forall k {:trigger IsPart(t, trees[k])} :: 0 <= k < |trees| ==> IsPart(t, trees[k])
  }

  lemma PartsSplit(t: L.Tables, trees: seq<ParseTree>)
    requires AllParts(t, trees) && trees != []
    ensures AllParts(t, trees[..|trees| - 1]) && IsPart(t, trees[|trees| - 1])
  {
    assert IsPart(t, trees[|trees| - 1]);
    var front := trees[..|trees| - 1];
    forall k | 0 <= k < |front| ensures IsPart(t, front[k]) { assert IsPart(t, trees[k]); }
  }

  lemma {:induction false} AllReadAsSaid(t: L.Tables, trees: seq<ParseTree>, kind: string, drops: Option<nat>)
    requires IsMethodName(kind) && AllParts(t, trees)
    ensures ValuesRead(MeaningAll(trees, kind).0, drops) == SaysAll(trees, drops)
    decreases trees
  {
    if trees != [] {
      var front, last := trees[..|trees| - 1], trees[|trees| - 1];
      PartsSplit(t, trees);
      AllReadAsSaid(t, front, kind, drops);
      var kind' := MethodNameBehind(t, front, kind);
      ReadsAsSaid(t, last, kind');
      OneMoreRead(trees, kind, kind', drops);
    }
  }

  lemma MethodNameBehind(t: L.Tables, trees: seq<ParseTree>, kind: string) returns (kind': string)
    requires IsMethodName(kind) && AllParts(t, trees)
    ensures kind' == MeaningAll(trees, kind).1 && IsMethodName(kind')
  {
    assert forall k :: 0 <= k < |trees| ==> IsPart(t, trees[k]);
    MeaningAllFits(t, trees, kind);
    kind' := MeaningAll(trees, kind).1;
  }

  lemma OneMoreRead(trees: seq<ParseTree>, kind: string, kind': string, drops: Option<nat>)
    requires trees != [] && kind' == MeaningAll(trees[..|trees| - 1], kind).1
    requires ValuesRead(MeaningAll(trees[..|trees| - 1], kind).0, drops) == SaysAll(trees[..|trees| - 1], drops)
    requires ReadValue(Meaning(trees[|trees| - 1], kind').0) == Says(trees[|trees| - 1])
    ensures ValuesRead(MeaningAll(trees, kind).0, drops) == SaysAll(trees, drops)
  {
    var front, last := trees[..|trees| - 1], trees[|trees| - 1];
    var ws, w := MeaningAll(front, kind).0, Meaning(last, kind').0;
    ValuesOneMore(ws, w, drops);
    LastMeans(trees, kind);
  }

  lemma LastMeans(trees: seq<ParseTree>, kind: string)
    requires trees != []
    ensures var u := MeaningAll(trees[..|trees| - 1], kind);
      MeaningAll(trees, kind).0 == u.0 + [Meaning(trees[|trees| - 1], u.1).0] && |u.0| == |trees| - 1
  {}

  /** The tree of an accepted document, read from left to right, is the text of the source. */
  lemma DocumentRead(j: L.Job<Value<nat>, P.Location, Globals>, malloc: Malloc, n: nat, tree: ParseTree, g: Globals)
      returns (d: ParseTree, node: Node)
    requires HelpJob(j, malloc) && L.IsResult(j, n, tree, g)
    ensures tree == L.Node(2, [d]) && L.Yield(d) == L.Taken(j.lex, n)
    ensures g.top.Just? && Holds(g.heap, g.top.value, node) && Read(node) == Says(d)
  {
    d, node := DocumentMeans(j, malloc, n, tree, g);
    var d' := StartRule(j, malloc, n, tree, g);
    ReadsAsSaid(j.t, d, "METHOD");
    OnlyChild(d);
  }
}
