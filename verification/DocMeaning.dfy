/** What a help document means: the semantic actions of the grammar on tree values, and the sorts that values have. */
module DocMeaning {
  import opened DocTree
  import opened DocGrammar

  // ----- values of the symbols of a right hand side

  function ValueAt<N>(vs: seq<Value<N>>, k: nat): Value<N> { if k < |vs| then vs[k] else Int(0) }

  function NodeAt<N>(vs: seq<Value<N>>, k: nat): Option<N> {
    if ValueAt(vs, k).Doc? then ValueAt(vs, k).node else None
  }

  function TextAt<N>(vs: seq<Value<N>>, k: nat): Chars {
    if ValueAt(vs, k).Str? then ValueAt(vs, k).str else NoText
  }

  function IdAt<N>(vs: seq<Value<N>>, k: nat): Id { if ValueAt(vs, k).Name? then ValueAt(vs, k).id else Other("") }

  /** The id of a new node, with `kind` for `method_type`. */
  function NamedBy<N>(name: NodeName, vs: seq<Value<N>>, kind: string): Id {
    match name
    case Fixed(id) => id
    case OfKid(k) => IdAt(vs, k)
    case MethodKind => Other(kind)
    case CopyKind =>
      Other(if kind == "CMETHOD" then "CCOPYMETHOD" else if kind == "IMETHOD" then "ICOPYMETHOD" else "COPYMETHOD")
    case PrivateKind => Other(if kind == "CMETHOD" then "CPRIVATE" else "IPRIVATE")
  }

  function TextBy<N>(text: KidText, vs: seq<Value<N>>): Chars {
    if text.TheKid? then TextAt(vs, text.k) else NoText
  }

  /** An underscore at the end of a method's name goes. */
  function Unscored(s: Chars): Chars {
    if s.Some? && s.s != "" && s.s[|s.s| - 1] == '_' then Some(s.s[..|s.s| - 1]) else s
  }

  // ----- actions on tree values

  function ChildrenOf(n: Option<Node>): seq<Node> { if n.Just? then n.value.children else [] }

  /** `doc_node_add_child` on tree values; a child that is missing adds nothing. */
  function Appended(n: Node, c: Option<Node>): Node {
    if c.Just? then n.(children := n.children + [c.value]) else n
  }

  function ItemTree(it: Item, ws: seq<Value<Node>>): Option<Node> {
    match it
    case Kid(k) => NodeAt(ws, k)
    case Renamed(k, id) => if NodeAt(ws, k).Just? then Just(NodeAt(ws, k).value.(id := Other(id))) else None
    case Holding(id, k) => Just(Node(Other(id), NoText, ChildrenOf(NodeAt(ws, k))))
    case Labelled(id, k) => Just(Node(Other(id), TextAt(ws, k), []))
  }

  function ItemsTree(n: Node, items: seq<Item>, ws: seq<Value<Node>>): Node
    decreases |items|
  {
    if items == [] then n else ItemsTree(Appended(n, ItemTree(items[0], ws)), items[1..], ws)
  }

  function BaseTree(base: Base, ws: seq<Value<Node>>, kind: string): Option<Node> {
    match base
    case Same(k) => NodeAt(ws, k)
    case New(name, text) => Just(Node(NamedBy(name, ws, kind), TextBy(text, ws), []))
    case Taking(name, text, k) => Just(Node(NamedBy(name, ws, kind), TextBy(text, ws), ChildrenOf(NodeAt(ws, k))))
  }

  function BuildTree(base: Base, items: seq<Item>, ws: seq<Value<Node>>, kind: string): Option<Node> {
    var n := BaseTree(base, ws, kind);
    if n.Just? then Just(ItemsTree(n.value, items, ws)) else None
  }

  /** What actions other than those on nodes make of the values. */
  function PlainDo<N>(d: Does, vs: seq<Value<N>>): Value<N> {
    match d
    case Tag(id) => Name(Other(id))
    case TagFor(id, _) => Name(Other(id))
    case NoNode => Doc(None)
    case NoStr => Str(NoText)
    case Strip => Str(Unscored(TextAt(vs, 0)))
    case Join => Str(Merged(TextAt(vs, 0), TextAt(vs, 1)))
    case Break => Str(Some("\n"))
    case For(_) => Int(0)
    case _ => ValueAt(vs, 0)
  }

  function KindAfter(d: Does, kind: string): string {
    match d
    case TagFor(_, k) => k
    case For(k) => k
    case _ => kind
  }

  function TreeDo(d: Does, ws: seq<Value<Node>>, kind: string): (Value<Node>, string) {
    (if d.Build? then Doc(BuildTree(d.base, d.items, ws, kind)) else PlainDo(d, ws), KindAfter(d, kind))
  }

  // ----- values keep to their sorts

  ghost predicate NodeFits(n: Node, bare: bool, piece: bool) {
    && WellFormed(n) && (!piece ==> n.id.Other?)
    && (bare ==> n.text.NoText? && n.id.Other? && !IsMethodName(n.id.name))
  }

  ghost predicate Fits(w: Value<Node>, s: Sort) {
    match s
    case Whole => false
    case Plain => !w.Doc? && !w.Str?
    case TagSort => w.Name? && w.id.Other? && !IsMethodName(w.id.name)
    case Words(missing) => w.Str? && (w.str.NoText? ==> missing)
    case Tree(missing, bare, piece) =>
      w.Doc? && (w.node.None? ==> missing) && (w.node.Just? ==> NodeFits(w.node.value, bare, piece))
  }

  ghost predicate AllFit(ws: seq<Value<Node>>, xs: seq<nat>) {
    |ws| == |xs| && forall k :: 0 <= k < |xs| ==> Fits(ws[k], SortOf(xs[k]))
  }

  lemma WithinFits(w: Value<Node>, a: Sort, b: Sort)
    requires Fits(w, a) && Within(a, b)
    ensures Fits(w, b)
  {}

  lemma AppendedFits(n: Node, c: Option<Node>, bare: bool)
    requires NodeFits(n, bare, false) && (c.Just? ==> WellFormed(c.value))
    ensures NodeFits(Appended(n, c), bare, false)
  {}

  lemma ItemFitsIn(r: Rule, it: Item, ws: seq<Value<Node>>)
    requires ItemOk(r, it) && it.k < |r.rhs| && AllFit(ws, r.rhs)
    ensures ItemTree(it, ws).Just? ==> WellFormed(ItemTree(it, ws).value)
  {
    assert Fits(ws[it.k], SortOf(r.rhs[it.k]));
  }

  lemma {:induction false} ItemsFit(r: Rule, items: seq<Item>, ws: seq<Value<Node>>, n: Node, bare: bool)
    requires AllFit(ws, r.rhs) && NodeFits(n, bare, false)
    requires forall it :: it in items ==> ItemOk(r, it) && it.k < |r.rhs|
    ensures NodeFits(ItemsTree(n, items, ws), bare, false)
    decreases |items|
  {
    if items != [] {
      ItemFitsIn(r, items[0], ws);
      AppendedFits(n, ItemTree(items[0], ws), bare);
      ItemsFit(r, items[1..], ws, Appended(n, ItemTree(items[0], ws)), bare);
    }
  }

  lemma {:induction false} UsesHold(items: seq<Item>, it: Item)
    requires it in items
    ensures it.k in ItemUses(items)
  {
    if it != items[0] { UsesHold(items[1..], it); }
  }

  /** The places that the items of an action use are within the right hand side. */
  lemma ItemsWithin(r: Rule)
    requires RuleOk(r) && r.does.Build?
    ensures forall it :: it in r.does.items ==> it.k in Uses(r) && it.k < |r.rhs|
    ensures !r.does.base.New? ==> r.does.base.k in Uses(r) && r.does.base.k < |r.rhs|
    ensures !r.does.base.Same? && r.does.base.text.TheKid? ==> r.does.base.text.k in Uses(r)
  {
    var items := r.does.items;
    forall it | it in items ensures it.k in Uses(r) {
      UsesHold(items, it);
      if r.does.base.New? && r.does.base.name.MethodKind? && it != items[0] { UsesHold(items[1..], it); }
    }
    forall k | k in Uses(r) ensures k < |r.rhs| {
      var i :| 0 <= i < |Uses(r)| && Uses(r)[i] == k;
    }
  }

  lemma NameSorted(r: Rule, name: NodeName, ws: seq<Value<Node>>, kind: string, piece: bool)
    requires NameOk(r, name, piece) && AllFit(ws, r.rhs) && IsMethodName(kind)
    ensures var id := NamedBy(name, ws, kind);
      (!piece ==> id.Other?) && (id.Other? && name != MethodKind ==> !IsMethodName(id.name))
      && (!id.Other? ==> name == Fixed(id))
  {
    if name.OfKid? { assert Fits(ws[name.k], TagSort); }
  }

  lemma TextSorted(r: Rule, text: KidText, ws: seq<Value<Node>>)
    requires TextOk(r, text) && AllFit(ws, r.rhs)
    ensures text.NoKid? ==> TextBy(text, ws).NoText?
    ensures text.TheKid? && KidSort(r, text.k) == Words(false) ==> TextBy(text, ws).Some?
  {
    if text.TheKid? { assert Fits(ws[text.k], KidSort(r, text.k)); }
  }

  lemma BaseSorted(r: Rule, ws: seq<Value<Node>>, kind: string)
    requires RuleOk(r) && r.does.Build? && AllFit(ws, r.rhs) && IsMethodName(kind)
    ensures var t := BaseTree(r.does.base, ws, kind);
      t.Just? && NodeFits(t.value, SortOf(r.lhs).bare, SortOf(r.lhs).piece && r.does.items == [])
  {
    ItemsWithin(r);
    var base, piece := r.does.base, SortOf(r.lhs).piece && r.does.items == [];
    match base
    case Same(k) => assert Fits(ws[k], SortOf(r.rhs[k]));
    case New(name, text) =>
      NameSorted(r, name, ws, kind, piece);
      TextSorted(r, text, ws);
    case Taking(name, text, k) => TakingSorted(r, name, text, k, ws, kind, SortOf(r.lhs).bare, piece);
  }

  lemma TakingSorted(r: Rule, name: NodeName, text: KidText, k: nat, ws: seq<Value<Node>>, kind: string, bare: bool,
                     piece: bool)
    requires AllFit(ws, r.rhs) && IsMethodName(kind) && NameOk(r, name, false) && TextOk(r, text) && name != MethodKind
    requires k < |r.rhs| && KidSort(r, k).Tree? && KidSort(r, k).bare && (bare ==> text.NoKid?)
    ensures NodeFits(Node(NamedBy(name, ws, kind), TextBy(text, ws), ChildrenOf(NodeAt(ws, k))), bare, piece)
  {
    NameSorted(r, name, ws, kind, false);
    TextSorted(r, text, ws);
    assert Fits(ws[k], SortOf(r.rhs[k]));
  }

  /** An action that keeps to the sorts gives a value of the sort of the left hand side. */
  lemma DoFits(r: Rule, ws: seq<Value<Node>>, kind: string)
    requires RuleOk(r) && AllFit(ws, r.rhs) && IsMethodName(kind)
    ensures var (w, kind') := TreeDo(r.does, ws, kind); Fits(w, SortOf(r.lhs)) && IsMethodName(kind')
  {
    if r.does.Build? {
      BaseSorted(r, ws, kind);
      var n := BaseTree(r.does.base, ws, kind).value;
      ItemsWithin(r);
      if r.does.items != [] || !SortOf(r.lhs).piece { ItemsFit(r, r.does.items, ws, n, SortOf(r.lhs).bare); }
    } else if r.does.Pass? && r.rhs != [] {
      WithinFits(ws[0], SortOf(r.rhs[0]), SortOf(r.lhs));
    }
  }
}
