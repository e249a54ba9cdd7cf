/** The semantic actions of the help grammar on nodes in memory: nodes are changed in place, handed over and freed. They
    do what the actions on tree values say, and no node is shared, lost, or used after it was freed. */
module DocActions {
  import opened DocTree
  import opened DocGrammar
  import opened DocMeaning

  // ----- actions on nodes in memory

  /** `DocNode`; its address is a number. */
  datatype Cell = Cell(id: Id, text: Chars, kids: seq<nat>)

  type Heap = map<nat, Cell>

  /** Where `malloc` finds room beside the nodes there are. */
  type Malloc = set<nat> -> nat

  ghost predicate MallocOk(malloc: Malloc) { forall s: set<nat> {:trigger malloc(s)} :: malloc(s) !in s }

  /** `doc_node_create`, with a text. */
  function Created(malloc: Malloc, h: Heap, id: Id, text: Chars): (Heap, nat) {
    var a := malloc(h.Keys);
    (h[a := Cell(id, text, [])], a)
  }

  /** `doc_node_add_child` */
  function WithChild(h: Heap, n: nat, c: Option<nat>): Heap {
    if c.Just? && n in h then h[n := h[n].(kids := h[n].kids + [c.value])] else h
  }

  /** `doc_node_move_children`: the children of `src` replace those of `n`, and `src` is freed. */
  function TookOver(h: Heap, n: nat, src: Option<nat>): Heap {
    if src.Just? && src.value in h && n in h then h[n := h[n].(kids := h[src.value].kids)] - {src.value} else h
  }

  function ItemHeap(malloc: Malloc, it: Item, vs: seq<Value<nat>>, h: Heap): (Heap, Option<nat>) {
    match it
    case Kid(k) => (h, NodeAt(vs, k))
    case Renamed(k, id) =>
      var a := NodeAt(vs, k);
      (if a.Just? && a.value in h then h[a.value := h[a.value].(id := Other(id))] else h, a)
    case Holding(id, k) =>
      var (h1, b) := Created(malloc, h, Other(id), NoText);
      (TookOver(h1, b, NodeAt(vs, k)), Just(b))
    case Labelled(id, k) =>
      var (h1, b) := Created(malloc, h, Other(id), TextAt(vs, k));
      (h1, Just(b))
  }

  function ItemsHeap(malloc: Malloc, n: nat, items: seq<Item>, vs: seq<Value<nat>>, h: Heap): Heap
    decreases |items|
  {
    if items == [] then h
    else
      var (h1, c) := ItemHeap(malloc, items[0], vs, h);
      ItemsHeap(malloc, n, items[1..], vs, WithChild(h1, n, c))
  }

  function BaseHeap(malloc: Malloc, base: Base, vs: seq<Value<nat>>, kind: string, h: Heap): (Heap, Option<nat>) {
    match base
    case Same(k) => (h, NodeAt(vs, k))
    case New(name, text) =>
      var (h1, b) := Created(malloc, h, NamedBy(name, vs, kind), TextBy(text, vs));
      (h1, Just(b))
    case Taking(name, text, k) =>
      var (h1, b) := Created(malloc, h, NamedBy(name, vs, kind), TextBy(text, vs));
      (TookOver(h1, b, NodeAt(vs, k)), Just(b))
  }

  function BuildHeap(malloc: Malloc, base: Base, items: seq<Item>, vs: seq<Value<nat>>, kind: string, h: Heap):
      (Heap, Option<nat>) {
    var (h1, n) := BaseHeap(malloc, base, vs, kind, h);
    (if n.Just? then ItemsHeap(malloc, n.value, items, vs, h1) else h1, n)
  }

  /** `doc_node_free_tree` */
  function FreeTree(h: Heap, a: nat): (r: Heap)
    ensures r.Keys <= h.Keys
    decreases h.Keys, 0
  {
    if a in h then FreeAll(h - {a}, h[a].kids) else h
  }

  function FreeAll(h: Heap, kids: seq<nat>): (r: Heap)
    ensures r.Keys <= h.Keys
    decreases h.Keys, 1 + |kids|
  {
    if kids == [] then h else FreeAll(FreeTree(h, kids[0]), kids[1..])
  }

  /** The nodes, `method_type` and `topnode`. */
  datatype Globals = Globals(heap: Heap, kind: string, top: Option<nat>)

  /** What an action does. */
  function HeapDo(malloc: Malloc, d: Does, vs: seq<Value<nat>>, g: Globals): (Value<nat>, Globals) {
    match d
    case Build(base, items) =>
      var (h, n) := BuildHeap(malloc, base, items, vs, g.kind, g.heap);
      (Doc(n), g.(heap := h))
    case Top => (ValueAt(vs, 0), g.(top := NodeAt(vs, 0)))
    case GiveUp =>
      (ValueAt(vs, 0),
        g.(top := None, heap := if NodeAt(vs, 0).Just? then FreeTree(g.heap, NodeAt(vs, 0).value) else g.heap))
    case _ => (PlainDo(d, vs), g.(kind := KindAfter(d, g.kind)))
  }

  // ----- the tree that a node stands for, and the nodes that make it up

  ghost function Own(h: Heap, a: nat, t: Node): set<nat>
    decreases t
  {
    {a} + if a in h then OwnAll(h, h[a].kids, t.children) else {}
  }

  ghost function OwnAll(h: Heap, kids: seq<nat>, ts: seq<Node>): set<nat>
    decreases ts
  {
    if kids == [] || ts == [] then {}
    else OwnAll(h, kids[..|kids| - 1], ts[..|ts| - 1]) + Own(h, kids[|kids| - 1], ts[|ts| - 1])
  }

  /** The node at `a` is the root of tree `t`, and all nodes below it are different. */
  ghost predicate Holds(h: Heap, a: nat, t: Node)
    decreases t
  {
    && a in h && h[a].id == t.id && h[a].text == t.text
    && a !in OwnAll(h, h[a].kids, t.children) && HoldAll(h, h[a].kids, t.children)
  }

  ghost predicate HoldAll(h: Heap, kids: seq<nat>, ts: seq<Node>)
    decreases ts
  {
    |kids| == |ts| && (kids == [] ||
      var a, t, kids', ts' := kids[|kids| - 1], ts[|ts| - 1], kids[..|kids| - 1], ts[..|ts| - 1];
      HoldAll(h, kids', ts') && Holds(h, a, t) && OwnAll(h, kids', ts') !! Own(h, a, t))
  }

  lemma {:induction false} OwnLive(h: Heap, a: nat, t: Node)
    requires Holds(h, a, t)
    ensures Own(h, a, t) <= h.Keys
    decreases t
  {
    OwnAllLive(h, h[a].kids, t.children);
  }

  lemma {:induction false} OwnAllLive(h: Heap, kids: seq<nat>, ts: seq<Node>)
    requires HoldAll(h, kids, ts)
    ensures OwnAll(h, kids, ts) <= h.Keys
    decreases ts
  {
    if kids != [] {
      OwnAllLive(h, kids[..|kids| - 1], ts[..|ts| - 1]);
      OwnLive(h, kids[|kids| - 1], ts[|ts| - 1]);
    }
  }

  ghost predicate Stay(h: Heap, h': Heap, s: set<nat>) { forall x :: x in s && x in h ==> x in h' && h'[x] == h[x] }

  /** A tree stays what it is while its nodes do. */
  lemma {:induction false} Frame(h: Heap, h': Heap, a: nat, t: Node)
    requires Holds(h, a, t) && Stay(h, h', Own(h, a, t))
    ensures Holds(h', a, t) && Own(h', a, t) == Own(h, a, t)
    decreases t
  {
    FrameAll(h, h', h[a].kids, t.children);
  }

  lemma {:induction false} FrameAll(h: Heap, h': Heap, kids: seq<nat>, ts: seq<Node>)
    requires HoldAll(h, kids, ts) && Stay(h, h', OwnAll(h, kids, ts))
    ensures HoldAll(h', kids, ts) && OwnAll(h', kids, ts) == OwnAll(h, kids, ts)
    decreases ts
  {
    if kids != [] {
      FrameAll(h, h', kids[..|kids| - 1], ts[..|ts| - 1]);
      Frame(h, h', kids[|kids| - 1], ts[|ts| - 1]);
    }
  }

  /** Between two heaps the nodes of `gone` have made way for those of `came`, and all others are what they were. */
  ghost predicate Swaps(h: Heap, h': Heap, gone: set<nat>, came: set<nat>) {
    && gone <= h.Keys && h'.Keys == h.Keys - gone + came && came !! h.Keys - gone
    && forall x :: x in h && x !in gone ==> x in h' && h'[x] == h[x]
  }

  lemma SwapsTwice(h: Heap, h1: Heap, h2: Heap, gone: set<nat>, came: set<nat>, more: set<nat>, came': set<nat>)
    requires Swaps(h, h1, gone, came) && Swaps(h1, h2, came + more, came') && more <= h.Keys - gone
    ensures Swaps(h, h2, gone + more, came')
  {
    assert forall x :: x in h && x !in gone + more ==> x in h1 && x !in came + more;
  }

  lemma SwapsBoth(h: Heap, h1: Heap, h2: Heap, came: set<nat>, came': set<nat>)
    requires Swaps(h, h1, {}, came) && Swaps(h1, h2, {}, came')
    ensures Swaps(h, h2, {}, came + came')
  {}

  /** A tree outside of what is swapped stays. */
  lemma Outside(h: Heap, h': Heap, gone: set<nat>, came: set<nat>, a: nat, t: Node)
    requires Swaps(h, h', gone, came) && Holds(h, a, t) && Own(h, a, t) !! gone
    ensures Holds(h', a, t) && Own(h', a, t) == Own(h, a, t) && Own(h', a, t) !! came
  {
    OwnLive(h, a, t);
    Frame(h, h', a, t);
  }

  // ----- single steps

  ghost predicate HoldsIf(h: Heap, a: Option<nat>, t: Option<Node>) {
    match t
    case None => a.None?
    case Just(t) => a.Just? && Holds(h, a.value, t)
  }

  ghost function OwnIf(h: Heap, a: Option<nat>, t: Option<Node>): set<nat> {
    if a.Just? && t.Just? then Own(h, a.value, t.value) else {}
  }

  lemma OutsideIf(h: Heap, h': Heap, gone: set<nat>, came: set<nat>, a: Option<nat>, t: Option<Node>)
    requires Swaps(h, h', gone, came) && HoldsIf(h, a, t) && OwnIf(h, a, t) !! gone
    ensures HoldsIf(h', a, t) && OwnIf(h', a, t) == OwnIf(h, a, t) && OwnIf(h', a, t) !! came
  {
    if t.Just? { Outside(h, h', gone, came, a.value, t.value); }
  }

  lemma CreatedHolds(malloc: Malloc, h: Heap, id: Id, text: Chars)
    requires MallocOk(malloc)
    ensures var (h', a) := Created(malloc, h, id, text);
      && a !in h && Holds(h', a, Node(id, text, [])) && Own(h', a, Node(id, text, [])) == {a} && Swaps(h, h', {}, {a})
  {}

  /** A node that is changed, but not in its children. */
  lemma RenamedHolds(h: Heap, a: nat, t: Node, id: Id)
    requires Holds(h, a, t)
    ensures var h' := h[a := h[a].(id := id)];
      && Holds(h', a, t.(id := id)) && Own(h', a, t.(id := id)) == Own(h, a, t)
      && Swaps(h, h', Own(h, a, t), Own(h, a, t))
  {
    var h' := h[a := h[a].(id := id)];
    OwnLive(h, a, t);
    FrameAll(h, h', h[a].kids, t.children);
  }

  lemma AppendedHolds(h: Heap, n: nat, t: Node, a: nat, c: Node)
    requires Holds(h, n, t) && Holds(h, a, c) && Own(h, n, t) !! Own(h, a, c)
    ensures var h', t' := WithChild(h, n, Just(a)), Appended(t, Just(c));
      && Holds(h', n, t') && Own(h', n, t') == Own(h, n, t) + Own(h, a, c)
      && Swaps(h, h', Own(h, n, t) + Own(h, a, c), Own(h, n, t) + Own(h, a, c))
  {
    var h', kids := WithChild(h, n, Just(a)), h[n].kids;
    OwnLive(h, n, t);
    OwnLive(h, a, c);
    FrameAll(h, h', kids, t.children);
    Frame(h, h', a, c);
    HoldOneMore(h', kids, t.children, a, c);
  }

  lemma HoldOneMore(h: Heap, kids: seq<nat>, ts: seq<Node>, a: nat, c: Node)
    requires HoldAll(h, kids, ts) && Holds(h, a, c) && OwnAll(h, kids, ts) !! Own(h, a, c)
    ensures HoldAll(h, kids + [a], ts + [c]) && OwnAll(h, kids + [a], ts + [c]) == OwnAll(h, kids, ts) + Own(h, a, c)
  {
    assert (kids + [a])[..|kids + [a]| - 1] == kids && (ts + [c])[..|ts + [c]| - 1] == ts;
  }

  lemma AddHolds(h: Heap, n: nat, t: Node, a: Option<nat>, c: Option<Node>)
    requires Holds(h, n, t) && HoldsIf(h, a, c) && Own(h, n, t) !! OwnIf(h, a, c)
    ensures var h', t' := WithChild(h, n, a), Appended(t, c);
      && Holds(h', n, t') && Own(h', n, t') == Own(h, n, t) + OwnIf(h, a, c)
      && Swaps(h, h', Own(h, n, t) + OwnIf(h, a, c), Own(h', n, t'))
  {
    OwnLive(h, n, t);
    if c.Just? { AppendedHolds(h, n, t, a.value, c.value); }
  }

  /** A new node takes over the children of another, which is freed. */
  lemma TookOverHolds(h: Heap, h1: Heap, b: nat, id: Id, text: Chars, a: Option<nat>, c: Option<Node>)
    requires HoldsIf(h, a, c) && Swaps(h, h1, {}, {b}) && b !in h && Holds(h1, b, Node(id, text, []))
    ensures var h', t := TookOver(h1, b, a), Node(id, text, ChildrenOf(c));
      Holds(h', b, t) && Swaps(h, h', OwnIf(h, a, c), Own(h', b, t))
  {
    if c.Just? {
      var h', kids, ts := TookOver(h1, b, a), h[a.value].kids, c.value.children;
      OwnLive(h, a.value, c.value);
      OwnAllLive(h, kids, ts);
      FrameAll(h, h', kids, ts);
    }
  }

  // ----- values, and what stands for them in memory

  ghost predicate Stands(h: Heap, v: Value<nat>, w: Value<Node>) {
    match w
    case Doc(t) => v.Doc? && HoldsIf(h, v.node, t)
    case Int(i) => v == Int(i)
    case Name(id) => v == Name(id)
    case Str(str) => v == Str(str)
  }

  ghost function OwnOf(h: Heap, v: Value<nat>, w: Value<Node>): set<nat> {
    if v.Doc? && w.Doc? then OwnIf(h, v.node, w.node) else {}
  }

  /** The values at places `ks`, each with nodes of its own. */
  ghost predicate StandAt(h: Heap, vs: seq<Value<nat>>, ws: seq<Value<Node>>, ks: set<nat>) {
    && |vs| == |ws| && (forall k :: k in ks ==> k < |vs| && Stands(h, vs[k], ws[k]))
    && forall k, l :: k in ks && l in ks && k != l ==> OwnOf(h, vs[k], ws[k]) !! OwnOf(h, vs[l], ws[l])
  }

  ghost function OwnAt(h: Heap, vs: seq<Value<nat>>, ws: seq<Value<Node>>, ks: set<nat>): set<nat> {
    set k, x | k in ks && k < |vs| && k < |ws| && x in OwnOf(h, vs[k], ws[k]) :: x
  }

  lemma OutsideOf(h: Heap, h': Heap, gone: set<nat>, came: set<nat>, v: Value<nat>, w: Value<Node>)
    requires Swaps(h, h', gone, came) && Stands(h, v, w) && OwnOf(h, v, w) !! gone
    ensures Stands(h', v, w) && OwnOf(h', v, w) == OwnOf(h, v, w) && OwnOf(h', v, w) !! came
  {
    if w.Doc? { OutsideIf(h, h', gone, came, v.node, w.node); }
  }

  lemma OutsideAt(h: Heap, h': Heap, gone: set<nat>, came: set<nat>, vs: seq<Value<nat>>, ws: seq<Value<Node>>,
                  ks: set<nat>)
    requires Swaps(h, h', gone, came) && StandAt(h, vs, ws, ks) && OwnAt(h, vs, ws, ks) !! gone
    ensures StandAt(h', vs, ws, ks) && OwnAt(h', vs, ws, ks) == OwnAt(h, vs, ws, ks) && OwnAt(h', vs, ws, ks) !! came
  {
    forall k | k in ks
      ensures Stands(h', vs[k], ws[k]) && OwnOf(h', vs[k], ws[k]) == OwnOf(h, vs[k], ws[k])
              && OwnOf(h', vs[k], ws[k]) !! came
    {
      forall x | x in OwnOf(h, vs[k], ws[k]) ensures x !in gone { assert x in OwnAt(h, vs, ws, ks); }
      OutsideOf(h, h', gone, came, vs[k], ws[k]);
    }
  }

  // ----- the items of an action

  function Places(items: seq<Item>): set<nat> { if items == [] then {} else {items[0].k} + Places(items[1..]) }

  predicate Different(items: seq<Item>) {
    items == [] || (items[0].k !in Places(items[1..]) && Different(items[1..]))
  }

  ghost predicate ItemFits(it: Item, ws: seq<Value<Node>>) { it.k < |ws| && (it.Labelled? ==> !ws[it.k].Doc?) }

  lemma ItemHolds(malloc: Malloc, it: Item, vs: seq<Value<nat>>, ws: seq<Value<Node>>, h: Heap)
    requires MallocOk(malloc) && ItemFits(it, ws) && |vs| == |ws| && Stands(h, vs[it.k], ws[it.k])
    ensures var (h1, c) := ItemHeap(malloc, it, vs, h);
      var t := ItemTree(it, ws);
      HoldsIf(h1, c, t) && Swaps(h, h1, OwnOf(h, vs[it.k], ws[it.k]), OwnIf(h1, c, t))
  {
    var a, c := NodeAt(vs, it.k), NodeAt(ws, it.k);
    assert HoldsIf(h, a, c) && OwnIf(h, a, c) == OwnOf(h, vs[it.k], ws[it.k]);
    if c.Just? { OwnLive(h, a.value, c.value); }
    match it
    case Kid(k) =>
    case Renamed(k, id) => if c.Just? { RenamedHolds(h, a.value, c.value, Other(id)); }
    case Holding(id, k) =>
      CreatedHolds(malloc, h, Other(id), NoText);
      var (h1, b) := Created(malloc, h, Other(id), NoText);
      TookOverHolds(h, h1, b, Other(id), NoText, a, c);
    case Labelled(id, k) => CreatedHolds(malloc, h, Other(id), TextAt(vs, k));
  }

  /** The items are added one by one, and nothing but the node and what goes into it changes. */
  lemma {:induction false} ItemsHold(malloc: Malloc, n: nat, t: Node, items: seq<Item>, vs: seq<Value<nat>>,
                                     ws: seq<Value<Node>>, h: Heap)
    requires MallocOk(malloc) && Holds(h, n, t) && StandAt(h, vs, ws, Places(items)) && Different(items)
    requires Own(h, n, t) !! OwnAt(h, vs, ws, Places(items)) && forall it :: it in items ==> ItemFits(it, ws)
    ensures var h', t' := ItemsHeap(malloc, n, items, vs, h), ItemsTree(t, items, ws);
      Holds(h', n, t') && Swaps(h, h', Own(h, n, t) + OwnAt(h, vs, ws, Places(items)), Own(h', n, t'))
    decreases |items|
  {
    if items == [] {
      OwnLive(h, n, t);
      assert OwnAt(h, vs, ws, {}) == {};
    } else {
      var it, rest := items[0], items[1..];
      var h2, t2 := ItemAdded(malloc, n, t, it, Places(rest), vs, ws, h);
      ItemsHold(malloc, n, t2, rest, vs, ws, h2);
      ItemsJoin(malloc, n, t, items, vs, ws, h, h2, t2);
    }
  }

  lemma ItemsJoin(malloc: Malloc, n: nat, t: Node, items: seq<Item>, vs: seq<Value<nat>>, ws: seq<Value<Node>>, h: Heap,
                  h2: Heap, t2: Node)
    requires items != [] && StandAt(h, vs, ws, Places(items)) && Different(items)
    requires var (h1, c) := ItemHeap(malloc, items[0], vs, h);
      h2 == WithChild(h1, n, c) && t2 == Appended(t, ItemTree(items[0], ws))
    requires var k, ks := items[0].k, Places(items[1..]);
      && Swaps(h, h2, Own(h, n, t) + OwnOf(h, vs[k], ws[k]), Own(h2, n, t2))
      && OwnAt(h2, vs, ws, ks) == OwnAt(h, vs, ws, ks) && Own(h, n, t) !! OwnAt(h, vs, ws, ks)
    requires var h', t' := ItemsHeap(malloc, n, items[1..], vs, h2), ItemsTree(t2, items[1..], ws);
      Swaps(h2, h', Own(h2, n, t2) + OwnAt(h2, vs, ws, Places(items[1..])), Own(h', n, t'))
    ensures var h', t' := ItemsHeap(malloc, n, items, vs, h), ItemsTree(t, items, ws);
      Swaps(h, h', Own(h, n, t) + OwnAt(h, vs, ws, Places(items)), Own(h', n, t'))
  {
    var k, ks, h', t' := items[0].k, Places(items[1..]), ItemsHeap(malloc, n, items, vs, h), ItemsTree(t, items, ws);
    PlacesSplit(h, vs, ws, k, ks);
    var gone, more := Own(h, n, t) + OwnOf(h, vs[k], ws[k]), OwnAt(h, vs, ws, ks);
    assert gone + more == Own(h, n, t) + OwnAt(h, vs, ws, {k} + ks);
    SwapsTwice(h, h2, h', gone, Own(h2, n, t2), more, Own(h', n, t'));
  }

  lemma PlacesSplit(h: Heap, vs: seq<Value<nat>>, ws: seq<Value<Node>>, k: nat, ks: set<nat>)
    requires StandAt(h, vs, ws, {k} + ks) && k !in ks
    ensures OwnAt(h, vs, ws, {k} + ks) == OwnOf(h, vs[k], ws[k]) + OwnAt(h, vs, ws, ks)
    ensures OwnOf(h, vs[k], ws[k]) !! OwnAt(h, vs, ws, ks) && OwnAt(h, vs, ws, {k} + ks) <= h.Keys
  {
    forall x | x in OwnOf(h, vs[k], ws[k]) + OwnAt(h, vs, ws, ks) ensures x in OwnAt(h, vs, ws, {k} + ks) {
      if x in OwnOf(h, vs[k], ws[k]) { assert k in {k} + ks; }
    }
    forall l | l in {k} + ks ensures OwnOf(h, vs[l], ws[l]) <= h.Keys {
      if ws[l].Doc? && ws[l].node.Just? { OwnLive(h, vs[l].node.value, ws[l].node.value); }
    }
  }

  /** One item is added, and what stands at other places stays. */
  lemma ItemAdded(malloc: Malloc, n: nat, t: Node, it: Item, ks: set<nat>, vs: seq<Value<nat>>, ws: seq<Value<Node>>,
                  h: Heap) returns (h2: Heap, t2: Node)
    requires MallocOk(malloc) && Holds(h, n, t) && it.k !in ks && StandAt(h, vs, ws, {it.k} + ks)
    requires Own(h, n, t) !! OwnAt(h, vs, ws, {it.k} + ks) && ItemFits(it, ws)
    ensures var (h1, c) := ItemHeap(malloc, it, vs, h);
      h2 == WithChild(h1, n, c) && t2 == Appended(t, ItemTree(it, ws))
    ensures Holds(h2, n, t2) && Swaps(h, h2, Own(h, n, t) + OwnOf(h, vs[it.k], ws[it.k]), Own(h2, n, t2))
    ensures StandAt(h2, vs, ws, ks) && OwnAt(h2, vs, ws, ks) == OwnAt(h, vs, ws, ks)
    ensures OwnAt(h2, vs, ws, ks) !! Own(h2, n, t2) && Own(h, n, t) !! OwnAt(h, vs, ws, ks)
  {
    PlacesSplit(h, vs, ws, it.k, ks);
    h2, t2 := ItemThenAdd(malloc, n, t, it, vs, ws, h);
    OutsideAt(h, h2, Own(h, n, t) + OwnOf(h, vs[it.k], ws[it.k]), Own(h2, n, t2), vs, ws, ks);
  }

  lemma ItemThenAdd(malloc: Malloc, n: nat, t: Node, it: Item, vs: seq<Value<nat>>, ws: seq<Value<Node>>, h: Heap)
      returns (h2: Heap, t2: Node)
    requires MallocOk(malloc) && Holds(h, n, t) && ItemFits(it, ws) && |vs| == |ws| && Stands(h, vs[it.k], ws[it.k])
    requires Own(h, n, t) !! OwnOf(h, vs[it.k], ws[it.k])
    ensures var (h1, c) := ItemHeap(malloc, it, vs, h);
      h2 == WithChild(h1, n, c) && t2 == Appended(t, ItemTree(it, ws))
    ensures Holds(h2, n, t2) && Swaps(h, h2, Own(h, n, t) + OwnOf(h, vs[it.k], ws[it.k]), Own(h2, n, t2))
  {
    var (h1, c) := ItemHeap(malloc, it, vs, h);
    var ct, gone := ItemTree(it, ws), OwnOf(h, vs[it.k], ws[it.k]);
    ItemHolds(malloc, it, vs, ws, h);
    h2, t2 := AddJoin(h, h1, n, t, c, ct, gone);
  }

  lemma AddJoin(h: Heap, h1: Heap, n: nat, t: Node, c: Option<nat>, ct: Option<Node>, gone: set<nat>)
      returns (h2: Heap, t2: Node)
    requires Holds(h, n, t) && HoldsIf(h1, c, ct) && Swaps(h, h1, gone, OwnIf(h1, c, ct)) && Own(h, n, t) !! gone
    ensures h2 == WithChild(h1, n, c) && t2 == Appended(t, ct)
    ensures Holds(h2, n, t2) && Swaps(h, h2, Own(h, n, t) + gone, Own(h2, n, t2))
  {
    h2, t2 := WithChild(h1, n, c), Appended(t, ct);
    Outside(h, h1, gone, OwnIf(h1, c, ct), n, t);
    AddHolds(h1, n, t, c, ct);
    OwnLive(h, n, t);
    SwapsTwice(h, h1, h2, gone, OwnIf(h1, c, ct), Own(h, n, t), Own(h2, n, t2));
    assert gone + Own(h, n, t) == Own(h, n, t) + gone;
  }

  // ----- a whole action

  function BasePlaces(base: Base): set<nat> { if base.New? then {} else {base.k} }

  ghost predicate BaseFits(base: Base, vs: seq<Value<nat>>, ws: seq<Value<Node>>, kind: string) {
    && (!base.New? ==> base.k < |ws|) && BaseTree(base, ws, kind).Just?
    && (!base.Same? ==> NamedBy(base.name, vs, kind) == NamedBy(base.name, ws, kind))
    && (!base.Same? ==> TextBy(base.text, vs) == TextBy(base.text, ws))
  }

  lemma BaseHolds(malloc: Malloc, base: Base, vs: seq<Value<nat>>, ws: seq<Value<Node>>, kind: string, h: Heap)
      returns (h1: Heap, n: Option<nat>, t: Option<Node>)
    requires MallocOk(malloc) && BaseFits(base, vs, ws, kind) && StandAt(h, vs, ws, BasePlaces(base))
    ensures (h1, n) == BaseHeap(malloc, base, vs, kind, h) && t == BaseTree(base, ws, kind) && t.Just?
    ensures HoldsIf(h1, n, t) && Swaps(h, h1, OwnAt(h, vs, ws, BasePlaces(base)), OwnIf(h1, n, t))
  {
    var r := BaseHeap(malloc, base, vs, kind, h);
    h1, n := r.0, r.1;
    t := BaseTree(base, ws, kind);
    if base.New? {
      assert OwnAt(h, vs, ws, {}) == {};
      CreatedHolds(malloc, h, NamedBy(base.name, vs, kind), TextBy(base.text, vs));
    } else {
      var a, c := NodeAt(vs, base.k), NodeAt(ws, base.k);
      PlacesSplit(h, vs, ws, base.k, {});
      assert {base.k} + {} == {base.k} && OwnAt(h, vs, ws, {}) == {};
      assert HoldsIf(h, a, c) && OwnIf(h, a, c) == OwnAt(h, vs, ws, BasePlaces(base));
      if base.Taking? {
        var id, text := NamedBy(base.name, vs, kind), TextBy(base.text, vs);
        CreatedHolds(malloc, h, id, text);
        var (h', b) := Created(malloc, h, id, text);
        TookOverHolds(h, h', b, id, text, a, c);
      }
    }
  }

  lemma BuildHolds(malloc: Malloc, base: Base, items: seq<Item>, vs: seq<Value<nat>>, ws: seq<Value<Node>>,
                   kind: string, h: Heap) returns (h': Heap, n: Option<nat>, t: Option<Node>)
    requires MallocOk(malloc) && BaseFits(base, vs, ws, kind) && forall it :: it in items ==> ItemFits(it, ws)
    requires StandAt(h, vs, ws, BasePlaces(base) + Places(items))
    requires Different(items) && BasePlaces(base) !! Places(items)
    ensures (h', n) == BuildHeap(malloc, base, items, vs, kind, h) && t == BuildTree(base, items, ws, kind)
    ensures HoldsIf(h', n, t) && Swaps(h, h', OwnAt(h, vs, ws, BasePlaces(base) + Places(items)), OwnIf(h', n, t))
  {
    var bs, ks := BasePlaces(base), Places(items);
    var h1, n1, t1 := BaseHolds(malloc, base, vs, ws, kind, h);
    TwoParts(h, vs, ws, bs, ks);
    OutsideAt(h, h1, OwnAt(h, vs, ws, bs), OwnIf(h1, n1, t1), vs, ws, ks);
    ItemsHold(malloc, n1.value, t1.value, items, vs, ws, h1);
    var r := BuildHeap(malloc, base, items, vs, kind, h);
    h', n := r.0, r.1;
    t := BuildTree(base, items, ws, kind);
    SwapsTwice(h, h1, h', OwnAt(h, vs, ws, bs), OwnIf(h1, n1, t1), OwnAt(h, vs, ws, ks), OwnIf(h', n, t));
  }

  lemma TwoParts(h: Heap, vs: seq<Value<nat>>, ws: seq<Value<Node>>, ks: set<nat>, ls: set<nat>)
    requires StandAt(h, vs, ws, ks + ls) && ks !! ls
    ensures OwnAt(h, vs, ws, ks + ls) == OwnAt(h, vs, ws, ks) + OwnAt(h, vs, ws, ls)
    ensures OwnAt(h, vs, ws, ks) !! OwnAt(h, vs, ws, ls) && OwnAt(h, vs, ws, ks + ls) <= h.Keys
    ensures StandAt(h, vs, ws, ks) && StandAt(h, vs, ws, ls)
  {
    forall k | k in ks + ls ensures OwnOf(h, vs[k], ws[k]) <= h.Keys {
      if ws[k].Doc? && ws[k].node.Just? { OwnLive(h, vs[k].node.value, ws[k].node.value); }
    }
  }

  // ----- the actions of the grammar

  lemma {:induction false} PlacesUsed(items: seq<Item>)
    ensures forall k :: k in Places(items) <==> k in ItemUses(items)
    ensures Ascending(ItemUses(items)) ==> Different(items)
  {
    if items != [] {
      PlacesUsed(items[1..]);
      AscendingParts([items[0].k], ItemUses(items[1..]));
      assert items[0].k in [items[0].k];
    }
  }

  lemma AscendingParts(a: seq<nat>, b: seq<nat>)
    ensures Ascending(a + b) ==> Ascending(a) && Ascending(b) && forall x, y :: x in a && y in b ==> x < y
  {
    if Ascending(a + b) {
      forall i, j | 0 <= i < j < |a| ensures a[i] < a[j] { assert (a + b)[i] < (a + b)[j]; }
      forall i, j | 0 <= i < j < |b| ensures b[i] < b[j] { assert (a + b)[|a| + i] < (a + b)[|a| + j]; }
      forall x, y | x in a && y in b ensures x < y {
        var i :| 0 <= i < |a| && a[i] == x;
        var j :| 0 <= j < |b| && b[j] == y;
        assert (a + b)[i] < (a + b)[|a| + j];
      }
    }
  }

  /** The places of an action are different. */
  lemma PlacesApart(r: Rule)
    requires RuleOk(r) && r.does.Build?
    ensures Different(r.does.items) && BasePlaces(r.does.base) !! Places(r.does.items)
  {
    var items := r.does.items;
    PlacesUsed(items);
    match r.does.base
    case Same(k) =>
      AscendingParts([k], ItemUses(items));
      assert k in [k];
    case New(name, text) =>
      if name.MethodKind? {
        MethodPlaces(items, TextUses(text));
      } else {
        AscendingParts(TextUses(text), ItemUses(items));
      }
    case Taking(_, text, k) =>
      AscendingParts(TextUses(text) + [k], ItemUses(items));
      assert k in TextUses(text) + [k];
  }

  /** They hold all nodes of the right hand side. */
  lemma PlacesOfNodes(r: Rule, k: nat)
    requires RuleOk(r) && r.does.Build? && k < |r.rhs| && SortOf(r.rhs[k]).Tree?
    ensures k in BasePlaces(r.does.base) + Places(r.does.items)
  {
    var items := r.does.items;
    PlacesUsed(items);
    assert k in Uses(r);
    if !r.does.base.Same? { assert k !in TextUses(r.does.base.text); }
  }

  lemma MethodPlaces(items: seq<Item>, text: seq<nat>)
    requires items != [] && Ascending([items[0].k] + text + ItemUses(items[1..]))
    ensures Different(items)
  {
    var us := ItemUses(items[1..]);
    AscendingParts([items[0].k] + text, us);
    assert items[0].k in [items[0].k] + text;
    PlacesUsed(items[1..]);
  }

  ghost predicate AllStand(h: Heap, vs: seq<Value<nat>>, ws: seq<Value<Node>>) {
    && |vs| == |ws| && (forall k :: 0 <= k < |vs| ==> Stands(h, vs[k], ws[k]))
    && forall k, l :: 0 <= k < l < |vs| ==> OwnOf(h, vs[k], ws[k]) !! OwnOf(h, vs[l], ws[l])
  }

  ghost function OwnOfAll(h: Heap, vs: seq<Value<nat>>, ws: seq<Value<Node>>): set<nat> {
    set k, x | 0 <= k < |vs| && k < |ws| && x in OwnOf(h, vs[k], ws[k]) :: x
  }

  /** Only nodes have a share in memory. */
  lemma NodesOwn(h: Heap, vs: seq<Value<nat>>, ws: seq<Value<Node>>, xs: seq<nat>, ks: set<nat>)
    requires AllStand(h, vs, ws) && AllFit(ws, xs) && forall k :: k in ks ==> k < |xs|
    requires forall k :: 0 <= k < |xs| && SortOf(xs[k]).Tree? ==> k in ks
    ensures StandAt(h, vs, ws, ks) && OwnOfAll(h, vs, ws) == OwnAt(h, vs, ws, ks)
  {
    forall x | x in OwnOfAll(h, vs, ws) ensures x in OwnAt(h, vs, ws, ks) {
      var k :| 0 <= k < |vs| && x in OwnOf(h, vs[k], ws[k]);
      assert Fits(ws[k], SortOf(xs[k]));
    }
  }

  /** Values that are no nodes are the same in memory as in the meaning. */
  lemma SameValues(h: Heap, vs: seq<Value<nat>>, ws: seq<Value<Node>>, k: nat)
    requires AllStand(h, vs, ws)
    ensures TextAt(vs, k) == TextAt(ws, k) && IdAt(vs, k) == IdAt(ws, k)
  {
    if k < |vs| { assert Stands(h, vs[k], ws[k]); }
  }

  lemma BuildsWell(malloc: Malloc, r: Rule, vs: seq<Value<nat>>, ws: seq<Value<Node>>, g: Globals)
    requires MallocOk(malloc) && RuleOk(r) && r.does.Build? && AllFit(ws, r.rhs) && AllStand(g.heap, vs, ws)
    requires IsMethodName(g.kind)
    ensures var (v, g') := HeapDo(malloc, r.does, vs, g);
      var (w, kind') := TreeDo(r.does, ws, g.kind);
      && Stands(g'.heap, v, w) && Swaps(g.heap, g'.heap, OwnOfAll(g.heap, vs, ws), OwnOf(g'.heap, v, w))
      && g'.kind == kind' && g'.top == g.top
  {
    var base, items := r.does.base, r.does.items;
    BuildPlaces(r, vs, ws, g.heap);
    BuildFits(r, vs, ws, g);
    var h', n, t := BuildHolds(malloc, base, items, vs, ws, g.kind, g.heap);
  }

  lemma BuildPlaces(r: Rule, vs: seq<Value<nat>>, ws: seq<Value<Node>>, h: Heap)
    requires RuleOk(r) && r.does.Build? && AllFit(ws, r.rhs) && AllStand(h, vs, ws)
    ensures var ks := BasePlaces(r.does.base) + Places(r.does.items);
      StandAt(h, vs, ws, ks) && OwnOfAll(h, vs, ws) == OwnAt(h, vs, ws, ks)
    ensures Different(r.does.items) && BasePlaces(r.does.base) !! Places(r.does.items)
  {
    var ks := BasePlaces(r.does.base) + Places(r.does.items);
    ItemsWithin(r);
    PlacesApart(r);
    forall k | k in ks ensures k < |r.rhs| { if k in Places(r.does.items) { UsesOfItems(r.does.items, k); } }
    forall k | 0 <= k < |r.rhs| && SortOf(r.rhs[k]).Tree? ensures k in ks { PlacesOfNodes(r, k); }
    NodesOwn(h, vs, ws, r.rhs, ks);
  }

  lemma BuildFits(r: Rule, vs: seq<Value<nat>>, ws: seq<Value<Node>>, g: Globals)
    requires RuleOk(r) && r.does.Build? && AllFit(ws, r.rhs) && AllStand(g.heap, vs, ws) && IsMethodName(g.kind)
    ensures BaseFits(r.does.base, vs, ws, g.kind) && forall it :: it in r.does.items ==> ItemFits(it, ws)
  {
    var base, items := r.does.base, r.does.items;
    ItemsWithin(r);
    BaseSorted(r, ws, g.kind);
    if !base.Same? {
      if base.name.OfKid? { SameValues(g.heap, vs, ws, base.name.k); }
      if base.text.TheKid? { SameValues(g.heap, vs, ws, base.text.k); }
    }
    forall it | it in items ensures ItemFits(it, ws) { assert Fits(ws[it.k], SortOf(r.rhs[it.k])); }
  }

  lemma {:induction false} UsesOfItems(items: seq<Item>, k: nat)
    requires k in Places(items)
    ensures exists it :: it in items && it.k == k
  {
    if items[0].k == k {
      assert items[0] in items;
    } else {
      UsesOfItems(items[1..], k);
    }
  }

  /** Every action of the grammar does to the nodes in memory what it does to trees: the nodes of the values it is given
      make way for those of the value it gives, and no other node changes. */
  lemma DoHolds(malloc: Malloc, r: Rule, vs: seq<Value<nat>>, ws: seq<Value<Node>>, g: Globals)
    requires MallocOk(malloc) && RuleOk(r) && AllFit(ws, r.rhs) && AllStand(g.heap, vs, ws) && IsMethodName(g.kind)
    ensures var (v, g') := HeapDo(malloc, r.does, vs, g);
      var (w, kind') := TreeDo(r.does, ws, g.kind);
      && Stands(g'.heap, v, w) && Swaps(g.heap, g'.heap, OwnOfAll(g.heap, vs, ws), OwnOf(g'.heap, v, w))
      && g'.kind == kind' && g'.top == g.top
  {
    if r.does.Build? {
      BuildsWell(malloc, r, vs, ws, g);
    } else {
      SameValues(g.heap, vs, ws, 0);
      SameValues(g.heap, vs, ws, 1);
      if r.does.Pass? && r.rhs != [] {
        assert OwnOfAll(g.heap, vs, ws) == OwnOf(g.heap, vs[0], ws[0]);
        if ws[0].Doc? && ws[0].node.Just? { OwnLive(g.heap, vs[0].node.value, ws[0].node.value); }
      } else {
        NodesOwn(g.heap, vs, ws, r.rhs, {});
        assert OwnAt(g.heap, vs, ws, {}) == {};
      }
    }
  }

  // ----- freeing a tree

  lemma {:induction false} FreeOneMore(h: Heap, kids: seq<nat>, a: nat)
    ensures FreeAll(h, kids + [a]) == FreeTree(FreeAll(h, kids), a)
    decreases |kids|
  {
    if kids == [] {
      assert (kids + [a])[1..] == [];
    } else {
      assert (kids + [a])[1..] == kids[1..] + [a];
      FreeOneMore(FreeTree(h, kids[0]), kids[1..], a);
    }
  }

  /** `doc_node_free_tree` frees the nodes of the tree, and these alone. */
  lemma {:induction false} FreeTreeFrees(h: Heap, a: nat, t: Node)
    requires Holds(h, a, t)
    ensures FreeTree(h, a) == h - Own(h, a, t)
    decreases t
  {
    var kids := h[a].kids;
    FrameAll(h, h - {a}, kids, t.children);
    FreeAllFrees(h - {a}, kids, t.children);
    assert h - {a} - OwnAll(h, kids, t.children) == h - Own(h, a, t);
  }

  lemma {:induction false} FreeAllFrees(h: Heap, kids: seq<nat>, ts: seq<Node>)
    requires HoldAll(h, kids, ts)
    ensures FreeAll(h, kids) == h - OwnAll(h, kids, ts)
    decreases ts
  {
    if kids != [] {
      var a, t, kids', ts' := kids[|kids| - 1], ts[|ts| - 1], kids[..|kids| - 1], ts[..|ts| - 1];
      FreeAllFrees(h, kids', ts');
      var h1 := h - OwnAll(h, kids', ts');
      Frame(h, h1, a, t);
      FreeTreeFrees(h1, a, t);
      assert kids == kids' + [a];
      FreeOneMore(h, kids', a);
      assert h1 - Own(h, a, t) == h - OwnAll(h, kids, ts);
    }
  }
}
