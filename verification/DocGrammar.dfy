/** The grammar of help documents (SCDoc.y), with what the semantic action of each rule does, as data. */
module DocGrammar {
  import opened DocTree

  datatype Option<+T> = None | Just(value: T)

  /** `YYSTYPE`; what a document node is depends on who looks at it. */
  datatype Value<+N> = Int(i: int) | Name(id: Id) | Str(str: Chars) | Doc(node: Option<N>)

  // ----- what actions do

  /** The id of a new node: given, the value of a symbol, or what `method_type` makes of it. Symbols of a right hand
      side are counted from 0. */
  datatype NodeName = Fixed(id: Id) | OfKid(k: nat) | MethodKind | CopyKind | PrivateKind

  datatype KidText = NoKid | TheKid(k: nat)

  /** A child that is added: the node of a symbol, the same with another id, a new node that takes over the children
      of a symbol's node, or a new node with the text of a symbol. */
  datatype Item = Kid(k: nat) | Renamed(k: nat, id: string) | Holding(id: string, k: nat) | Labelled(id: string, k: nat)

  /** Where children are added: to the node of a symbol, to a new node, or to a new node that first takes over the
      children of a symbol's node. */
  datatype Base = Same(k: nat) | New(name: NodeName, text: KidText) | Taking(name: NodeName, text: KidText, k: nat)

  /** `Pass` hands on the value of the first symbol, `Join` is `strmerge` of the first two, `Strip` takes an underscore
      from the end, and `Break` is the text of a line break. `TagFor` and `For` set `method_type`, `Top` and `GiveUp`
      set `topnode`. */
  datatype Does = Pass | Tag(id: string) | TagFor(id: string, kind: string) | For(kind: string) | NoNode | NoStr | Strip
    | Join | Break | Top | GiveUp | Build(base: Base, items: seq<Item>)

  /** A rule, with the symbol whose text its action gives up, if any. Symbols are numbered as in `yytname`. */
  datatype Rule = Rule(lhs: nat, rhs: seq<nat>, does: Does, drops: Option<nat>)

  const RULES := 135
  const NTOKENS := 57
  const START := 58
  const DOCUMENT := 59
  const ERROR := 1

  // ----- what kinds of values symbols have

  /** What a symbol stands for: a whole document, nothing of use, an id, text that may be missing, or a node. A node may
      be missing, may be bare, that is without text and no method, so that its children can be handed on, and may be a
      piece of prose. */
  datatype Sort = Whole | Plain | TagSort | Words(missing: bool) | Tree(missing: bool, bare: bool, piece: bool)

  function SortOf(x: nat): Sort {
    if x <= START then
      if x == START then Whole else if 46 <= x <= 50 then Words(false) else Plain
    else if x <= 74 then
      match x
      case 60 | 68 => Plain
      case 63 | 64 => TagSort
      case 61 | 66 | 70 | 73 => Tree(false, true, false)
      case 69 | 72 => Tree(true, true, false)
      case _ => Tree(false, false, false)
    else if x <= 90 then
      match x
      case 75 => Words(true)
      case 76 => Words(false)
      case 78 | 82 => Tree(false, false, false)
      case 79 => Tree(true, true, false)
      case 80 | 83 | 84 | 88 => Tree(true, false, false)
      case 90 => Tree(false, false, true)
      case _ => Tree(false, true, false)
    else if x <= 101 then
      if x <= 94 then TagSort else Tree(false, x != 96 && x != 100, false)
    else if x <= 110 then
      if x == 106 || x == 107 then Plain else Words(false)
    else if x == 111 then Tree(false, true, false)
    else Plain
  }

  /** A value of the one sort is as good as one of the other. */
  predicate Within(a: Sort, b: Sort) {
    match (a, b)
    case (Words(m), Words(m')) => m ==> m'
    case (Tree(m, r, p), Tree(m', r', p')) => (m ==> m') && (r' ==> r) && (p ==> p')
    case _ => a == b
  }

  function TextUses(text: KidText): seq<nat> { if text.TheKid? then [text.k] else [] }

  function ItemUses(items: seq<Item>): seq<nat> {
    if items == [] then [] else [items[0].k] + ItemUses(items[1..])
  }

  /** The symbols whose nodes and texts go into a new node, in the order in which a reader meets them. A method has its
      names before its arguments. */
  function BuildUses(base: Base, items: seq<Item>): seq<nat> {
    match base
    case Same(k) => [k] + ItemUses(items)
    case New(MethodKind, text) =>
      if items == [] then TextUses(text) else [items[0].k] + TextUses(text) + ItemUses(items[1..])
    case New(_, text) => TextUses(text) + ItemUses(items)
    case Taking(_, text, k) => TextUses(text) + [k] + ItemUses(items)
  }

  function Uses(r: Rule): seq<nat> {
    match r.does
    case Build(base, items) => BuildUses(base, items)
    case Pass => if r.rhs == [] then [] else [0]
    case Strip => [0]
    case Join => [0, 1]
    case _ => []
  }

  predicate Ascending(s: seq<nat>) { forall i, j :: 0 <= i < j < |s| ==> s[i] < s[j] }

  function KidSort(r: Rule, k: nat): Sort { if k < |r.rhs| then SortOf(r.rhs[k]) else Plain }

  predicate NameOk(r: Rule, name: NodeName, piece: bool) {
    match name
    case Fixed(id) => (piece || id.Other?) && (id.Other? ==> !IsMethodName(id.name))
    case OfKid(k) => KidSort(r, k) == TagSort
    case _ => true
  }

  predicate IsMethodName(s: string) {
    (|s| == 6 && s == "METHOD") || (|s| == 7 && (s == "CMETHOD" || s == "IMETHOD"))
  }

  predicate TextOk(r: Rule, text: KidText) { text.TheKid? ==> KidSort(r, text.k).Words? }

  predicate ItemOk(r: Rule, it: Item) {
    match it
    case Kid(k) => KidSort(r, k).Tree?
    case Renamed(k, id) => KidSort(r, k) == Tree(false, true, false) && !IsMethodName(id)
    case Holding(id, k) => KidSort(r, k).Tree? && KidSort(r, k).bare && !IsMethodName(id)
    case Labelled(id, k) => KidSort(r, k).Words? && !IsMethodName(id)
  }

  predicate BaseOk(r: Rule, base: Base, items: seq<Item>) {
    var s := SortOf(r.lhs);
    && s.Tree?
    && match base
       case Same(k) =>
         && KidSort(r, k) == Tree(false, true, false) && !s.piece
         && k == 0 && |items| == 1 && 0 < items[0].k == |r.rhs| - 1
       case New(name, text) =>
         && NameOk(r, name, s.piece && items == []) && TextOk(r, text)
         && (name == Fixed(Text) ==> text.TheKid? && KidSort(r, text.k) == Words(false))
         && (name == Fixed(NL) ==> text.NoKid?)
         && (s.bare ==> text.NoKid? && name != MethodKind)
         && (name == MethodKind ==> items != [] && items[0].Renamed?)
       case Taking(name, text, k) =>
         && NameOk(r, name, false) && TextOk(r, text) && name != MethodKind
         && KidSort(r, k).Tree? && KidSort(r, k).bare && (s.bare ==> text.NoKid?)
  }

  /** Each symbol with a node or a text is used once, in order, or given up. */
  predicate UsesOk(r: Rule, uses: seq<nat>) {
    && Ascending(uses) && (forall i :: 0 <= i < |uses| ==> uses[i] < |r.rhs|)
    && (forall k :: 0 <= k < |r.rhs| && r.drops != Just(k) ==>
      k in uses || SortOf(r.rhs[k]).Plain? || SortOf(r.rhs[k]).TagSort?)
    && (r.drops.Just? ==>
      r.drops.value < |r.rhs| && r.drops.value !in uses && SortOf(r.rhs[r.drops.value]).Words?)
  }

  /** An action treats values by their sorts, uses each node and each text of the right hand side once, in order, and
      gives a value of the sort of the left hand side. */
  predicate RuleOk(r: Rule) {
    && UsesOk(r, Uses(r)) && (forall k :: 0 <= k < |r.rhs| ==> !SortOf(r.rhs[k]).Whole?)
    && match r.does
       case Build(base, items) => BaseOk(r, base, items) && forall i :: 0 <= i < |items| ==> ItemOk(r, items[i])
       case Pass =>
         if r.rhs == [] then SortOf(r.lhs).Plain? else |r.rhs| == 1 && Within(SortOf(r.rhs[0]), SortOf(r.lhs))
       case Tag(id) => SortOf(r.lhs).TagSort? && !IsMethodName(id)
       case TagFor(id, kind) => SortOf(r.lhs).TagSort? && !IsMethodName(id) && IsMethodName(kind)
       case For(kind) => SortOf(r.lhs).Plain? && IsMethodName(kind)
       case NoNode => SortOf(r.lhs).Tree? && SortOf(r.lhs).missing
       case NoStr => SortOf(r.lhs) == Words(true)
       case Strip => |r.rhs| == 1 && SortOf(r.rhs[0]) == Words(false) == SortOf(r.lhs)
       case Join => |r.rhs| == 2 && SortOf(r.rhs[0]) == SortOf(r.rhs[1]) == Words(false) == SortOf(r.lhs)
       case Break => SortOf(r.lhs) == Words(false) && r.drops.None?
       case Top => false
       case GiveUp => false
  }


  // ----- the shapes that rules have

  predicate AllPlain(xs: seq<nat>) { forall i :: 0 <= i < |xs| ==> SortOf(xs[i]).Plain? }

  lemma FewUses(items: seq<Item>)
    ensures |items| == 1 ==> ItemUses(items) == [items[0].k]
    ensures |items| == 2 ==> ItemUses(items) == [items[0].k, items[1].k]
    ensures |items| == 3 ==> ItemUses(items) == [items[0].k, items[1].k, items[2].k]
  {
    if |items| > 1 { FewUses(items[1..]); }
  }

  lemma AllFour(r: Rule)
    requires Uses(r) == [0] + [1, 2, 3] && |r.rhs| == 4 && r.drops.None?
    requires SortOf(r.rhs[0]).Tree? && SortOf(r.rhs[1]).Tree? && SortOf(r.rhs[2]).Tree? && SortOf(r.rhs[3]).Tree?
    ensures UsesOk(r, Uses(r)) && forall k :: 0 <= k < |r.rhs| ==> SortOf(r.rhs[k]).Tree?
  {
    var uses := Uses(r);
    assert uses[0] == 0 && uses[1] == 1 && uses[2] == 2 && uses[3] == 3;
    forall k: nat | k < 4 ensures k in uses { assert uses[k] == k; }
  }

  lemma OneUsed(r: Rule, before: seq<nat>, after: seq<nat>)
    requires Uses(r) == [|before|] && r.drops.None? && AllPlain(before) && AllPlain(after)
    requires |r.rhs| == |before| + 1 + |after| && r.rhs[..|before|] == before && r.rhs[|before| + 1..] == after
    requires !SortOf(r.rhs[|before|]).Whole?
    ensures UsesOk(r, Uses(r)) && forall k :: 0 <= k < |r.rhs| ==> !SortOf(r.rhs[k]).Whole?
  {
    assert Uses(r)[0] == |before|;
    forall k: nat | k < |r.rhs| && k != |before| ensures SortOf(r.rhs[k]).Plain? {
      if k < |before| { assert r.rhs[k] == before[k]; } else { assert r.rhs[k] == after[k - |before| - 1]; }
    }
  }

  lemma LastTwo(r: Rule, before: seq<nat>)
    requires Uses(r) == [] + [|before|, |before| + 1] && |r.rhs| == |before| + 2 && r.drops.None?
    requires AllPlain(before) && r.rhs[..|before|] == before
    ensures UsesOk(r, Uses(r))
  {
    var uses := Uses(r);
    assert uses[0] == |before| && uses[1] == |before| + 1;
    forall k: nat | k < |r.rhs| && k !in uses ensures SortOf(r.rhs[k]).Plain? {
      assert k < |before| && r.rhs[k] == before[k];
    }
  }

  lemma MethodUses(r: Rule)
    requires Uses(r) == [1] + [2] + [4] && |r.rhs| == 5 && r.drops.None?
    requires SortOf(r.rhs[0]).Plain? && SortOf(r.rhs[3]).Plain?
    ensures UsesOk(r, Uses(r))
  {
    var uses := Uses(r);
    assert uses[0] == 1 && uses[1] == 2 && uses[2] == 4;
  }

  const BARE := Tree(false, true, false)
  const NODE := Tree(false, false, false)
  const WORDS := Words(false)

  /** Nothing, of no use. */
  function Nothing(l: nat): Rule { Rule(l, [], Pass, None) }

  lemma NothingOk(l: nat)
    requires SortOf(l).Plain?
    ensures RuleOk(Nothing(l))
  {}

  /** One symbol for another. */
  function Hands(l: nat, x: nat): Rule { Rule(l, [x], Pass, None) }

  lemma HandsOk(l: nat, x: nat)
    requires Within(SortOf(x), SortOf(l)) && !SortOf(x).Whole?
    ensures RuleOk(Hands(l, x))
  {}

  function Tags(l: nat, x: nat, id: string): Rule { Rule(l, [x], Tag(id), None) }

  lemma TagsOk(l: nat, x: nat, id: string)
    requires SortOf(l).TagSort? && SortOf(x).Plain? && !IsMethodName(id)
    ensures RuleOk(Tags(l, x, id))
  {}

  function TagsFor(l: nat, x: nat, id: string, kind: string): Rule { Rule(l, [x], TagFor(id, kind), None) }

  lemma TagsForOk(l: nat, x: nat, id: string, kind: string)
    requires SortOf(l).TagSort? && SortOf(x).Plain? && !IsMethodName(id) && IsMethodName(kind)
    ensures RuleOk(TagsFor(l, x, id, kind))
  {}

  function Chooses(l: nat, kind: string): Rule { Rule(l, [], For(kind), None) }

  lemma ChoosesOk(l: nat, kind: string)
    requires SortOf(l).Plain? && IsMethodName(kind)
    ensures RuleOk(Chooses(l, kind))
  {}

  function Lacks(l: nat, xs: seq<nat>): Rule { Rule(l, xs, NoNode, None) }

  lemma LacksOk(l: nat, xs: seq<nat>)
    requires SortOf(l).Tree? && SortOf(l).missing && AllPlain(xs)
    ensures RuleOk(Lacks(l, xs))
  {}

  function LacksWords(l: nat): Rule { Rule(l, [], NoStr, None) }

  lemma LacksWordsOk(l: nat)
    requires SortOf(l) == Words(true)
    ensures RuleOk(LacksWords(l))
  {}

  function Strips(l: nat, x: nat): Rule { Rule(l, [x], Strip, None) }

  lemma StripsOk(l: nat, x: nat)
    requires SortOf(l) == SortOf(x) == WORDS
    ensures RuleOk(Strips(l, x))
  {}

  function Concats(l: nat, x: nat, y: nat): Rule { Rule(l, [x, y], Join, None) }

  lemma ConcatsOk(l: nat, x: nat, y: nat)
    requires SortOf(l) == SortOf(x) == SortOf(y) == WORDS
    ensures RuleOk(Concats(l, x, y))
  {}

  function Breaks(l: nat, x: nat): Rule { Rule(l, [x], Break, None) }

  lemma BreaksOk(l: nat, x: nat)
    requires SortOf(l) == WORDS && SortOf(x).Plain?
    ensures RuleOk(Breaks(l, x))
  {}

  /** A list and one node more. */
  function Adds(l: nat, x: nat, y: nat): Rule { Rule(l, [x, y], Build(Same(0), [Kid(1)]), None) }

  lemma AddsOk(l: nat, x: nat, y: nat)
    requires SortOf(l) == SortOf(x) == BARE && SortOf(y).Tree?
    ensures RuleOk(Adds(l, x, y))
  {}

  function AddsHolding(l: nat, x: nat, w: nat, id: string, y: nat): Rule {
    Rule(l, [x, w, y], Build(Same(0), [Holding(id, 2)]), None)
  }

  lemma AddsHoldingOk(l: nat, x: nat, w: nat, id: string, y: nat)
    requires SortOf(l) == SortOf(x) == BARE && SortOf(w).Plain? && SortOf(y).Tree? && SortOf(y).bare
    requires !IsMethodName(id)
    ensures RuleOk(AddsHolding(l, x, w, id, y))
  {
    var r := AddsHolding(l, x, w, id, y);
    FewUses(r.does.items);
    assert Uses(r) == [0, 2];
  }

  function AddsLabelled(l: nat, x: nat, comma: nat, y: nat): Rule {
    Rule(l, [x, comma, y], Build(Same(0), [Labelled("STRING", 2)]), Just(1))
  }

  lemma AddsLabelledOk(l: nat, x: nat, comma: nat, y: nat)
    requires SortOf(l) == SortOf(x) == BARE && SortOf(comma).Words? && SortOf(y).Words?
    ensures RuleOk(AddsLabelled(l, x, comma, y))
  {}

  function Begins0(l: nat, id: string): Rule { Rule(l, [], Build(New(Fixed(Other(id)), NoKid), []), None) }

  lemma Begins0Ok(l: nat, id: string)
    requires SortOf(l).Tree? && !IsMethodName(id)
    ensures RuleOk(Begins0(l, id))
  {}

  /** A list of one. */
  function Begins(l: nat, id: string, x: nat): Rule {
    Rule(l, [x], Build(New(Fixed(Other(id)), NoKid), [Kid(0)]), None)
  }

  lemma BeginsOk(l: nat, id: string, x: nat)
    requires SortOf(l).Tree? && SortOf(x).Tree? && !IsMethodName(id)
    ensures RuleOk(Begins(l, id, x))
  {}

  function BeginsHolding(l: nat, id: string, before: seq<nat>, id': string, x: nat): Rule {
    Rule(l, before + [x], Build(New(Fixed(Other(id)), NoKid), [Holding(id', |before|)]), None)
  }

  lemma BeginsHoldingOk(l: nat, id: string, before: seq<nat>, id': string, x: nat)
    requires SortOf(l).Tree? && AllPlain(before) && SortOf(x).Tree? && SortOf(x).bare
    requires !IsMethodName(id) && !IsMethodName(id')
    ensures RuleOk(BeginsHolding(l, id, before, id', x))
  {
    var r := BeginsHolding(l, id, before, id', x);
    FewUses(r.does.items);
    OneUsed(r, before, []);
  }

  function BeginsLabelled(l: nat, id: string, x: nat): Rule {
    Rule(l, [x], Build(New(Fixed(Other(id)), NoKid), [Labelled("STRING", 0)]), None)
  }

  lemma BeginsLabelledOk(l: nat, id: string, x: nat)
    requires SortOf(l).Tree? && SortOf(x).Words? && !IsMethodName(id)
    ensures RuleOk(BeginsLabelled(l, id, x))
  {}

  /** A node of two. */
  function Encloses(l: nat, id: string, before: seq<nat>, x: nat, y: nat): Rule {
    Rule(l, before + [x, y], Build(New(Fixed(Other(id)), NoKid), [Kid(|before|), Kid(|before| + 1)]), None)
  }

  lemma EnclosesOk(l: nat, id: string, before: seq<nat>, x: nat, y: nat)
    requires SortOf(l) == NODE && AllPlain(before) && SortOf(x).Tree? && SortOf(y).Tree? && !IsMethodName(id)
    ensures RuleOk(Encloses(l, id, before, x, y))
  {
    var r := Encloses(l, id, before, x, y);
    FewUses(r.does.items);
    LastTwo(r, before);
  }

  /** A list under another id. */
  function Wraps(l: nat, id: string, before: seq<nat>, x: nat, after: seq<nat>): Rule {
    Rule(l, before + [x] + after, Build(Taking(Fixed(Other(id)), NoKid, |before|), []), None)
  }

  lemma WrapsOk(l: nat, id: string, before: seq<nat>, x: nat, after: seq<nat>)
    requires SortOf(l).Tree? && AllPlain(before) && SortOf(x).Tree? && SortOf(x).bare && AllPlain(after)
    requires !IsMethodName(id)
    ensures RuleOk(Wraps(l, id, before, x, after))
  {
    var r := Wraps(l, id, before, x, after);
    OneUsed(r, before, after);
  }

  function WrapsAs(l: nat, t: nat, x: nat, after: seq<nat>): Rule {
    Rule(l, [t, x] + after, Build(Taking(OfKid(0), NoKid, 1), []), None)
  }

  lemma WrapsAsOk(l: nat, t: nat, x: nat, after: seq<nat>)
    requires SortOf(l).Tree? && SortOf(t).TagSort? && SortOf(x).Tree? && SortOf(x).bare && AllPlain(after)
    ensures RuleOk(WrapsAs(l, t, x, after))
  {}

  /** A list with a title. */
  function Titles(l: nat, id: string, before: seq<nat>, w: nat, x: nat, y: nat): Rule {
    Rule(l, before + [w, x, y], Build(Taking(Fixed(Other(id)), TheKid(|before|), |before| + 2), []), None)
  }

  lemma TitlesOk(l: nat, id: string, before: seq<nat>, w: nat, x: nat, y: nat)
    requires SortOf(l) == NODE && AllPlain(before) && SortOf(w).Words? && SortOf(x).Plain?
    requires SortOf(y).Tree? && SortOf(y).bare && !IsMethodName(id)
    ensures RuleOk(Titles(l, id, before, w, x, y))
  {}

  /** A node of words. */
  function Writes(l: nat, id: string, before: seq<nat>, w: nat, after: seq<nat>): Rule {
    Rule(l, before + [w] + after, Build(New(Fixed(Other(id)), TheKid(|before|)), []), None)
  }

  lemma WritesOk(l: nat, id: string, before: seq<nat>, w: nat, after: seq<nat>)
    requires SortOf(l).Tree? && !SortOf(l).bare && AllPlain(before) && SortOf(w).Words? && AllPlain(after)
    requires !IsMethodName(id)
    ensures RuleOk(Writes(l, id, before, w, after))
  {
    var r := Writes(l, id, before, w, after);
    OneUsed(r, before, after);
  }

  function WritesAs(l: nat, t: nat, w: nat, after: seq<nat>): Rule {
    Rule(l, [t, w] + after, Build(New(OfKid(0), TheKid(1)), []), None)
  }

  lemma WritesAsOk(l: nat, t: nat, w: nat, after: seq<nat>)
    requires SortOf(l).Tree? && !SortOf(l).bare && SortOf(t).TagSort? && SortOf(w).Words? && AllPlain(after)
    ensures RuleOk(WritesAs(l, t, w, after))
  {}

  function Texts(l: nat, w: nat): Rule { Rule(l, [w], Build(New(Fixed(Text), TheKid(0)), []), None) }

  lemma TextsOk(l: nat, w: nat)
    requires SortOf(l) == Tree(false, false, true) && SortOf(w) == WORDS
    ensures RuleOk(Texts(l, w))
  {}

  function LineBreaks(l: nat, x: nat): Rule { Rule(l, [x], Build(New(Fixed(NL), NoKid), []), None) }

  lemma LineBreaksOk(l: nat, x: nat)
    requires SortOf(l) == Tree(false, false, true) && SortOf(x).Plain?
    ensures RuleOk(LineBreaks(l, x))
  {}

  /** A method: its names, its arguments and its description. */
  function Methods(l: nat, x: nat, names: nat, arguments: nat, eol: nat, body: nat): Rule {
    Rule(l, [x, names, arguments, eol, body],
      Build(New(MethodKind, TheKid(2)), [Renamed(1, "METHODNAMES"), Kid(4)]), None)
  }

  lemma MethodsOk(l: nat, x: nat, names: nat, arguments: nat, eol: nat, body: nat)
    requires SortOf(l) == NODE && SortOf(x).Plain? && SortOf(names) == BARE && SortOf(arguments).Words?
    requires SortOf(eol).Plain? && SortOf(body).Tree?
    ensures RuleOk(Methods(l, x, names, arguments, eol, body))
  {
    var r := Methods(l, x, names, arguments, eol, body);
    FewUses(r.does.items[1..]);
    MethodUses(r);
  }

  function Copies(l: nat, x: nat, w: nat, eol: nat): Rule {
    Rule(l, [x, w, eol], Build(New(CopyKind, TheKid(1)), []), None)
  }

  lemma CopiesOk(l: nat, x: nat, w: nat, eol: nat)
    requires SortOf(l) == NODE && SortOf(x).Plain? && SortOf(w).Words? && SortOf(eol).Plain?
    ensures RuleOk(Copies(l, x, w, eol))
  {}

  function Hides(l: nat, x: nat, names: nat, eol: nat): Rule {
    Rule(l, [x, names, eol], Build(Taking(PrivateKind, NoKid, 1), []), None)
  }

  lemma HidesOk(l: nat, x: nat, names: nat, eol: nat)
    requires SortOf(l) == NODE && SortOf(x).Plain? && SortOf(names) == BARE && SortOf(eol).Plain?
    ensures RuleOk(Hides(l, x, names, eol))
  {}

  function Bodies(l: nat, id: string, a: nat, b: nat, c: nat, d: nat): Rule {
    Rule(l, [a, b, c, d], Build(Taking(Fixed(Other(id)), NoKid, 0), [Kid(1), Kid(2), Kid(3)]), None)
  }

  lemma BodiesOk(l: nat, id: string, a: nat, b: nat, c: nat, d: nat)
    requires SortOf(l) == NODE && SortOf(a).Tree? && SortOf(a).bare && !IsMethodName(id)
    requires SortOf(b).Tree? && SortOf(c).Tree? && SortOf(d).Tree?
    ensures RuleOk(Bodies(l, id, a, b, c, d))
  {
    var r := Bodies(l, id, a, b, c, d);
    FewUses(r.does.items);
    AllFour(r);
  }

  function Defines(l: nat, id: string, x: nat, bars: nat, id': string, y: nat): Rule {
    Rule(l, [x, bars, y], Build(Taking(Fixed(Other(id)), NoKid, 0), [Holding(id', 2)]), None)
  }

  lemma DefinesOk(l: nat, id: string, x: nat, bars: nat, id': string, y: nat)
    requires SortOf(l) == NODE && SortOf(x).Tree? && SortOf(x).bare && SortOf(bars).Plain?
    requires SortOf(y).Tree? && SortOf(y).bare && !IsMethodName(id) && !IsMethodName(id')
    ensures RuleOk(Defines(l, id, x, bars, id', y))
  {
    var r := Defines(l, id, x, bars, id', y);
    FewUses(r.does.items);
    assert Uses(r) == [0, 2];
  }

  // ----- the rules, in tens

  function Rules0On(n: nat): Rule {
    match n
    case 1 => Rule(57, [START, 0], Pass, None)
    case 2 => Rule(START, [59], Top, None)
    case 3 => Rule(START, [59, ERROR], GiveUp, None)
    case 4 => Encloses(59, "DOCUMENT", [54, 60], 61, 65)
    case 5 => Wraps(59, "BODY", [55], 66, [])
    case 6 => Encloses(59, "DOCUMENT", [56], 61, 65)
    case 7 => Hands(60, 106)
    case 8 => Nothing(60)
    case 9 => Adds(61, 61, 62)
    case _ => Rule(0, [], Pass, None)
  }

  lemma Rules0Ok(n: nat)
    requires 4 <= n < 10
    ensures RuleOk(Rules0On(n))
  {
    match n
    case 4 => EnclosesOk(59, "DOCUMENT", [54, 60], 61, 65);
    case 5 => WrapsOk(59, "BODY", [55], 66, []);
    case 6 => EnclosesOk(59, "DOCUMENT", [56], 61, 65);
    case 7 => HandsOk(60, 106);
    case 8 => NothingOk(60);
    case 9 => AddsOk(61, 61, 62);
  }

  function Rules10On(n: nat): Rule {
    match n
    case 10 => Begins(61, "HEADER", 62)
    case 11 => WritesAs(62, 63, 105, [106])
    case 12 => Wraps(62, "CATEGORIES", [7], 111, [106])
    case 13 => Wraps(62, "RELATED", [6], 111, [106])
    case 14 => Tags(63, 3, "TITLE")
    case 15 => Tags(63, 4, "TITLE")
    case 16 => Tags(63, 5, "SUMMARY")
    case 17 => Tags(63, 8, "REDIRECT")
    case 18 => TagsFor(64, 18, "CLASSMETHODS", "CMETHOD")
    case 19 => TagsFor(64, 19, "INSTANCEMETHODS", "IMETHOD")
    case _ => Rule(0, [], Pass, None)
  }

  lemma Rules10Ok(n: nat)
    requires 10 <= n < 20
    ensures RuleOk(Rules10On(n))
  {
    match n
    case 10 => BeginsOk(61, "HEADER", 62);
    case 11 => WritesAsOk(62, 63, 105, [106]);
    case 12 => WrapsOk(62, "CATEGORIES", [7], 111, [106]);
    case 13 => WrapsOk(62, "RELATED", [6], 111, [106]);
    case 14 => TagsOk(63, 3, "TITLE");
    case 15 => TagsOk(63, 4, "TITLE");
    case 16 => TagsOk(63, 5, "SUMMARY");
    case 17 => TagsOk(63, 8, "REDIRECT");
    case 18 => TagsForOk(64, 18, "CLASSMETHODS", "CMETHOD");
    case 19 => TagsForOk(64, 19, "INSTANCEMETHODS", "IMETHOD");
  }

  function Rules20On(n: nat): Rule {
    match n
    case 20 => TagsFor(64, 17, "DESCRIPTION", "METHOD")
    case 21 => TagsFor(64, 20, "EXAMPLES", "METHOD")
    case 22 => Hands(65, 66)
    case 23 => Begins0(65, "BODY")
    case 24 => Adds(66, 66, 67)
    case 25 => Begins(66, "BODY", 67)
    case 26 => Wraps(66, "BODY", [], 73, [])
    case 27 => Chooses(68, "METHOD")
    case 28 => Titles(67, "SECTION", [13, 68], 105, 106, 69)
    case 29 => WrapsAs(67, 64, 69, [])
    case _ => Rule(0, [], Pass, None)
  }

  lemma Rules20Ok(n: nat)
    requires 20 <= n < 30
    ensures RuleOk(Rules20On(n))
  {
    match n
    case 20 => TagsForOk(64, 17, "DESCRIPTION", "METHOD");
    case 21 => TagsForOk(64, 20, "EXAMPLES", "METHOD");
    case 22 => HandsOk(65, 66);
    case 23 => Begins0Ok(65, "BODY");
    case 24 => AddsOk(66, 66, 67);
    case 25 => BeginsOk(66, "BODY", 67);
    case 26 => WrapsOk(66, "BODY", [], 73, []);
    case 27 => ChoosesOk(68, "METHOD");
    case 28 => TitlesOk(67, "SECTION", [13, 68], 105, 106, 69);
    case 29 => WrapsAsOk(67, 64, 69, []);
  }

  function Rules30On(n: nat): Rule {
    match n
    case 30 => Hands(69, 70)
    case 31 => Lacks(69, [])
    case 32 => Adds(70, 70, 71)
    case 33 => Begins(70, "(SUBSECTIONS)", 71)
    case 34 => Hands(70, 73)
    case 35 => Titles(71, "SUBSECTION", [14], 105, 106, 72)
    case 36 => Hands(72, 73)
    case 37 => Lacks(72, [])
    case 38 => Adds(73, 73, 74)
    case 39 => Begins(73, "(SUBSUBSECTIONS)", 74)
    case _ => Rule(0, [], Pass, None)
  }

  lemma Rules30Ok(n: nat)
    requires 30 <= n < 40
    ensures RuleOk(Rules30On(n))
  {
    match n
    case 30 => HandsOk(69, 70);
    case 31 => LacksOk(69, []);
    case 32 => AddsOk(70, 70, 71);
    case 33 => BeginsOk(70, "(SUBSECTIONS)", 71);
    case 34 => HandsOk(70, 73);
    case 35 => TitlesOk(71, "SUBSECTION", [14], 105, 106, 72);
    case 36 => HandsOk(72, 73);
    case 37 => LacksOk(72, []);
    case 38 => AddsOk(73, 73, 74);
    case 39 => BeginsOk(73, "(SUBSUBSECTIONS)", 74);
  }

  function Rules40On(n: nat): Rule {
    match n
    case 40 => Wraps(73, "(SUBSUBSECTIONS)", [], 85, [])
    case 41 => Methods(74, 15, 77, 75, 106, 78)
    case 42 => Copies(74, 10, 104, 106)
    case 43 => Hides(74, 12, 111, 107)
    case 44 => LacksWords(75)
    case 45 => Hands(75, 50)
    case 46 => Strips(76, 49)
    case 47 => AddsLabelled(77, 77, 48, 76)
    case 48 => BeginsLabelled(77, "(METHODNAMES)", 76)
    case 49 => Bodies(78, "METHODBODY", 79, 80, 83, 84)
    case _ => Rule(0, [], Pass, None)
  }

  lemma Rules40Ok(n: nat)
    requires 40 <= n < 50
    ensures RuleOk(Rules40On(n))
  {
    match n
    case 40 => WrapsOk(73, "(SUBSUBSECTIONS)", [], 85, []);
    case 41 => MethodsOk(74, 15, 77, 75, 106, 78);
    case 42 => CopiesOk(74, 10, 104, 106);
    case 43 => HidesOk(74, 12, 111, 107);
    case 44 => LacksWordsOk(75);
    case 45 => HandsOk(75, 50);
    case 46 => StripsOk(76, 49);
    case 47 => AddsLabelledOk(77, 77, 48, 76);
    case 48 => BeginsLabelledOk(77, "(METHODNAMES)", 76);
    case 49 => BodiesOk(78, "METHODBODY", 79, 80, 83, 84);
  }

  function Rules50On(n: nat): Rule {
    match n
    case 50 => Hands(79, 85)
    case 51 => Lacks(79, [])
    case 52 => Hands(80, 81)
    case 53 => Lacks(80, [])
    case 54 => Adds(81, 81, 82)
    case 55 => Begins(81, "ARGUMENTS", 82)
    case 56 => Titles(82, "ARGUMENT", [16], 104, 106, 79)
    case 57 => Wraps(82, "ARGUMENT", [16, 106], 85, [])
    case 58 => Wraps(83, "RETURNS", [21], 85, [])
    case 59 => Lacks(83, [])
    case _ => Rule(0, [], Pass, None)
  }

  lemma Rules50Ok(n: nat)
    requires 50 <= n < 60
    ensures RuleOk(Rules50On(n))
  {
    match n
    case 50 => HandsOk(79, 85);
    case 51 => LacksOk(79, []);
    case 52 => HandsOk(80, 81);
    case 53 => LacksOk(80, []);
    case 54 => AddsOk(81, 81, 82);
    case 55 => BeginsOk(81, "ARGUMENTS", 82);
    case 56 => TitlesOk(82, "ARGUMENT", [16], 104, 106, 79);
    case 57 => WrapsOk(82, "ARGUMENT", [16, 106], 85, []);
    case 58 => WrapsOk(83, "RETURNS", [21], 85, []);
    case 59 => LacksOk(83, []);
  }

  function Rules60On(n: nat): Rule {
    match n
    case 60 => Wraps(84, "DISCUSSION", [22], 85, [])
    case 61 => Lacks(84, [])
    case 62 => Hands(85, 86)
    case 63 => Hands(85, 87)
    case 64 => Adds(86, 87, 88)
    case 65 => Adds(86, 86, 88)
    case 66 => Begins(86, "(SECTIONBODY)", 88)
    case 67 => Adds(87, 86, 89)
    case 68 => Begins(87, "(SECTIONBODY)", 89)
    case 69 => WrapsAs(88, 94, 85, [43])
    case _ => Rule(0, [], Pass, None)
  }

  lemma Rules60Ok(n: nat)
    requires 60 <= n < 70
    ensures RuleOk(Rules60On(n))
  {
    match n
    case 60 => WrapsOk(84, "DISCUSSION", [22], 85, []);
    case 61 => LacksOk(84, []);
    case 62 => HandsOk(85, 86);
    case 63 => HandsOk(85, 87);
    case 64 => AddsOk(86, 87, 88);
    case 65 => AddsOk(86, 86, 88);
    case 66 => BeginsOk(86, "(SECTIONBODY)", 88);
    case 67 => AddsOk(87, 86, 89);
    case 68 => BeginsOk(87, "(SECTIONBODY)", 89);
    case 69 => WrapsAsOk(88, 94, 85, [43]);
  }

  function Rules70On(n: nat): Rule {
    match n
    case 70 => WrapsAs(88, 93, 95, [43])
    case 71 => Wraps(88, "TABLE", [27], 97, [43])
    case 72 => Wraps(88, "DEFINITIONLIST", [26], 101, [43])
    case 73 => WritesAs(88, 92, 109, [43])
    case 74 => Writes(88, "CLASSTREE", [9], 104, [107])
    case 75 => Wraps(88, "KEYWORD", [11], 111, [107])
    case 76 => Lacks(88, [52])
    case 77 => Writes(88, "IMAGE", [35], 105, [43])
    case 78 => Adds(89, 89, 90)
    case 79 => Begins(89, "PROSE", 90)
    case _ => Rule(0, [], Pass, None)
  }

  lemma Rules70Ok(n: nat)
    requires 70 <= n < 80
    ensures RuleOk(Rules70On(n))
  {
    match n
    case 70 => WrapsAsOk(88, 93, 95, [43]);
    case 71 => WrapsOk(88, "TABLE", [27], 97, [43]);
    case 72 => WrapsOk(88, "DEFINITIONLIST", [26], 101, [43]);
    case 73 => WritesAsOk(88, 92, 109, [43]);
    case 74 => WritesOk(88, "CLASSTREE", [9], 104, [107]);
    case 75 => WrapsOk(88, "KEYWORD", [11], 111, [107]);
    case 76 => LacksOk(88, [52]);
    case 77 => WritesOk(88, "IMAGE", [35], 105, [43]);
    case 78 => AddsOk(89, 89, 90);
    case 79 => BeginsOk(89, "PROSE", 90);
  }

  function Rules80On(n: nat): Rule {
    match n
    case 80 => Texts(90, 103)
    case 81 => Writes(90, "LINK", [], 47, [])
    case 82 => WritesAs(90, 91, 104, [43])
    case 83 => Wraps(90, "FOOTNOTE", [28], 85, [43])
    case 84 => LineBreaks(90, 51)
    case 85 => Tags(91, 32, "LINK")
    case 86 => Tags(91, 38, "STRONG")
    case 87 => Tags(91, 34, "SOFT")
    case 88 => Tags(91, 39, "EMPHASIS")
    case 89 => Tags(91, 31, "CODE")
    case _ => Rule(0, [], Pass, None)
  }

  lemma Rules80Ok(n: nat)
    requires 80 <= n < 90
    ensures RuleOk(Rules80On(n))
  {
    match n
    case 80 => TextsOk(90, 103);
    case 81 => WritesOk(90, "LINK", [], 47, []);
    case 82 => WritesAsOk(90, 91, 104, [43]);
    case 83 => WrapsOk(90, "FOOTNOTE", [28], 85, [43]);
    case 84 => LineBreaksOk(90, 51);
    case 85 => TagsOk(91, 32, "LINK");
    case 86 => TagsOk(91, 38, "STRONG");
    case 87 => TagsOk(91, 34, "SOFT");
    case 88 => TagsOk(91, 39, "EMPHASIS");
    case 89 => TagsOk(91, 31, "CODE");
  }

  function Rules90On(n: nat): Rule {
    match n
    case 90 => Tags(91, 36, "TELETYPE")
    case 91 => Tags(91, 37, "MATH")
    case 92 => Tags(91, 33, "ANCHOR")
    case 93 => Tags(92, 40, "CODEBLOCK")
    case 94 => Tags(92, 41, "TELETYPEBLOCK")
    case 95 => Tags(92, 42, "MATHBLOCK")
    case 96 => Tags(93, 23, "LIST")
    case 97 => Tags(93, 24, "TREE")
    case 98 => Tags(93, 25, "NUMBEREDLIST")
    case 99 => Tags(94, 30, "WARNING")
    case _ => Rule(0, [], Pass, None)
  }

  lemma Rules90Ok(n: nat)
    requires 90 <= n < 100
    ensures RuleOk(Rules90On(n))
  {
    match n
    case 90 => TagsOk(91, 36, "TELETYPE");
    case 91 => TagsOk(91, 37, "MATH");
    case 92 => TagsOk(91, 33, "ANCHOR");
    case 93 => TagsOk(92, 40, "CODEBLOCK");
    case 94 => TagsOk(92, 41, "TELETYPEBLOCK");
    case 95 => TagsOk(92, 42, "MATHBLOCK");
    case 96 => TagsOk(93, 23, "LIST");
    case 97 => TagsOk(93, 24, "TREE");
    case 98 => TagsOk(93, 25, "NUMBEREDLIST");
    case 99 => TagsOk(94, 30, "WARNING");
  }

  function Rules100On(n: nat): Rule {
    match n
    case 100 => Tags(94, 29, "NOTE")
    case 101 => AddsHolding(95, 95, 45, "ITEM", 85)
    case 102 => BeginsHolding(95, "(LISTBODY)", [45], "ITEM", 85)
    case 103 => Wraps(96, "TABROW", [45], 98, [])
    case 104 => Adds(97, 97, 96)
    case 105 => Begins(97, "(TABLEBODY)", 96)
    case 106 => AddsHolding(98, 98, 44, "TABCOL", 79)
    case 107 => BeginsHolding(98, "(TABLECELLS)", [], "TABCOL", 79)
    case 108 => AddsHolding(99, 99, 45, "TERM", 85)
    case 109 => BeginsHolding(99, "(TERMS)", [45], "TERM", 85)
    case _ => Rule(0, [], Pass, None)
  }

  lemma Rules100Ok(n: nat)
    requires 100 <= n < 110
    ensures RuleOk(Rules100On(n))
  {
    match n
    case 100 => TagsOk(94, 29, "NOTE");
    case 101 => AddsHoldingOk(95, 95, 45, "ITEM", 85);
    case 102 => BeginsHoldingOk(95, "(LISTBODY)", [45], "ITEM", 85);
    case 103 => WrapsOk(96, "TABROW", [45], 98, []);
    case 104 => AddsOk(97, 97, 96);
    case 105 => BeginsOk(97, "(TABLEBODY)", 96);
    case 106 => AddsHoldingOk(98, 98, 44, "TABCOL", 79);
    case 107 => BeginsHoldingOk(98, "(TABLECELLS)", [], "TABCOL", 79);
    case 108 => AddsHoldingOk(99, 99, 45, "TERM", 85);
    case 109 => BeginsHoldingOk(99, "(TERMS)", [45], "TERM", 85);
  }

  function Rules110On(n: nat): Rule {
    match n
    case 110 => Defines(100, "DEFLISTITEM", 99, 44, "DEFINITION", 79)
    case 111 => Adds(101, 101, 100)
    case 112 => Begins(101, "(DEFLISTBODY)", 100)
    case 113 => Hands(102, 103)
    case 114 => Hands(102, 47)
    case 115 => Hands(103, 46)
    case 116 => Hands(103, 48)
    case 117 => Concats(104, 104, 103)
    case 118 => Hands(104, 103)
    case 119 => Concats(105, 105, 102)
    case _ => Rule(0, [], Pass, None)
  }

  lemma Rules110Ok(n: nat)
    requires 110 <= n < 120
    ensures RuleOk(Rules110On(n))
  {
    match n
    case 110 => DefinesOk(100, "DEFLISTITEM", 99, 44, "DEFINITION", 79);
    case 111 => AddsOk(101, 101, 100);
    case 112 => BeginsOk(101, "(DEFLISTBODY)", 100);
    case 113 => HandsOk(102, 103);
    case 114 => HandsOk(102, 47);
    case 115 => HandsOk(103, 46);
    case 116 => HandsOk(103, 48);
    case 117 => ConcatsOk(104, 104, 103);
    case 118 => HandsOk(104, 103);
    case 119 => ConcatsOk(105, 105, 102);
  }

  function Rules120On(n: nat): Rule {
    match n
    case 120 => Hands(105, 102)
    case 121 => Hands(106, 51)
    case 122 => Hands(106, 52)
    case 123 => Hands(107, 106)
    case 124 => Hands(107, 0)
    case 125 => Hands(108, 103)
    case 126 => Breaks(108, 106)
    case 127 => Concats(109, 109, 108)
    case 128 => Hands(109, 108)
    case 129 => Concats(110, 110, 46)
    case _ => Rule(0, [], Pass, None)
  }

  lemma Rules120Ok(n: nat)
    requires 120 <= n < 130
    ensures RuleOk(Rules120On(n))
  {
    match n
    case 120 => HandsOk(105, 102);
    case 121 => HandsOk(106, 51);
    case 122 => HandsOk(106, 52);
    case 123 => HandsOk(107, 106);
    case 124 => HandsOk(107, 0);
    case 125 => HandsOk(108, 103);
    case 126 => BreaksOk(108, 106);
    case 127 => ConcatsOk(109, 109, 108);
    case 128 => HandsOk(109, 108);
    case 129 => ConcatsOk(110, 110, 46);
  }

  function Rules130On(n: nat): Rule {
    match n
    case 130 => Concats(110, 110, 47)
    case 131 => Hands(110, 46)
    case 132 => Hands(110, 47)
    case 133 => AddsLabelled(111, 111, 48, 110)
    case 134 => BeginsLabelled(111, "(COMMALIST)", 110)
    case _ => Rule(0, [], Pass, None)
  }

  lemma Rules130Ok(n: nat)
    requires 130 <= n < 135
    ensures RuleOk(Rules130On(n))
  {
    match n
    case 130 => ConcatsOk(110, 110, 47);
    case 131 => HandsOk(110, 46);
    case 132 => HandsOk(110, 47);
    case 133 => AddsLabelledOk(111, 111, 48, 110);
    case 134 => BeginsLabelledOk(111, "(COMMALIST)", 110);
  }

  /** The rules, by number. */
  function RuleOf(n: nat): Rule
  {
    if n < 70 then
      if n < 10 then Rules0On(n)
      else if n < 20 then Rules10On(n)
      else if n < 30 then Rules20On(n)
      else if n < 40 then Rules30On(n)
      else if n < 50 then Rules40On(n)
      else if n < 60 then Rules50On(n)
      else Rules60On(n)
    else
      if n < 80 then Rules70On(n)
      else if n < 90 then Rules80On(n)
      else if n < 100 then Rules90On(n)
      else if n < 110 then Rules100On(n)
      else if n < 120 then Rules110On(n)
      else if n < 130 then Rules120On(n)
      else Rules130On(n)
  }

  /** All rules but those of the start symbol keep to the sorts: a rule uses each node and each text of its right hand
      side once, in order, or gives it up, and makes a value of the sort of its left hand side. */
  lemma RulesOk(n: nat)
    requires 4 <= n < RULES
    ensures RuleOk(RuleOf(n))
  {
    if n < 10 { Rules0Ok(n); } else if n < 20 { Rules10Ok(n); } else if n < 30 { Rules20Ok(n); }
    else if n < 40 { Rules30Ok(n); } else if n < 50 { Rules40Ok(n); } else if n < 60 { Rules50Ok(n); }
    else if n < 70 { Rules60Ok(n); } else if n < 80 { Rules70Ok(n); } else if n < 90 { Rules80Ok(n); }
    else if n < 100 { Rules90Ok(n); } else if n < 110 { Rules100Ok(n); } else if n < 120 { Rules110Ok(n); }
    else if n < 130 { Rules120Ok(n); } else { Rules130Ok(n); }
  }
}
