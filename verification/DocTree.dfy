/** The tidying of a parsed help document (`doc_node_fixup_tree`) as a function on tree values, and what it keeps. */
module DocTree {
  import opened Basics

  datatype Id = Text | NL | Other(name: string)

  datatype Chars = NoText | Some(s: string)

  datatype Node = Node(id: Id, text: Chars, children: seq<Node>)

  /** `striptrailingws`; the first character always stays. */
  function Stripped(s: string): string {
    if |s| > 1 && IsSpace(s[|s| - 1]) then Stripped(s[..|s| - 1]) else s
  }

  /** `strmerge` */
  function Merged(a: Chars, b: Chars): Chars {
    if a.NoText? then b else if b.NoText? then a else Some(a.s + b.s)
  }

  function OwnText(id: Id, text: Chars): Chars {
    if id != Text && text.Some? then Some(Stripped(text.s)) else text
  }

  /** One trailing line break is dropped. */
  function Trimmed(cs: seq<Node>): seq<Node> {
    if cs != [] && cs[|cs| - 1].id == NL then cs[..|cs| - 1] else cs
  }

  /** Text and line breaks after a text are taken over by it. */
  predicate Joins(done: seq<Node>, c: Node) {
    (c.id == Text || c.id == NL) && done != [] && done[|done| - 1].id == Text
  }

  function Joined(last: Node, c: Node): Node {
    last.(text := if c.id == NL then Merged(last.text, Some(" ")) else Merged(last.text, c.text))
  }

  /** One turn of the loop over the children: `done` is what stands before the child `c`. */
  function Grown(done: seq<Node>, c: Node): seq<Node>
    decreases c, 1
  {
    if Joins(done, c) then done[..|done| - 1] + [Joined(done[|done| - 1], c)] else done + [Fixed(c)]
  }

  function Absorbed(done: seq<Node>, cs: seq<Node>): seq<Node>
    decreases cs
  {
    if cs == [] then done else Absorbed(Grown(done, cs[0]), cs[1..])
  }

  function Fixed(n: Node): Node
    decreases n, 0
  {
    Node(n.id, OwnText(n.id, n.text), Absorbed([], Trimmed(n.children)))
  }

  /** Texts have no children, line breaks have neither text nor children: what the parser builds. */
  ghost predicate WellFormed(n: Node) {
    && (n.id == Text ==> n.text.Some? && n.children == [])
    && (n.id == NL ==> n.text.NoText? && n.children == [])
    && forall i :: 0 <= i < |n.children| ==> WellFormed(n.children[i])
  }

  ghost predicate AllWellFormed(cs: seq<Node>) { forall i :: 0 <= i < |cs| ==> WellFormed(cs[i]) }

  // ----- trailing white space

  /** Only white space is stripped, and only from the end; what stays ends with none, or is a single character. */
  lemma {:induction false} StrippedOnlySpace(s: string)
    ensures Stripped(s) <= s && (forall i :: |Stripped(s)| <= i < |s| ==> IsSpace(s[i]))
    ensures |Stripped(s)| <= 1 || !IsSpace(Stripped(s)[|Stripped(s)| - 1])
    ensures s != "" ==> Stripped(s) != ""
    ensures Stripped(Stripped(s)) == Stripped(s)
  {
    if |s| > 1 && IsSpace(s[|s| - 1]) { StrippedOnlySpace(s[..|s| - 1]); }
  }

  // ----- no text is followed by text or by a line break

  ghost predicate Apart(cs: seq<Node>) {
    forall i, j :: 0 <= i && j == i + 1 && j < |cs| ==> !(cs[i].id == Text && (cs[j].id == Text || cs[j].id == NL))
  }

  ghost predicate Tidied(n: Node) {
    Apart(n.children) && forall i :: 0 <= i < |n.children| ==> Tidied(n.children[i])
  }

  ghost predicate AllTidied(cs: seq<Node>) { forall i :: 0 <= i < |cs| ==> Tidied(cs[i]) }

  lemma {:induction false} AbsorbedTidied(done: seq<Node>, cs: seq<Node>)
    requires Apart(done) && AllTidied(done)
    ensures Apart(Absorbed(done, cs)) && AllTidied(Absorbed(done, cs))
    decreases cs
  {
    if cs != [] {
      FixedTidied(cs[0]);
      AbsorbedTidied(Grown(done, cs[0]), cs[1..]);
    }
  }

  /** Nowhere in the tidied tree is a text followed by a text or a line break. */
  lemma {:induction false} FixedTidied(n: Node)
    ensures Tidied(Fixed(n))
    decreases n
  {
    AbsorbedTidied([], Trimmed(n.children));
  }

  // ----- what the tree says

  /** A list of children read from left to right: texts letter by letter, a line break as a space, other nodes as they
      are. */
  datatype Atom = Letter(c: char) | Sub(n: Node)

  function Letters(s: string): seq<Atom> {
    if s == "" then [] else [Letter(s[0])] + Letters(s[1..])
  }

  function AtomsOf(c: Node): seq<Atom> {
    match c.id
    case Text => if c.text.Some? then Letters(c.text.s) else []
    case NL => [Letter(' ')]
    case Other(_) => [Sub(c)]
  }

  function Atoms(cs: seq<Node>): seq<Atom> {
    if cs == [] then [] else AtomsOf(cs[0]) + Atoms(cs[1..])
  }

  /** What becomes of a node's text: only white space goes, from the end, and not all characters; a text node keeps it
      all. */
  predicate TextKept(id: Id, text: Chars, text': Chars) {
    match text
    case NoText => text' == NoText
    case Some(s) =>
      && text'.Some?
      && var t := text'.s;
      if id == Text then t == s
      else
        && t <= s && (forall i :: |t| <= i < |s| ==> IsSpace(s[i])) && (|t| <= 1 || !IsSpace(t[|t| - 1]))
        && (s != "" ==> t != "")
  }

  /** `m` says what `n` says: the same id and text, and below it the same letters and nodes in the same order, but for
      white space at the end of texts and one line break at the end of each list. */
  ghost predicate Says(n: Node, m: Node)
    decreases n
  {
    var l := |n.children| - 1;
    var a, b := Atoms(if 0 <= l && n.children[l].id == NL then n.children[..l] else n.children), Atoms(m.children);
    && m.id == n.id && TextKept(n.id, n.text, m.text) && |a| == |b|
    && forall i :: 0 <= i < |a| ==>
      match a[i]
      case Letter(c) => b[i] == Letter(c)
      case Sub(k) => k in n.children && b[i].Sub? && Says(k, b[i].n)
  }

  ghost predicate AtomSays(a: Atom, b: Atom) {
    match a
    case Letter(c) => b == a
    case Sub(k) => b.Sub? && Says(k, b.n)
  }

  ghost predicate Matches(a: seq<Atom>, b: seq<Atom>) {
    |a| == |b| && forall i :: 0 <= i < |a| ==> AtomSays(a[i], b[i])
  }

  lemma MatchesAppend(a: seq<Atom>, b: seq<Atom>, a': seq<Atom>, b': seq<Atom>)
    requires Matches(a, b) && Matches(a', b')
    ensures Matches(a + a', b + b')
  {}

  lemma {:induction false} AtomsAppend(a: seq<Node>, b: seq<Node>)
    ensures Atoms(a + b) == Atoms(a) + Atoms(b)
  {
    if a == [] {
      assert a + b == b;
    } else {
      assert (a + b)[1..] == a[1..] + b;
      AtomsAppend(a[1..], b);
    }
  }

  lemma AtomsPlus(done: seq<Node>, c: Node)
    ensures Atoms(done + [c]) == Atoms(done) + AtomsOf(c)
  {
    AtomsAppend(done, [c]);
    assert [c][1..] == [];
    assert Atoms([c]) == AtomsOf(c);
  }

  lemma {:induction false} LettersAppend(a: string, b: string)
    ensures Letters(a + b) == Letters(a) + Letters(b)
  {
    if a == "" {
      assert a + b == b;
    } else {
      assert (a + b)[1..] == a[1..] + b;
      LettersAppend(a[1..], b);
    }
  }

  lemma {:induction false} LettersMatch(s: string)
    ensures Matches(Letters(s), Letters(s))
  {
    if s != "" { LettersMatch(s[1..]); }
  }

  lemma JoinedAtoms(last: Node, c: Node)
    requires last.id == Text && last.text.Some? && WellFormed(c) && (c.id == Text || c.id == NL)
    ensures AtomsOf(Joined(last, c)) == AtomsOf(last) + AtomsOf(c)
  {
    if c.id == NL {
      LettersAppend(last.text.s, " ");
      assert Letters(" ") == [Letter(' ')];
    } else {
      LettersAppend(last.text.s, c.text.s);
    }
  }

  ghost predicate TextsSome(cs: seq<Node>) { forall i :: 0 <= i < |cs| && cs[i].id == Text ==> cs[i].text.Some? }

  lemma AtomsJoined(done: seq<Node>, front: seq<Node>, last: Node, c: Node)
    requires done == front + [last] && last.id == Text && last.text.Some? && WellFormed(c)
      && (c.id == Text || c.id == NL)
    ensures Atoms(front + [Joined(last, c)]) == Atoms(done) + AtomsOf(c)
  {
    JoinedAtoms(last, c);
    AtomsPlus(front, last);
    AtomsPlus(front, Joined(last, c));
  }

  /** A child as it comes through the loop, alone or joined to the text before it. */
  lemma GrownSays(a: seq<Atom>, done: seq<Node>, c: Node)
    requires Matches(a, Atoms(done)) && TextsSome(done) && WellFormed(c) && Says(c, Fixed(c))
    ensures Matches(a + AtomsOf(c), Atoms(Grown(done, c)))
  {
    var b := if Joins(done, c) then AtomsOf(c) else AtomsOf(Fixed(c));
    ChildSays(c);
    if Joins(done, c) {
      AtomsJoined(done, done[..|done| - 1], done[|done| - 1], c);
    } else {
      AtomsPlus(done, Fixed(c));
    }
    assert Atoms(Grown(done, c)) == Atoms(done) + b;
    MatchesAppend(a, Atoms(done), AtomsOf(c), b);
  }

  lemma GrownTexts(done: seq<Node>, c: Node)
    requires TextsSome(done) && WellFormed(c)
    ensures TextsSome(Grown(done, c))
  {}

  lemma ChildSays(c: Node)
    requires WellFormed(c) && Says(c, Fixed(c))
    ensures Matches(AtomsOf(c), AtomsOf(Fixed(c))) && (!c.id.Other? ==> Matches(AtomsOf(c), AtomsOf(c)))
  {
    if !c.id.Other? && c.text.Some? { LettersMatch(c.text.s); }
  }

  lemma {:induction false} AbsorbedSays(a: seq<Atom>, done: seq<Node>, cs: seq<Node>)
    requires Matches(a, Atoms(done)) && TextsSome(done) && AllWellFormed(cs)
    ensures Matches(a + Atoms(cs), Atoms(Absorbed(done, cs)))
    decreases cs
  {
    if cs == [] {
      assert a + Atoms(cs) == a;
    } else {
      var c, rest := cs[0], cs[1..];
      FixedSays(c);
      GrownSays(a, done, c);
      GrownTexts(done, c);
      AbsorbedSays(a + AtomsOf(c), Grown(done, c), rest);
      AtomsRegrouped(a, AtomsOf(c), Atoms(rest));
    }
  }

  lemma AtomsRegrouped(a: seq<Atom>, b: seq<Atom>, c: seq<Atom>)
    ensures (a + b) + c == a + (b + c)
  {}

  lemma {:induction false} SubsAreChildren(cs: seq<Node>, k: Node)
    requires Sub(k) in Atoms(cs)
    ensures k in cs
  {
    if Sub(k) in AtomsOf(cs[0]) {
      if cs[0].id == Text { NoSubs(cs[0].text.s, k); }
    } else {
      SubsAreChildren(cs[1..], k);
    }
  }

  lemma {:induction false} NoSubs(s: string, k: Node)
    ensures Sub(k) !in Letters(s)
  {
    if s != "" { NoSubs(s[1..], k); }
  }

  /** Tidying keeps what the tree says: nothing is lost or changed but trailing white space and one trailing line break
      of each list. */
  lemma {:induction false} FixedSays(n: Node)
    requires WellFormed(n)
    ensures Says(n, Fixed(n))
    decreases n
  {
    var l := |n.children| - 1;
    var cs := if 0 <= l && n.children[l].id == NL then n.children[..l] else n.children;
    AbsorbedSays([], [], cs);
    assert [] + Atoms(cs) == Atoms(cs);
    var a := Atoms(cs);
    forall i | 0 <= i < |a| && a[i].Sub? ensures a[i].n in n.children {
      assert Sub(a[i].n) in a;
      SubsAreChildren(cs, a[i].n);
    }
    if n.text.Some? { StrippedOnlySpace(n.text.s); }
  }

  // ----- tidying twice

  function TrailingBreaks(cs: seq<Node>): (k: nat)
    ensures k <= |cs|
  {
    if cs != [] && cs[|cs| - 1].id == NL then 1 + TrailingBreaks(cs[..|cs| - 1]) else 0
  }

  /** The children end with two line breaks or more, and no text stands right before these. */
  predicate DoubleBreak(cs: seq<Node>) {
    var k := TrailingBreaks(cs);
    k >= 2 && (k == |cs| || cs[|cs| - k - 1].id != Text)
  }

  ghost predicate Calm(n: Node) {
    !DoubleBreak(n.children) && forall i :: 0 <= i < |n.children| ==> Calm(n.children[i])
  }

  lemma {:induction false} BreaksFromFront(cs: seq<Node>)
    requires cs != []
    ensures TrailingBreaks(cs) == var k := TrailingBreaks(cs[1..]);
    if k < |cs| - 1 then k else if cs[0].id == NL then |cs| else |cs| - 1
  {
    if |cs| > 1 && cs[|cs| - 1].id == NL {
      assert cs[1..][..|cs| - 2] == cs[..|cs| - 1][1..];
      BreaksFromFront(cs[..|cs| - 1]);
    }
  }

  /** Whether the loop over the children leaves a line break at the end, when the last child before them has id
      `last`. */
  predicate BreakStays(none: bool, last: Id, cs: seq<Node>) {
    var k := TrailingBreaks(cs);
    if k < |cs| then k > 0 && cs[|cs| - k - 1].id != Text
    else if none then k > 0
    else last == NL || (k > 0 && last != Text)
  }

  lemma BreakNext(none: bool, last: Id, cs: seq<Node>, next: Id)
    requires cs != []
    requires next == if !none && last == Text && (cs[0].id == Text || cs[0].id == NL) then Text else cs[0].id
    ensures BreakStays(none, last, cs) <==> BreakStays(false, next, cs[1..])
  {
    BreaksFromFront(cs);
  }

  function LastId(done: seq<Node>): Id { if done == [] then NL else done[|done| - 1].id }

  lemma {:induction false} BreakAtEnd(done: seq<Node>, cs: seq<Node>)
    ensures var r := Absorbed(done, cs); (r != [] && r[|r| - 1].id == NL) <==> BreakStays(done == [], LastId(done), cs)
    decreases cs
  {
    if cs != [] {
      var done' := Grown(done, cs[0]);
      assert Fixed(cs[0]).id == cs[0].id;
      BreakNext(done == [], LastId(done), cs, LastId(done'));
      BreakAtEnd(done', cs[1..]);
    }
  }

  /** After one pass a line break is left at the end exactly when there was a double one. */
  lemma BreakLeft(cs: seq<Node>)
    ensures var r := Absorbed([], Trimmed(cs)); (r != [] && r[|r| - 1].id == NL) <==> DoubleBreak(cs)
  {
    BreakAtEnd([], Trimmed(cs));
  }

  /** The loop never makes the list longer. */
  lemma {:induction false} AbsorbedSize(done: seq<Node>, cs: seq<Node>)
    ensures |Absorbed(done, cs)| <= |done| + |cs|
    decreases cs
  {
    if cs != [] {
      var done' := Grown(done, cs[0]);
      AbsorbedSize(done', cs[1..]);
    }
  }

  function FixedAll(cs: seq<Node>): seq<Node> {
    seq(|cs|, i requires 0 <= i < |cs| => Fixed(cs[i]))
  }

  /** Where nothing is to be merged, the loop only tidies each child. */
  lemma {:induction false} AbsorbedApart(done: seq<Node>, cs: seq<Node>)
    requires Apart(done + cs)
    ensures Absorbed(done, cs) == done + FixedAll(cs)
    decreases cs
  {
    if cs != [] {
      var all, c := done + cs, cs[0];
      assert done != [] ==> all[|done| - 1] == done[|done| - 1] && all[|done|] == c;
      var next := (done + [Fixed(c)]) + cs[1..];
      forall i, j | 0 <= i && j == i + 1 && j < |next|
        ensures !(next[i].id == Text && (next[j].id == Text || next[j].id == NL)) {
        assert next[i].id == all[i].id && next[j].id == all[j].id;
      }
      AbsorbedApart(done + [Fixed(c)], cs[1..]);
      assert FixedAll(cs) == [Fixed(c)] + FixedAll(cs[1..]);
    }
  }

  /** Every result of the loop was there before, is a text without children, or is a tidied child. */
  ghost predicate Settled(r: Node) { Fixed(r) == r }

  lemma TextSettled(r: Node)
    requires r.id == Text && r.children == []
    ensures Settled(r)
  {}

  lemma FixedText(c: Node)
    requires WellFormed(c)
    ensures Fixed(c).id == c.id && (c.id == Text ==> Fixed(c).children == [] && Fixed(c).text == c.text && c.text.Some?)
  {}

  lemma {:induction false} AbsorbedSettled(done: seq<Node>, cs: seq<Node>)
    requires forall i :: 0 <= i < |done| ==> Settled(done[i]) && (done[i].id == Text ==> done[i].children == [])
    requires forall i :: 0 <= i < |cs| ==> WellFormed(cs[i]) && Settled(Fixed(cs[i]))
    ensures forall i :: 0 <= i < |Absorbed(done, cs)| ==> Settled(Absorbed(done, cs)[i])
    decreases cs
  {
    if cs != [] {
      FixedText(cs[0]);
      if Joins(done, cs[0]) { TextSettled(Joined(done[|done| - 1], cs[0])); }
      AbsorbedSettled(Grown(done, cs[0]), cs[1..]);
    }
  }

  /** Children other than texts and line breaks come through the loop, tidied. */
  lemma {:induction false} OthersKept(done: seq<Node>, cs: seq<Node>, r: Node)
    requires r.id.Other? && (r in done || exists i :: 0 <= i < |cs| && r == Fixed(cs[i]))
    ensures r in Absorbed(done, cs)
    decreases cs
  {
    if cs != [] {
      var done' := Grown(done, cs[0]);
      if r in done {
        var i :| 0 <= i < |done| && done[i] == r;
        assert done'[i] == r;
      } else if i :| 0 <= i < |cs| && r == Fixed(cs[i]) {
        if i == 0 {
          assert done'[|done|] == r;
        } else {
          assert cs[1..][i - 1] == cs[i];
        }
      }
      OthersKept(done', cs[1..], r);
    }
  }

  lemma SecondPass(n: Node)
    requires !DoubleBreak(n.children)
    ensures Fixed(Fixed(n)).children == FixedAll(Fixed(n).children)
    ensures Fixed(n).text.Some? ==> Fixed(Fixed(n)).text == Fixed(n).text
  {
    var r := Absorbed([], Trimmed(n.children));
    BreakLeft(n.children);
    AbsorbedTidied([], Trimmed(n.children));
    assert Trimmed(r) == r;
    assert [] + r == r;
    AbsorbedApart([], r);
    StrippedTwice(n);
  }

  lemma StrippedTwice(n: Node)
    ensures Fixed(n).text.Some? ==> Fixed(Fixed(n)).text == Fixed(n).text
  {
    if n.text.Some? { StrippedOnlySpace(n.text.s); }
  }

  lemma {:induction false} CalmIsSettled(n: Node)
    requires WellFormed(n) && Calm(n)
    ensures Fixed(Fixed(n)) == Fixed(n)
    decreases n
  {
    var cs := Trimmed(n.children);
    forall i | 0 <= i < |cs| ensures WellFormed(cs[i]) && Settled(Fixed(cs[i])) {
      assert cs[i] == n.children[i];
      CalmIsSettled(n.children[i]);
    }
    AbsorbedSettled([], cs);
    SecondPass(n);
    var r := Fixed(n).children;
    assert forall i :: 0 <= i < |r| ==> Settled(r[i]);
    assert FixedAll(r) == r;
  }

  lemma {:induction false} SettledIsCalm(n: Node)
    requires WellFormed(n) && Fixed(Fixed(n)) == Fixed(n)
    ensures Calm(n)
    decreases n
  {
    var r := Fixed(n).children;
    if DoubleBreak(n.children) {
      BreakLeft(n.children);
      AbsorbedSize([], Trimmed(r));
      assert false;
    }
    SecondPass(n);
    forall i | 0 <= i < |n.children| ensures Calm(n.children[i]) {
      var c := n.children[i];
      if c.id.Other? {
        var cs := Trimmed(n.children);
        assert cs[i] == c;
        OthersKept([], cs, Fixed(c));
        var j :| 0 <= j < |r| && r[j] == Fixed(c);
        assert FixedAll(r)[j] == Fixed(r[j]);
        SettledIsCalm(c);
      }
    }
  }

  /** Tidying a tree twice is the same as tidying it once exactly when no node's children end with a double break. */
  lemma TwiceIsOnce(n: Node)
    requires WellFormed(n)
    ensures Fixed(Fixed(n)) == Fixed(n) <==> Calm(n)
  {
    if Calm(n) { CalmIsSettled(n); }
    if Fixed(Fixed(n)) == Fixed(n) { SettledIsCalm(n); }
  }

  /** A list that ends with two line breaks loses one of them at each pass. */
  lemma TwiceIsNotOnce(name: string)
    ensures var n := Node(Other(name), NoText, [Node(NL, NoText, []), Node(NL, NoText, [])]);
      WellFormed(n) && Fixed(Fixed(n)) != Fixed(n)
  {
    var nl := Node(NL, NoText, []);
    var n := Node(Other(name), NoText, [nl, nl]);
    assert n.children[..1] == [nl] && [nl][..0] == [];
    assert TrailingBreaks([nl]) == 1 && TrailingBreaks(n.children) == 2;
    assert DoubleBreak(n.children) && !Calm(n);
    TwiceIsOnce(n);
  }
}
