/** The nodes of a help document in memory, and their tidying in place (`doc_node_fixup_tree`). */
module DocNodes {
  import opened Basics
  import opened DocTree

  class DocNode {
    const id: Id
    var text: Chars
    var children: seq<DocNode?>

    /** The node and everything that is or was below it. */
    ghost var repr: set<DocNode>

    /** The node is the root of a tree: its children own disjoint sets of nodes. */
    ghost predicate Valid()
      reads this, repr
      decreases repr, 0
    {
      this in repr && null !in children && Kids(children, repr - {this})
    }

    /** The tree below the node, as a value. */
    ghost function Tree(): Node
      requires Valid()
      reads this, repr
      decreases repr, 0
    {
      Node(id, text, Trees(children, repr - {this}))
    }

    constructor (id: Id, text: Chars)
      ensures Valid() && Tree() == Node(id, text, []) && fresh(repr)
    {
      this.id := id;
      this.text := text;
      children := [];
      repr := {this};
    }

    /** `doc_node_add_child` */
    method AddChild(child: DocNode?)
      requires Valid() && (child != null ==> child.Valid() && child.repr !! repr)
      modifies this
      ensures Valid()
      ensures child == null ==> Tree() == old(Tree()) && repr == old(repr)
      ensures child != null ==>
        && Tree() == old(Tree()).(children := old(Tree()).children + [old(child.Tree())])
        && repr == old(repr) + old(child.repr)
    {
      if child != null {
        ghost var all := repr - {this};
        children := children + [child];
        repr := repr + child.repr;
        TreesGrow(old(children), all, child, repr - {this});
      }
    }

    /** `doc_node_move_children`: the children of `src` replace those of this node, and `src` itself is given up. */
    method MoveChildren(src: DocNode?)
      requires Valid() && (src != null ==> src.Valid() && src.repr !! repr)
      modifies this
      ensures Valid()
      ensures src == null ==> Tree() == old(Tree()) && repr == old(repr)
      ensures src != null ==>
        Tree() == old(Tree()).(children := old(src.Tree()).children) && repr == old(repr) + old(src.repr)
    {
      if src != null {
        children := src.children;
        repr := repr + src.repr;
        TreesWider(children, src.repr - {src}, repr - {this});
      }
    }
  }

  /** The same children owned as part of a larger set. */
  lemma {:induction false} TreesWider(cs: seq<DocNode?>, all: set<DocNode>, all': set<DocNode>)
    requires Kids(cs, all) && all <= all'
    ensures Kids(cs, all') && Trees(cs, all') == Trees(cs, all)
    decreases |cs|
  {
    if cs != [] {
      SubKids(cs, all);
      TreesWider(cs[1..], all, all');
    }
  }

  /** The nodes of `cs` that are there are roots of trees in `all` that do not share nodes. */
  ghost predicate Kids(cs: seq<DocNode?>, all: set<DocNode>)
    reads all
    decreases all, 1
  {
    && (forall i :: 0 <= i < |cs| && cs[i] != null ==> cs[i] in all && cs[i].repr <= all && cs[i].Valid())
    && (forall i, j :: 0 <= i < j < |cs| && cs[i] != null && cs[j] != null ==> cs[i].repr !! cs[j].repr)
  }

  /** The trees of the nodes of `cs` that are there. */
  ghost function Trees(cs: seq<DocNode?>, all: set<DocNode>): seq<Node>
    requires Kids(cs, all)
    reads all
    decreases all, 1, |cs|
  {
    if cs == [] then []
    else (if cs[0] == null then [] else [cs[0].Tree()]) + Trees(cs[1..], all)
  }

  lemma {:induction false} TreesGrow(cs: seq<DocNode?>, all: set<DocNode>, c: DocNode, all': set<DocNode>)
    requires Kids(cs, all) && all <= all' && Kids(cs + [c], all') && c.Valid()
    ensures Trees(cs + [c], all') == Trees(cs, all) + [c.Tree()]
    decreases |cs|
  {
    if cs == [] {
      assert Trees([c][1..], all') == [];
    } else {
      assert (cs + [c])[1..] == cs[1..] + [c];
      assert Kids(cs[1..] + [c], all') by { SubKids(cs + [c], all'); }
      TreesGrow(cs[1..], all, c, all');
    }
  }

  lemma SubKids(cs: seq<DocNode?>, all: set<DocNode>)
    requires cs != [] && Kids(cs, all)
    ensures Kids(cs[1..], all)
  {}

  // ----- children that are still there while the loop over them runs

  function NonNull(cs: seq<DocNode?>): seq<DocNode?> {
    if cs == [] then []
    else if cs[|cs| - 1] == null then NonNull(cs[..|cs| - 1]) else NonNull(cs[..|cs| - 1]) + [cs[|cs| - 1]]
  }

  /** Of the values `vals` those whose node is still there. */
  function Picked(cs: seq<DocNode?>, vals: seq<Node>): seq<Node>
    requires |vals| == |cs|
  {
    if cs == [] then []
    else
      var l := |cs| - 1;
      if cs[l] == null then Picked(cs[..l], vals[..l]) else Picked(cs[..l], vals[..l]) + [vals[l]]
  }

  lemma {:induction false} PickedLast(cs: seq<DocNode?>, vals: seq<Node>, m: nat)
    requires |vals| == |cs| && m < |cs| && cs[m] != null && forall k :: m < k < |cs| ==> cs[k] == null
    ensures Picked(cs, vals) == Picked(cs[..m], vals[..m]) + [vals[m]]
  {
    if m < |cs| - 1 {
      PickedLast(cs[..|cs| - 1], vals[..|cs| - 1], m);
      assert cs[..|cs| - 1][..m] == cs[..m] && vals[..|cs| - 1][..m] == vals[..m];
    }
  }

  lemma {:induction false} PickedNone(cs: seq<DocNode?>, vals: seq<Node>)
    requires |vals| == |cs| && forall k :: 0 <= k < |cs| ==> cs[k] == null
    ensures Picked(cs, vals) == []
  {
    if cs != [] { PickedNone(cs[..|cs| - 1], vals[..|cs| - 1]); }
  }

  /** What the loop knows about all children, removed ones included: `vals` are their trees. */
  ghost predicate Known(kids: seq<DocNode?>, all: set<DocNode>, vals: seq<Node>)
    reads all
  {
    && Kids(kids, all) && null !in kids && |vals| == |kids|
    && forall k :: 0 <= k < |kids| ==> kids[k].Tree() == vals[k]
  }

  ghost predicate Subseq(cs: seq<DocNode?>, kids: seq<DocNode?>) {
    |cs| == |kids| && forall k :: 0 <= k < |cs| ==> cs[k] == null || cs[k] == kids[k]
  }

  lemma {:induction false} PickedTrees(cs: seq<DocNode?>, kids: seq<DocNode?>, all: set<DocNode>, vals: seq<Node>)
    requires Known(kids, all, vals) && Subseq(cs, kids)
    ensures Kids(NonNull(cs), all) && null !in NonNull(cs) && Trees(NonNull(cs), all) == Picked(cs, vals)
    ensures forall c :: c in NonNull(cs) ==> c in cs
    decreases |cs|
  {
    if cs != [] {
      var l := |cs| - 1;
      PickedTrees(cs[..l], kids[..l], all, vals[..l]);
      if cs[l] != null {
        var front := NonNull(cs[..l]);
        forall i | 0 <= i < |front| ensures front[i].repr !! cs[l].repr {
          assert front[i] in front && front[i] in cs[..l];
          var k :| 0 <= k < l && cs[..l][k] == front[i];
          assert front[i] == kids[k];
        }
        TreesGrow(front, all, cs[l], all);
      }
    }
  }

  lemma {:induction false} TreesKnown(cs: seq<DocNode?>, all: set<DocNode>)
    requires Kids(cs, all) && null !in cs
    ensures Known(cs, all, Trees(cs, all))
    decreases |cs|
  {
    if cs != [] {
      SubKids(cs, all);
      TreesKnown(cs[1..], all);
      var t := Trees(cs, all);
      assert t[1..] == Trees(cs[1..], all);
      forall k | 0 <= k < |cs| ensures cs[k].Tree() == t[k] {
        if k > 0 { assert cs[1..][k - 1] == cs[k] && t[1..][k - 1] == t[k]; }
      }
    }
  }

  // ----- tidying in place

  method StripTrailing(s: string) returns (r: string)
    ensures r == Stripped(s)
  {
    r := s;
    while |r| > 1 && IsSpace(r[|r| - 1])
      invariant Stripped(r) == Stripped(s)
      decreases |r|
    {
      r := r[..|r| - 1];
    }
  }

  /** Moves the children that are still there to the front. */
  method Compact(cs: seq<DocNode?>) returns (r: seq<DocNode?>)
    ensures r == NonNull(cs)
  {
    r := cs;
    var i, j := 0, 0;
    while i < |cs|
      invariant 0 <= j <= i <= |cs| && |r| == |cs| && r[i..] == cs[i..] && r[..j] == NonNull(cs[..i])
    {
      assert cs[..i + 1][..i] == cs[..i];
      assert r[i] == r[i..][0] == cs[i];
      if r[i] != null {
        ghost var was := r;
        r := r[j := r[i]];
        assert r[..j + 1] == was[..j] + [cs[i]];
        assert r[i + 1..] == was[i..][1..];
        j := j + 1;
      } else {
        assert r[i + 1..] == r[i..][1..];
      }
      i := i + 1;
    }
    assert cs[..|cs|] == cs;
    r := r[..j];
  }

  /** Where the loop of `FixChildren` stands: the children before `i` that are still there are what tidying makes of
      the trees `ts` before `i`, and the later children are as they were. */
  ghost predicate Ahead(kids: seq<DocNode?>, cs: seq<DocNode?>, vals: seq<Node>, ts: seq<Node>, i: nat, last: DocNode?,
                        m: int) {
    && Subseq(cs, kids) && i <= |kids| == |ts| == |vals| && null !in kids && AllWellFormed(ts)
    && (forall k :: i <= k < |kids| ==> cs[k] == kids[k] && vals[k] == ts[k])
    && (forall k :: 0 <= k < |vals| && vals[k].id == Text ==> vals[k].text.Some?)
    && Absorbed(Picked(cs[..i], vals[..i]), ts[i..]) == Absorbed([], ts)
    && LastAt(cs, i, last, m)
  }

  /** `m` is the place of the child that `last` points to. */
  ghost predicate LastAt(cs: seq<DocNode?>, i: nat, last: DocNode?, m: int) {
    && i <= |cs| && -1 <= m < i && (forall k :: m < k < i ==> cs[k] == null)
    && (if m == -1 then last == null else last != null && cs[m] == last)
  }

  lemma PickedIsLast(cs: seq<DocNode?>, vals: seq<Node>, i: nat, last: DocNode?, m: int)
    requires |vals| == |cs| && LastAt(cs, i, last, m)
    ensures last == null ==> Picked(cs[..i], vals[..i]) == []
    ensures last != null ==> Picked(cs[..i], vals[..i]) == Picked(cs[..m], vals[..m]) + [vals[m]]
  {
    if last == null {
      PickedNone(cs[..i], vals[..i]);
    } else {
      PickedLast(cs[..i], vals[..i], m);
      assert cs[..i][..m] == cs[..m] && vals[..i][..m] == vals[..m];
    }
  }

  /** A child that is taken over by the text before it. */
  lemma JoinStep(kids: seq<DocNode?>, cs: seq<DocNode?>, vals: seq<Node>, ts: seq<Node>, i: nat, last: DocNode?, m: int)
    requires Ahead(kids, cs, vals, ts, i, last, m) && i < |cs| && last != null
    requires vals[m].id == Text && (vals[i].id == Text || vals[i].id == NL)
    ensures Ahead(kids, cs[i := null], vals[m := Joined(vals[m], vals[i])], ts, i + 1, last, m)
  {
    var joined := Joined(vals[m], vals[i]);
    assert joined.text.Some?;
    JoinPicked(cs, vals, i, last, m, joined);
    JoinAbsorbs(cs, vals, ts, i, m, joined);
  }

  lemma JoinAbsorbs(cs: seq<DocNode?>, vals: seq<Node>, ts: seq<Node>, i: nat, m: int, joined: Node)
    requires |vals| == |cs| == |ts| && 0 <= m < i < |cs| && joined == Joined(vals[m], ts[i])
    requires vals[m].id == Text && (ts[i].id == Text || ts[i].id == NL)
    requires Picked(cs[..i], vals[..i]) == Picked(cs[..m], vals[..m]) + [vals[m]]
    requires Picked(cs[i := null][..i + 1], vals[m := joined][..i + 1]) == Picked(cs[..m], vals[..m]) + [joined]
    ensures Absorbed(Picked(cs[..i], vals[..i]), ts[i..])
      == Absorbed(Picked(cs[i := null][..i + 1], vals[m := joined][..i + 1]), ts[i + 1..])
  {
    JoinGrows(Picked(cs[..m], vals[..m]), vals[m], ts, i);
  }

  lemma JoinPicked(cs: seq<DocNode?>, vals: seq<Node>, i: nat, last: DocNode, m: int, joined: Node)
    requires |vals| == |cs| && i < |cs| && LastAt(cs, i, last, m)
    ensures var cs', vals', front := cs[i := null], vals[m := joined], Picked(cs[..m], vals[..m]);
      && LastAt(cs', i + 1, last, m) && Picked(cs[..i], vals[..i]) == front + [vals[m]]
      && Picked(cs'[..i + 1], vals'[..i + 1]) == front + [joined]
  {
    var cs', vals' := cs[i := null], vals[m := joined];
    assert LastAt(cs', i + 1, last, m);
    PickedIsLast(cs, vals, i, last, m);
    PickedIsLast(cs', vals', i + 1, last, m);
    assert cs'[..m] == cs[..m] && vals'[..m] == vals[..m];
  }

  lemma JoinGrows(front: seq<Node>, last: Node, ts: seq<Node>, i: nat)
    requires i < |ts| && last.id == Text && (ts[i].id == Text || ts[i].id == NL)
    ensures Absorbed(front + [last], ts[i..]) == Absorbed(front + [Joined(last, ts[i])], ts[i + 1..])
  {
    var done := front + [last];
    assert done[..|done| - 1] == front;
    assert ts[i..][1..] == ts[i + 1..];
  }

  /** A child that stays and is tidied itself. */
  lemma KeepStep(kids: seq<DocNode?>, cs: seq<DocNode?>, vals: seq<Node>, ts: seq<Node>, i: nat, last: DocNode?, m: int)
    requires Ahead(kids, cs, vals, ts, i, last, m) && i < |cs|
    requires last == null || vals[m].id != Text || (vals[i].id != Text && vals[i].id != NL)
    ensures Ahead(kids, cs, vals[i := Fixed(vals[i])], ts, i + 1, cs[i], i)
  {
    var vals' := vals[i := Fixed(vals[i])];
    FixedText(vals[i]);
    PickedIsLast(cs, vals, i, last, m);
    KeepPicked(cs, vals, vals', i);
    KeepGrows(Picked(cs[..i], vals[..i]), ts, i);
  }

  lemma KeepPicked(cs: seq<DocNode?>, vals: seq<Node>, vals': seq<Node>, i: nat)
    requires |vals| == |cs| && i < |cs| && cs[i] != null && |vals'| == |vals| && vals'[..i] == vals[..i]
    ensures Picked(cs[..i + 1], vals'[..i + 1]) == Picked(cs[..i], vals[..i]) + [vals'[i]]
  {
    assert cs[..i + 1][..i] == cs[..i] && vals'[..i + 1][..i] == vals[..i];
  }

  lemma KeepGrows(done: seq<Node>, ts: seq<Node>, i: nat)
    requires i < |ts| && !Joins(done, ts[i])
    ensures Absorbed(done, ts[i..]) == Absorbed(done + [Fixed(ts[i])], ts[i + 1..])
  {
    assert ts[i..][1..] == ts[i + 1..];
  }

  /** `strmerge` on the text of `last`; the trees of the other children stay. */
  method TakeText(ghost kids: seq<DocNode?>, last: DocNode, child: DocNode, ghost all: set<DocNode>,
                  ghost vals: seq<Node>, ghost m: int, ghost i: int)
    requires Known(kids, all, vals) && 0 <= m < i < |kids| && kids[m] == last && kids[i] == child
    requires vals[m].id == Text && vals[m].text.Some? && (child.id == Text || child.id == NL)
    modifies last`text
    ensures Known(kids, all, vals[m := Joined(vals[m], vals[i])])
  {
    assert last.Tree() == vals[m] && child.Tree() == vals[i];
    ghost var below, cs := last.repr - {last}, last.children;
    assert last.Valid() && Kids(cs, below);
    ghost var trees := Trees(cs, below);
    forall k | 0 <= k < |kids| && k != m ensures last !in kids[k].repr {
      assert kids[k].repr !! last.repr;
    }
    if child.id == NL {
      last.text := Some(last.text.s + " ");
    } else {
      last.text := Merged(last.text, child.text);
    }
    assert Kids(cs, below) && Trees(cs, below) == trees;
    ghost var vals' := vals[m := Joined(vals[m], vals[i])];
    forall k | 0 <= k < |kids| ensures kids[k].Valid() && kids[k].Tree() == vals'[k] {
      assert old(kids[k].Valid() && kids[k].Tree() == vals[k]);
      if k != m {
        assert last !in old(kids[k].repr);
        assert kids[k] in old(kids[k].repr);
      }
    }
  }

  /** Tidying one child; the trees of the others stay. */
  method FixChild(ghost kids: seq<DocNode?>, child: DocNode, ghost all: set<DocNode>, ghost vals: seq<Node>,
                  ghost i: int)
    requires Known(kids, all, vals) && 0 <= i < |kids| && kids[i] == child && WellFormed(vals[i])
    modifies child.repr`text, child.repr`children
    ensures Known(kids, all, vals[i := Fixed(vals[i])])
    decreases all, 2
  {
    assert child.Tree() == vals[i];
    FixupTree(child);
    ghost var vals' := vals[i := Fixed(vals[i])];
    forall k | 0 <= k < |kids| ensures kids[k].Valid() && kids[k].Tree() == vals'[k] {
      assert old(kids[k].Valid() && kids[k].Tree() == vals[k]);
      if k != i {
        assert old(kids[k].repr !! child.repr);
        assert kids[k] in old(kids[k].repr);
        assert unchanged(kids[k]);
        assert unchanged(kids[k].repr);
      }
    }
  }

  /** One turn of the loop over the children. */
  method FixOne(ghost kids: seq<DocNode?>, cs: seq<DocNode?>, i: nat, last: DocNode?, ghost all: set<DocNode>,
                ghost vals: seq<Node>, ghost ts: seq<Node>, ghost m: int)
      returns (cs': seq<DocNode?>, last': DocNode?, ghost vals': seq<Node>, ghost m': int)
    requires Known(kids, all, vals) && Ahead(kids, cs, vals, ts, i, last, m) && i < |cs|
    modifies all`text, all`children
    ensures Known(kids, all, vals') && Ahead(kids, cs', vals', ts, i + 1, last', m')
    decreases all, 3
  {
    var child := cs[i];
    assert child.Tree() == vals[i] == ts[i];
    assert last != null ==> last == kids[m] && last.Tree() == vals[m];
    if (child.id == Text || child.id == NL) && last != null && last.id == Text {
      JoinStep(kids, cs, vals, ts, i, last, m);
      vals' := vals[m := Joined(vals[m], vals[i])];
      TakeText(kids, last, child, all, vals, m, i);
      cs' := cs[i := null];
      last', m' := last, m;
    } else {
      KeepStep(kids, cs, vals, ts, i, last, m);
      vals' := vals[i := Fixed(vals[i])];
      FixChild(kids, child, all, vals, i);
      cs' := cs;
      last', m' := child, i;
    }
  }

  /** The loop of `doc_node_fixup_tree` over the children; those that were taken over leave a gap. */
  method FixEach(kids: seq<DocNode?>, ghost all: set<DocNode>, ghost ts: seq<Node>)
      returns (cs: seq<DocNode?>, ghost vals: seq<Node>)
    requires Known(kids, all, ts) && AllWellFormed(ts)
    modifies all`text, all`children
    ensures Known(kids, all, vals) && Subseq(cs, kids)
    ensures Picked(cs, vals) == Absorbed([], ts)
    decreases all, 4
  {
    ghost var m := -1;
    vals := ts;
    cs := kids;
    var last: DocNode? := null;
    var i := 0;
    while i < |cs|
      invariant Known(kids, all, vals) && Ahead(kids, cs, vals, ts, i, last, m)
      decreases |kids| - i
    {
      cs, last, vals, m := FixOne(kids, cs, i, last, all, vals, ts, m);
      i := i + 1;
    }
    AllDone(kids, cs, vals, ts, i, last, m);
  }

  /** The loops of `doc_node_fixup_tree`. */
  method FixChildren(n: DocNode)
    requires n.Valid() && AllWellFormed(n.Tree().children)
    modifies n.repr`text, n.repr`children
    ensures n.text == old(n.text)
    ensures n.Valid() && n.Tree().children == Absorbed([], old(n.Tree().children))
    decreases n.repr, 0
  {
    ghost var all, kids := n.repr - {n}, n.children;
    ghost var ts := Trees(kids, all);
    TreesKnown(kids, all);
    var cs;
    ghost var vals;
    cs, vals := FixEach(n.children, all, ts);
    PickedTrees(cs, kids, all, vals);
    cs := Compact(cs);
    n.children := cs;
  }

  lemma AllDone(kids: seq<DocNode?>, cs: seq<DocNode?>, vals: seq<Node>, ts: seq<Node>, i: nat, last: DocNode?, m: int)
    requires Ahead(kids, cs, vals, ts, i, last, m) && i == |cs|
    ensures Picked(cs, vals) == Absorbed([], ts)
  {
    assert cs[..i] == cs && vals[..i] == vals && ts[i..] == [];
  }

  /** Trailing white space of a text that is not `TEXT`. */
  method StripText(n: DocNode)
    requires n.Valid()
    modifies n`text
    ensures n.Valid() && n.Tree() == old(n.Tree()).(text := OwnText(n.id, old(n.text)))
  {
    ghost var all, kids := n.repr - {n}, n.children;
    ghost var trees := Trees(kids, all);
    if n.id != Text && n.text.Some? {
      var t := StripTrailing(n.text.s);
      n.text := Some(t);
    }
    assert Kids(kids, all) && Trees(kids, all) == trees;
  }

  /** A line break at the end of the children goes. */
  method DropBreak(n: DocNode)
    requires n.Valid() && n.children != []
    modifies n`children
    ensures n.Valid() && n.Tree() == old(n.Tree()).(children := Trimmed(old(n.Tree()).children))
  {
    ghost var all, kids := n.repr - {n}, n.children;
    LastChild(kids, all);
    ghost var front := kids[..|kids| - 1];
    ghost var trees, less := Trees(kids, all), Trees(front, all);
    var last := n.children[|n.children| - 1];
    if last.id == NL {
      n.children := n.children[..|n.children| - 1];
    }
    assert Kids(kids, all) && Trees(kids, all) == trees;
    assert Kids(front, all) && Trees(front, all) == less;
  }

  /** `doc_node_fixup_tree` */
  method FixupTree(n: DocNode)
    requires n.Valid() && WellFormed(n.Tree())
    modifies n.repr`text, n.repr`children
    ensures n.Valid() && n.Tree() == Fixed(old(n.Tree()))
    ensures Says(old(n.Tree()), n.Tree()) && Tidied(n.Tree())
    decreases n.repr, 1
  {
    FixedSays(n.Tree());
    FixedTidied(n.Tree());
    StripText(n);
    if |n.children| > 0 {
      DropBreak(n);
      FixChildren(n);
    } else {
      assert n.Tree().children == [];
    }
  }

  lemma LastChild(kids: seq<DocNode?>, all: set<DocNode>)
    requires Kids(kids, all) && null !in kids && kids != []
    ensures var l := |kids| - 1;
      && Kids(kids[..l], all) && Trees(kids[..l], all) == Trees(kids, all)[..|Trees(kids, all)| - 1]
      && |Trees(kids, all)| == |kids| && Trees(kids, all)[l].id == kids[l].id
  {
    var l := |kids| - 1;
    TreesKnown(kids, all);
    assert kids == kids[..l] + [kids[l]];
    assert Kids(kids[..l], all);
    TreesGrow(kids[..l], all, kids[l], all);
    assert Trees(kids, all)[l] == kids[l].Tree();
  }
}
