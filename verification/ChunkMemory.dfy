/** The memory the pool manages, in cells of 32 bytes: the size of a chunk header, and a divisor of every chunk
    address and size. A cell is read as a chunk header (`AllocChunk`) or as four words of payload. */
module ChunkMemory {

  datatype Cell = Cell(next: int, prev: int, prevSize: int, size: int)

  /** The cells written so far; every other cell still reads as `blank`. */
  datatype Memory = Memory(cells: map<int, Cell>, blank: Cell)

  function At(m: Memory, p: int): Cell {
    if p in m.cells then m.cells[p] else m.blank
  }

  function Store(m: Memory, p: int, c: Cell): Memory { m.(cells := m.cells[p := c]) }

  function SetNext(m: Memory, p: int, q: int): Memory { Store(m, p, At(m, p).(next := q)) }

  function SetPrev(m: Memory, p: int, q: int): Memory { Store(m, p, At(m, p).(prev := q)) }

  /** `RemoveLeaveDangling` */
  function Unlinked(m: Memory, p: int): Memory {
    var c := At(m, p);
    SetPrev(SetNext(m, c.prev, c.next), c.next, c.prev)
  }

  /** `p->InsertAfter(x)` */
  function InsertedAfter(m: Memory, p: int, x: int): Memory {
    var n := At(m, x).next;
    var m1 := Store(m, p, At(m, p).(prev := x, next := n));
    SetNext(SetPrev(m1, n, p), x, p)
  }

  /** `p->InsertBefore(x)` */
  function InsertedBefore(m: Memory, p: int, x: int): Memory {
    var b := At(m, x).prev;
    var m1 := Store(m, p, At(m, p).(next := x, prev := b));
    SetNext(SetPrev(m1, x, p), b, p)
  }

  /** `SetSizeFree` and `SetSizeInUse`: the size word of a chunk is kept in its header and in the one after it. */
  function SetSize(m: Memory, p: int, size: int, word: int): Memory {
    var m1 := Store(m, p + size, At(m, p + size).(prevSize := word));
    Store(m1, p, At(m1, p).(size := word))
  }

  /** Node `i` of the circular list with header `h` and members `s`; both ends are the header. */
  function Node(h: int, s: seq<int>, i: int): int {
    if 0 <= i < |s| then s[i] else h
  }

  ghost predicate Distinct(s: seq<int>) {
    forall i, j :: 0 <= i < j < |s| ==> s[i] != s[j]
  }

  ghost predicate Linked(m: Memory, h: int, s: seq<int>) {
    forall i, j :: -1 <= i && j == i + 1 && j <= |s| ==>
      At(m, Node(h, s, i)).next == Node(h, s, j) && At(m, Node(h, s, j)).prev == Node(h, s, i)
  }

  /** The header `h` and the chunks `s` form one well-linked circular list, in the order of the next pointers. */
  ghost predicate IsRing(m: Memory, h: int, s: seq<int>) {
    h !in s && Distinct(s) && Linked(m, h, s)
  }

  ghost predicate SameSizes(m: Memory, m': Memory) {
    forall p :: At(m', p).size == At(m, p).size && At(m', p).prevSize == At(m, p).prevSize
  }

  ghost predicate SameOutside(m: Memory, m': Memory, s: set<int>) {
    forall p :: p !in s ==> At(m', p) == At(m, p)
  }

  /** Following the links of a list member. */
  lemma RingStep(m: Memory, h: int, s: seq<int>, k: int)
    requires IsRing(m, h, s) && -1 <= k <= |s|
    ensures k < |s| ==> At(m, Node(h, s, k)).next == Node(h, s, k + 1)
    ensures 0 <= k ==> At(m, Node(h, s, k)).prev == Node(h, s, k - 1)
    ensures k < |s| ==> (Node(h, s, k) == h <==> k == -1)
  {
    if k < |s| { assert Node(h, s, k + 1) == Node(h, s, k + 1); }
    if 0 <= k { assert Node(h, s, k - 1) == Node(h, s, k - 1); }
  }

  lemma RingFrame(m: Memory, m': Memory, h: int, s: seq<int>)
    requires IsRing(m, h, s)
    requires forall p :: p == h || p in s ==> At(m', p).next == At(m, p).next && At(m', p).prev == At(m, p).prev
    ensures IsRing(m', h, s)
  {}

  function Without(s: seq<int>, k: nat): seq<int>
    requires k < |s|
  {
    s[..k] + s[k + 1..]
  }

  function With(s: seq<int>, k: nat, p: int): seq<int>
    requires k <= |s|
  {
    s[..k] + [p] + s[k..]
  }

  lemma RingRemove(m: Memory, h: int, s: seq<int>, k: nat)
    requires k < |s| && IsRing(m, h, s)
    ensures IsRing(Unlinked(m, s[k]), h, Without(s, k))
    ensures At(m, s[k]).prev == Node(h, s, k - 1) && At(m, s[k]).next == Node(h, s, k + 1)
    ensures SameSizes(m, Unlinked(m, s[k]))
  {
    assert At(m, Node(h, s, k)).prev == Node(h, s, k - 1) && At(m, Node(h, s, k)).next == Node(h, s, k + 1);
    RemoveLinks(m, Unlinked(m, s[k]), h, s, k);
  }

  lemma RemoveLinks(m: Memory, m': Memory, h: int, s: seq<int>, k: nat)
    requires k < |s| && IsRing(m, h, s)
    requires At(m', Node(h, s, k - 1)).next == Node(h, s, k + 1) && At(m', Node(h, s, k + 1)).prev == Node(h, s, k - 1)
    requires forall q :: q != Node(h, s, k - 1) ==> At(m', q).next == At(m, q).next
    requires forall q :: q != Node(h, s, k + 1) ==> At(m', q).prev == At(m, q).prev
    ensures IsRing(m', h, Without(s, k))
  {
    var t := Without(s, k);
    forall i, j | -1 <= i && j == i + 1 && j <= |t|
      ensures At(m', Node(h, t, i)).next == Node(h, t, j) && At(m', Node(h, t, j)).prev == Node(h, t, i)
    {
      var i' := if i < k then i else i + 1;
      var j' := if j < k then j else j + 1;
      assert Node(h, t, i) == Node(h, s, i') && Node(h, t, j) == Node(h, s, j');
    }
  }

  lemma RingInsertAfter(m: Memory, h: int, s: seq<int>, k: nat, p: int)
    requires k <= |s| && IsRing(m, h, s) && p !in s && p != h
    ensures IsRing(InsertedAfter(m, p, Node(h, s, k - 1)), h, With(s, k, p))
    ensures SameSizes(m, InsertedAfter(m, p, Node(h, s, k - 1)))
    ensures SameOutside(m, InsertedAfter(m, p, Node(h, s, k - 1)), (set q | q in s) + {h, p})
  {
    var x := Node(h, s, k - 1);
    var n := Node(h, s, k);
    assert At(m, x).next == n && At(m, n).prev == x;
    var m' := InsertedAfter(m, p, x);
    InsertLinks(m, m', h, s, k, p);
  }

  lemma RingInsertBefore(m: Memory, h: int, s: seq<int>, k: nat, p: int)
    requires k <= |s| && IsRing(m, h, s) && p !in s && p != h
    ensures IsRing(InsertedBefore(m, p, Node(h, s, k)), h, With(s, k, p))
    ensures SameSizes(m, InsertedBefore(m, p, Node(h, s, k)))
    ensures SameOutside(m, InsertedBefore(m, p, Node(h, s, k)), (set q | q in s) + {h, p})
  {
    var x := Node(h, s, k - 1);
    var n := Node(h, s, k);
    assert At(m, x).next == n && At(m, n).prev == x;
    var m' := InsertedBefore(m, p, n);
    InsertLinks(m, m', h, s, k, p);
  }

  lemma InsertLinks(m: Memory, m': Memory, h: int, s: seq<int>, k: nat, p: int)
    requires k <= |s| && IsRing(m, h, s) && p !in s && p != h
    requires At(m', p).next == Node(h, s, k) && At(m', p).prev == Node(h, s, k - 1)
    requires At(m', Node(h, s, k - 1)).next == p && At(m', Node(h, s, k)).prev == p
    requires forall q :: q != p && q != Node(h, s, k - 1) ==> At(m', q).next == At(m, q).next
    requires forall q :: q != p && q != Node(h, s, k) ==> At(m', q).prev == At(m, q).prev
    ensures IsRing(m', h, With(s, k, p))
  {
    var t := With(s, k, p);
    forall i, j | -1 <= i && j == i + 1 && j <= |t|
      ensures At(m', Node(h, t, i)).next == Node(h, t, j) && At(m', Node(h, t, j)).prev == Node(h, t, i)
    {
      assert Node(h, t, k) == p;
      var i' := if i < k then i else i - 1;
      var j' := if j < k then j else j - 1;
      assert i != k ==> Node(h, t, i) == Node(h, s, i');
      assert j != k ==> Node(h, t, j) == Node(h, s, j');
    }
  }

  lemma WithMembers(s: seq<int>, k: nat, p: int)
    requires k <= |s|
    ensures forall q :: q in With(s, k, p) <==> q == p || q in s
  {
    assert s == s[..k] + s[k..];
  }

  lemma WithoutMembers(s: seq<int>, k: nat)
    requires k < |s| && Distinct(s)
    ensures forall q :: q in Without(s, k) <==> q != s[k] && q in s
  {
    assert s == s[..k] + [s[k]] + s[k + 1..];
  }
}
