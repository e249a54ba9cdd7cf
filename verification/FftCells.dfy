/** Where the groups of eight lie that a stage works on, and what the loops over groups and offsets leave in every
    place. */
module FftCells {
  import opened BitReversal
  import opened Butterflies
  import opened FirstStage
  import opened FftPasses

  function Kth(n: int, k: int): int {
    if k == 0 then 0 else if k == 1 then n else if k == 2 then 2 * n else if k == 3 then 3 * n
    else if k == 4 then 4 * n else if k == 5 then 5 * n else if k == 6 then 6 * n else 7 * n
  }

  function Ith(f: Eight, k: int): Complex {
    if k == 0 then f.e0 else if k == 1 then f.e1 else if k == 2 then f.e2 else if k == 3 then f.e3
    else if k == 4 then f.e4 else if k == 5 then f.e5 else if k == 6 then f.e6 else f.e7
  }

  /** Element `k` of the group at offset `o` of row section `g`; elements of a group are `n` apart, sections `8 * n`
      long. */
  function Place(n: nat, g: nat, k: int, o: int): int { Times(g, 8 * n) + Kth(n, k) + o }

  predicate Fits(n: nat, groups: nat, g: nat, k: int, o: int) { g < groups && 0 <= k < 8 && 0 <= o < n }

  lemma PlaceRange(n: nat, groups: nat, g: nat, k: int, o: int)
    requires Fits(n, groups, g, k, o)
    ensures Times(g, 8 * n) <= Place(n, g, k, o) < Times(g, 8 * n) + 8 * n <= Times(groups, 8 * n)
  {
    TimesMonotone(g, groups, 8 * n);
  }

  lemma PlaceUnique(n: nat, groups: nat, g: nat, k: int, o: int, g': nat, k': int, o': int)
    requires Fits(n, groups, g, k, o) && Fits(n, groups, g', k', o')
    ensures Place(n, g, k, o) == Place(n, g', k', o') <==> g == g' && k == k' && o == o'
  {
    if g < g' {
      TimesMonotone(g, g', 8 * n);
    } else if g' < g {
      TimesMonotone(g', g, 8 * n);
    }
  }

  /** The group at offset `o` of section `g`. */
  function GroupAt(x: seq<Complex>, n: nat, g: nat, o: int): Eight { Get8(x, Times(g, 8 * n) + o, n) }

  lemma GroupPlaces(x: seq<Complex>, n: nat, g: nat, k: int, o: int)
    requires 0 <= k < 8
    ensures Ith(GroupAt(x, n, g, o), k) == At(x, Place(n, g, k, o))
  {}

  lemma SameEight(a: Eight, b: Eight)
    requires forall k {:trigger Ith(a, k)} :: 0 <= k < 8 ==> Ith(a, k) == Ith(b, k)
    ensures a == b
  {
    assert Ith(a, 0) == Ith(b, 0) && Ith(a, 1) == Ith(b, 1) && Ith(a, 2) == Ith(b, 2) && Ith(a, 3) == Ith(b, 3);
    assert Ith(a, 4) == Ith(b, 4) && Ith(a, 5) == Ith(b, 5) && Ith(a, 6) == Ith(b, 6) && Ith(a, 7) == Ith(b, 7);
  }

  lemma ChosenAt(z: Complex, p: int, n: int, e: Eight, k: int)
    requires 0 <= k < 8 && 0 < n
    ensures Chosen(z, p, n, e, p + Kth(n, k)) == Ith(e, k)
  {}

  lemma NotChosen(z: Complex, p: int, n: int, e: Eight, i: int)
    requires forall k {:trigger Kth(n, k)} :: 0 <= k < 8 ==> i != p + Kth(n, k)
    ensures Chosen(z, p, n, e, i) == z
  {
    assert i != p + Kth(n, 0) && i != p + Kth(n, 1) && i != p + Kth(n, 2) && i != p + Kth(n, 3);
    assert i != p + Kth(n, 4) && i != p + Kth(n, 5) && i != p + Kth(n, 6) && i != p + Kth(n, 7);
  }

  /** Writing one group changes that group. */
  lemma PutPlace(x: seq<Complex>, n: nat, groups: nat, g0: nat, o0: int, e: Eight, g: nat, k: int, o: int)
    requires |x| == Times(groups, 8 * n) && Fits(n, groups, g0, 0, o0) && Fits(n, groups, g, k, o)
    ensures At(Put8(x, Times(g0, 8 * n) + o0, n, e), Place(n, g, k, o))
      == if g == g0 && o == o0 then Ith(e, k) else At(x, Place(n, g, k, o))
  {
    var p, i := Times(g0, 8 * n) + o0, Place(n, g, k, o);
    PlaceRange(n, groups, g, k, o);
    PlaceRange(n, groups, g0, 7, o0);
    assert At(Put8(x, p, n, e), i) == Chosen(x[i], p, n, e, i);
    if g == g0 && o == o0 {
      ChosenAt(x[i], p, n, e, k);
    } else {
      forall k' {:trigger Kth(n, k')} | 0 <= k' < 8 ensures i != p + Kth(n, k') {
        PlaceUnique(n, groups, g, k, o, g0, k', o0);
      }
      NotChosen(x[i], p, n, e, i);
    }
  }

  lemma PutGroup(x: seq<Complex>, n: nat, groups: nat, g0: nat, o0: int, e: Eight, g: nat, o: int)
    requires |x| == Times(groups, 8 * n) && Fits(n, groups, g0, 0, o0) && Fits(n, groups, g, 0, o)
    ensures GroupAt(Put8(x, Times(g0, 8 * n) + o0, n, e), n, g, o)
      == if g == g0 && o == o0 then e else GroupAt(x, n, g, o)
  {
    var y := Put8(x, Times(g0, 8 * n) + o0, n, e);
    var want := if g == g0 && o == o0 then e else GroupAt(x, n, g, o);
    forall k {:trigger Ith(GroupAt(y, n, g, o), k)} | 0 <= k < 8 ensures Ith(GroupAt(y, n, g, o), k) == Ith(want, k) {
      PutPlace(x, n, groups, g0, o0, e, g, k, o);
      GroupPlaces(y, n, g, k, o);
      GroupPlaces(x, n, g, k, o);
    }
    SameEight(GroupAt(y, n, g, o), want);
  }

  /** A change puts the group it is made at through a butterfly, and leaves all other groups as they are. */
  ghost predicate ChangesGroup(c: Change, fly: Eight -> Eight, x: seq<Complex>, n: nat, groups: nat, g0: nat, o0: int,
                               g: nat, o: int) {
    var y := c(x, Times(g0, 8 * n) + o0);
    |x| == Times(groups, 8 * n) && Fits(n, groups, g0, 0, o0) && Fits(n, groups, g, 0, o) ==>
      |y| == |x| && GroupAt(y, n, g, o) == if g == g0 && o == o0 then fly(GroupAt(x, n, g, o)) else GroupAt(x, n, g, o)
  }

  lemma GroupOfChanges(fly: Eight -> Eight, x: seq<Complex>, n: nat, groups: nat, g0: nat, o0: int, g: nat, o: int)
    ensures ChangesGroup(GroupOf(fly, n), fly, x, n, groups, g0, o0, g, o)
  {
    if |x| == Times(groups, 8 * n) && Fits(n, groups, g0, 0, o0) && Fits(n, groups, g, 0, o) {
      PutGroup(x, n, groups, g0, o0, fly(GroupAt(x, n, g0, o0)), g, o);
    }
  }

  lemma {:induction false} AlongChanges(c: Change, fly: Eight -> Eight, x: seq<Complex>, n: nat, groups: nat, g0: nat,
                                        o0: int, g: nat, o: int)
    requires |x| == Times(groups, 8 * n) && g0 <= groups && 0 <= o0 < n && Fits(n, groups, g, 0, o)
    requires forall z: seq<Complex>, h: nat {:trigger ChangesGroup(c, fly, z, n, groups, h, o0, g, o)} ::
      ChangesGroup(c, fly, z, n, groups, h, o0, g, o)
    ensures var y := Along(c, x, Times(g0, 8 * n) + o0, 8 * n, groups - g0);
      |y| == |x| && GroupAt(y, n, g, o) == if g0 <= g && o == o0 then fly(GroupAt(x, n, g, o)) else GroupAt(x, n, g, o)
    decreases groups - g0
  {
    if g0 < groups {
      assert ChangesGroup(c, fly, x, n, groups, g0, o0, g, o);
      AlongChanges(c, fly, c(x, Times(g0, 8 * n) + o0), n, groups, g0 + 1, o0, g, o);
    }
  }

  /** The loop over groups does the groups at one offset. */
  lemma AlongGroups(fly: Eight -> Eight, x: seq<Complex>, n: nat, groups: nat, o0: int, g: nat, o: int)
    requires |x| == Times(groups, 8 * n) && 0 <= o0 < n && Fits(n, groups, g, 0, o)
    ensures var y := Along(GroupOf(fly, n), x, o0, 8 * n, groups);
      |y| == |x| && GroupAt(y, n, g, o) == if o == o0 then fly(GroupAt(x, n, g, o)) else GroupAt(x, n, g, o)
  {
    var c := GroupOf(fly, n);
    forall z: seq<Complex>, h: nat ensures ChangesGroup(c, fly, z, n, groups, h, o0, g, o) {
      GroupOfChanges(fly, z, n, groups, h, o0, g, o);
    }
    AlongChanges(c, fly, x, n, groups, 0, o0, g, o);
  }

  /** The loop over offsets: each has the butterfly that its table entries make. */
  lemma {:induction false} SweepGroups(flies: Kernel -> Eight -> Eight, next: Pointers -> Pointers,
                                       pts: int -> Pointers,
                                       x: seq<Complex>, n: nat, groups: nat, p: nat, cnt: nat, g: nat, o: int)
    requires |x| == Times(groups, 8 * n) && p + cnt <= n && Fits(n, groups, g, 0, o)
    requires forall q :: p <= q < p + cnt ==> pts(q + 1) == next(pts(q))
    ensures var a := Sweep(GroupsBy(flies, n), next, x, p, 8 * n, groups, pts(p), cnt);
      && |a.x| == |x| && a.pt == pts(p + cnt)
      && GroupAt(a.x, n, g, o)
        == if p <= o < p + cnt then flies(Radix8(pts(o).turns))(GroupAt(x, n, g, o)) else GroupAt(x, n, g, o)
    decreases cnt
  {
    if cnt > 0 {
      var fly := flies(Radix8(pts(p).turns));
      var x' := Along(GroupOf(fly, n), x, p, 8 * n, groups);
      AlongGroups(fly, x, n, groups, p, g, o);
      SweepGroups(flies, next, pts, x', n, groups, p + 1, cnt - 1, g, o);
    }
  }

  /** The two loops over offsets, one for each half. */
  lemma SweepsGroups(flies: Kernel -> Eight -> Eight, up: Pointers -> Pointers, down: Pointers -> Pointers,
                     pts: int -> Pointers,
                     x: seq<Complex>, n: nat, groups: nat, half: nat, g: nat, o: int)
    requires |x| == Times(groups, 8 * n) && n == 2 * half && Fits(n, groups, g, 0, o)
    requires forall q :: 0 <= q < half ==> pts(q + 1) == up(pts(q))
    requires forall q :: half <= q < n ==> pts(q + 1) == down(pts(q))
    ensures var a := Sweep(GroupsBy(flies, n), up, x, 0, 8 * n, groups, pts(0), half);
      var b := Sweep(GroupsBy(flies, n), down, a.x, half, 8 * n, groups, a.pt, half);
      |b.x| == |x| && GroupAt(b.x, n, g, o) == flies(Radix8(pts(o).turns))(GroupAt(x, n, g, o))
  {
    var a := Sweep(GroupsBy(flies, n), up, x, 0, 8 * n, groups, pts(0), half);
    SweepGroups(flies, up, pts, x, n, groups, 0, half, g, o);
    Second(flies, down, pts, a, x, n, groups, half, g, o);
  }

  lemma Second(flies: Kernel -> Eight -> Eight, down: Pointers -> Pointers, pts: int -> Pointers, a: Swept,
               x: seq<Complex>, n: nat, groups: nat, half: nat, g: nat, o: int)
    requires |x| == Times(groups, 8 * n) == |a.x| && n == 2 * half && Fits(n, groups, g, 0, o) && a.pt == pts(half)
    requires GroupAt(a.x, n, g, o) == if o < half then flies(Radix8(pts(o).turns))(GroupAt(x, n, g, o)) else GroupAt(x,
      n, g, o)
    requires forall q :: half <= q < n ==> pts(q + 1) == down(pts(q))
    ensures var b := Sweep(GroupsBy(flies, n), down, a.x, half, 8 * n, groups, a.pt, half);
      |b.x| == |x| && GroupAt(b.x, n, g, o) == flies(Radix8(pts(o).turns))(GroupAt(x, n, g, o))
  {
    SweepGroups(flies, down, pts, a.x, n, groups, half, half, g, o);
  }
}
