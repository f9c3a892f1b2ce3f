/**
 The allocator of the kernel heap (knl_Imalloc, knl_Ifree) and of the variable-size
 memory pool (knl_get_blk, knl_rel_blk): both work on the same rings in memory and
 differ in where the first header and the end marker lie.
 */
module Arena {
  import opened Common
  import opened Rings
  import opened FreeIndex
  import opened Areas

  /** Areas tile the memory, the index is sound and the two agree, but for the
      areas in `skip`, which are in transit.  (An equation, so that the verifier hands it
      on as one fact.) */
  ghost predicate Whole(lay: Layout, mem: Memory, R: seq<int>, ix: Index, live: map<int, int>, skip: set<int>) {
    true == (Tiled(lay, mem, R) && Indexed(mem, lay.F, ix) && Match(lay, mem, R, ix.sizes, live, skip))
  }

  /** Both memories have the same headers. */
  ghost predicate SameHeaders(lay: Layout, mem: Memory, mem': Memory, R: seq<int>) {
    |mem'| == |mem| && forall a :: a == lay.A || a in R ==> InMem(mem, a) && mem'[a] == mem[a]
  }

  /** Removing `x` from the index, seen from the areas. */
  lemma WholeRemove(lay: Layout, mem: Memory, R: seq<int>, ix: Index, live: map<int, int>, skip: set<int>, x: int)
      returns (ix': Index)
    requires Whole(lay, mem, R, ix, live, skip) && x in ix.sizes
    ensures Removable(mem, x)
    ensures ix'.sizes == ix.sizes - {x}
    ensures Whole(lay, RemoveFree(mem, x), R, ix', live, skip + {Header(lay, x)})
    ensures SameHeaders(lay, mem, RemoveFree(mem, x), R) && Spared(mem, RemoveFree(mem, x), live)
    ensures x in ix.ring ==> RemoveFree(mem, x)[x + 1].prev == ix.sizes[x]
  {
    ix' := RemoveIndexed(mem, lay.F, ix, x);
    var mem' := RemoveFree(mem, x);
    HeadersKept(lay, mem, mem', R, ix.sizes, live, skip);
    AreasFrame(lay, mem, mem', R);
    MatchFrame(lay, mem, mem', R, ix.sizes, live, skip);
    Unregister(lay, mem', R, ix.sizes, live, skip, x);
    SparesBlocks(lay, mem, R, ix, live, skip, mem, mem');
  }

  lemma HeadersKept(lay: Layout, mem: Memory, mem': Memory, R: seq<int>, sizes: map<int, int>, live: map<int, int>,
                    skip: set<int>)
    requires Tiled(lay, mem, R) && Match(lay, mem, R, sizes, live, skip) && Elsewhere(mem, mem', lay.F, sizes.Keys)
    ensures SameHeaders(lay, mem, mem', R)
  {
    forall a | a == lay.A || a in R ensures InMem(mem, a) && mem'[a] == mem[a] {
      FreeCellsAreNotHeaders(lay, mem, R, sizes, live, skip, a);
      RingMember(mem, lay.A, R, a);
      OutsideKept(mem, mem', lay.F, sizes.Keys, a);
    }
  }

  lemma RingMember(mem: Memory, s: int, ring: seq<int>, a: int)
    requires Ring(mem, s, ring) && (a == s || a in ring)
    ensures InMem(mem, a)
  {
    if a in ring {
      var k :| 0 <= k < |ring| && ring[k] == a;
      RingAt(mem, s, ring, k);
    }
  }

  lemma OutsideKept(mem: Memory, mem': Memory, F: int, xs: set<int>, a: int)
    requires Elsewhere(mem, mem', F, xs) && InMem(mem, a) && a != F && a !in xs && a - 1 !in xs
    ensures mem'[a] == mem[a]
  {
  }

  /** Registering the unused area `h` in transit, seen from the areas. */
  lemma WholeAppend(lay: Layout, mem: Memory, R: seq<int>, ix: Index, live: map<int, int>, skip: set<int>, h: int,
                    i: int, x: int, size: int) returns (ix': Index)
    requires Whole(lay, mem, R, ix, live, skip) && IsArea(lay, R, h) && HasBlock(lay, h) && h in skip
    requires InMem(mem, h) && !mem[h].inuse && x == Start(lay, h) && size == CELL * (Stop(lay, mem[h].next) - x)
    requires Place(ix, i, size)
    ensures var q := At(lay.F, ix.ring, i);
            && Appendable(mem, lay.F, x, q, size)
            && ix'.sizes == ix.sizes[x := size]
            && Whole(lay, AppendFree(mem, lay.F, x, q, size), R, ix', live, skip - {h})
            && SameHeaders(lay, mem, AppendFree(mem, lay.F, x, q, size), R)
            && Spared(mem, AppendFree(mem, lay.F, x, q, size), live)
  {
    Register(lay, mem, R, ix.sizes, live, skip, h);
    ix' := AppendAt(lay, mem, R, ix, live, skip - {h}, i, x, size);
  }

  lemma KeysUpdated(m: map<int, int>, x: int, v: int)
    ensures m[x := v].Keys == m.Keys + {x}
  {
  }

  /** The same, once the areas agree with the index that is about to be. */
  lemma AppendAt(lay: Layout, mem: Memory, R: seq<int>, ix: Index, live: map<int, int>, skip: set<int>, i: int, x: int,
                 size: int) returns (ix': Index)
    requires Tiled(lay, mem, R) && Indexed(mem, lay.F, ix) && Match(lay, mem, R, ix.sizes[x := size], live, skip)
    requires x !in ix.sizes && Place(ix, i, size)
    ensures var q := At(lay.F, ix.ring, i);
            && Appendable(mem, lay.F, x, q, size)
            && ix'.sizes == ix.sizes[x := size]
            && Whole(lay, AppendFree(mem, lay.F, x, q, size), R, ix', live, skip)
            && SameHeaders(lay, mem, AppendFree(mem, lay.F, x, q, size), R)
            && Spared(mem, AppendFree(mem, lay.F, x, q, size), live)
  {
    RegisterCells(lay, mem, R, ix.sizes[x := size], live, skip);
    KeysUpdated(ix.sizes, x, size);
    ix' := AppendIndexed(mem, lay.F, ix, i, x, size);
    WholeFrame(lay, mem, AppendFree(mem, lay.F, x, At(lay.F, ix.ring, i), size), R, ix', live, skip);
  }

  /** A cell of a used block is no header and belongs to no free area that is registered. */
  lemma InteriorCell(lay: Layout, mem: Memory, R: seq<int>, ix: Index, live: map<int, int>, skip: set<int>, x: int,
                     c: int)
    requires Whole(lay, mem, R, ix, live, skip) && x in live && x <= c < live[x]
    ensures InMem(mem, c) && c != lay.A && c !in R && c != lay.F && c !in ix.sizes && c - 1 !in ix.sizes
  {
    var h := Header(lay, x);
    BlockBounds(lay, mem, R, h);
    if c in R || c == lay.A { NoHeaderInside(lay, mem, R, h, c); }
    forall y | y in ix.sizes && (y == c || y == c - 1) ensures false {
      BlockBounds(lay, mem, R, Header(lay, y));
      BlocksDisjoint(lay, mem, R, h, Header(lay, y));
    }
  }

  /** The cell belongs to a block of `live`. */
  ghost predicate Inside(live: map<int, int>, c: int) {
    exists x :: x in live && x <= c < live[x]
  }

  /** No cell of a block of `live` has changed.  (An equation, so that the verifier hands it on
      as one fact.) */
  ghost predicate Spared(mem: Memory, mem': Memory, live: map<int, int>) {
    true == (|mem'| == |mem| && forall c {:trigger mem'[c]} :: InMem(mem, c) && Inside(live, c) ==> mem'[c] == mem[c])
  }

  lemma SparedAgain(m: Memory, m1: Memory, m2: Memory, live: map<int, int>)
    requires Spared(m, m1, live) && Spared(m1, m2, live)
    ensures Spared(m, m2, live)
  {
  }

  lemma SparedFewer(m: Memory, m': Memory, live: map<int, int>, fewer: map<int, int>)
    requires Spared(m, m', live) && forall x :: x in fewer ==> x in live && live[x] == fewer[x]
    ensures Spared(m, m', fewer)
  {
    forall c | InMem(m, c) && Inside(fewer, c) ensures Inside(live, c) {
      var x :| x in fewer && x <= c < fewer[x];
      assert x in live && x <= c < live[x];
    }
  }

  lemma SparedThroughout(m: Memory, m1: Memory, m2: Memory, m3: Memory, m4: Memory, live: map<int, int>)
    requires Spared(m, m1, live) && Spared(m1, m2, live) && Spared(m2, m3, live) && Spared(m3, m4, live)
    ensures Spared(m, m4, live)
  {
    SparedAgain(m, m1, m2, live);
    SparedAgain(m, m2, m3, live);
    SparedAgain(m, m3, m4, live);
  }

  /** Changes confined to headers and to registered free areas spare the used blocks. */
  lemma SparesBlocks(lay: Layout, mem: Memory, R: seq<int>, ix: Index, live: map<int, int>, skip: set<int>, m1: Memory,
                     m2: Memory)
    requires Whole(lay, mem, R, ix, live, skip) && |m1| == |m2| == |mem|
    requires forall a {:trigger m2[a]} ::
               InMem(mem, a) && a != lay.A && a !in R && a != lay.F && a !in ix.sizes && a - 1 !in ix.sizes ==>
               m2[a] == m1[a]
    ensures Spared(m1, m2, live)
  {
    forall c | InMem(m1, c) && Inside(live, c) ensures m2[c] == m1[c] {
      var x :| x in live && x <= c < live[x];
      InteriorCell(lay, mem, R, ix, live, skip, x, c);
    }
  }

  lemma RegisterReady(lay: Layout, mem: Memory, R: seq<int>, ix: Index, live: map<int, int>, skip: set<int>, h: int)
    requires Whole(lay, mem, R, ix, live, skip) && IsArea(lay, R, h) && HasBlock(lay, h) && InMem(mem, h)
    ensures Indexed(mem, lay.F, ix) && 0 <= lay.bytes && Start(lay, h) < Stop(lay, mem[h].next)
  {
    BlockBounds(lay, mem, R, h);
  }

  lemma RegisterCells(lay: Layout, mem: Memory, R: seq<int>, sizes: map<int, int>, live: map<int, int>, skip: set<int>)
    requires Tiled(lay, mem, R) && Match(lay, mem, R, sizes, live, skip)
    ensures Cells(mem, lay.F, sizes)
  {
    MatchCells(lay, mem, R, sizes, live, skip);
  }

  /** Work confined to the cells of the index leaves the areas in order. */
  lemma WholeFrame(lay: Layout, mem: Memory, mem': Memory, R: seq<int>, ix: Index, live: map<int, int>, skip: set<int>)
    requires Tiled(lay, mem, R) && Match(lay, mem, R, ix.sizes, live, skip) && Indexed(mem', lay.F, ix)
    requires Elsewhere(mem, mem', lay.F, ix.sizes.Keys)
    ensures Whole(lay, mem', R, ix, live, skip) && SameHeaders(lay, mem, mem', R) && Spared(mem, mem', live)
  {
    HeadersKept(lay, mem, mem', R, ix.sizes, live, skip);
    AreasFrame(lay, mem, mem', R);
    MatchFrame(lay, mem, mem', R, ix.sizes, live, skip);
    SparesBlocks(lay, mem', R, ix, live, skip, mem, mem');
  }

  /** Splitting the area `h` in transit at `e`, seen from the index. */
  lemma WholeSplit(lay: Layout, mem: Memory, R: seq<int>, ix: Index, live: map<int, int>, skip: set<int>, h: int,
                   e: int) returns (R': seq<int>)
    requires Whole(lay, mem, R, ix, live, skip) && IsArea(lay, R, h) && HasBlock(lay, h) && h in skip && InMem(mem, h)
    requires Start(lay, h) + 2 <= e && e + 3 <= Stop(lay, mem[h].next)
    ensures InMem(mem, e) && InMem(mem, mem[h].next) && h != e && e != lay.E && e != lay.A && e !in R
    ensures var mem' := InsertArea(mem, h, e);
            && Whole(lay, mem', R', ix, live, skip + {e}) && IsArea(lay, R', h) && IsArea(lay, R', e)
            && mem'[h] == mem[h].(next := e) && mem'[e] == Cell(mem[h].next, h, false)
            && (forall g :: IsArea(lay, R', g) <==> g == e || IsArea(lay, R, g))
            && OnlyLinks(mem, mem', {h}, {e}) && Spared(mem, mem', live)
  {
    var k := Locate(lay, mem, R, h);
    SplitAreas(lay, mem, R, h, k, e);
    InsertAreaLinks(lay, mem, R, h, k, e);
    InsertedNoDup(R, k + 1, e);
    R' := Inserted(R, k + 1, e);
    var mem' := InsertArea(mem, h, e);
    SplitMatch(lay, mem, mem', R, R', ix.sizes, live, skip, h, e);
    BlockBounds(lay, mem, R, h);
    assert R[k + 1] in R;
    SplitClear(lay, mem, R, ix, live, skip, h, e);
    FreeCellsAreNotHeaders(lay, mem, R, ix.sizes, live, skip, h);
    FreeCellsAreNotHeaders(lay, mem, R, ix.sizes, live, skip, R[k + 1]);
    IndexedFrame(mem, mem', lay.F, ix);
    assert IsArea(lay, R', e) && IsArea(lay, R', h) && (R[k + 1] == lay.E || IsArea(lay, R', R[k + 1]));
    SparesBlocks(lay, mem', R', ix, live, skip + {e}, mem, mem');
  }

  /** A cell inside a block that is not registered belongs to no registered area. */
  lemma SplitClear(lay: Layout, mem: Memory, R: seq<int>, ix: Index, live: map<int, int>, skip: set<int>, h: int,
                   e: int)
    requires Whole(lay, mem, R, ix, live, skip) && IsArea(lay, R, h) && HasBlock(lay, h) && h in skip && InMem(mem, h)
    requires Start(lay, h) <= e < Stop(lay, mem[h].next)
    ensures e !in ix.sizes && e - 1 !in ix.sizes && e != lay.F
  {
    MatchCells(lay, mem, R, ix.sizes, live, skip);
    BlockBounds(lay, mem, R, h);
    forall x | x in ix.sizes && (x == e || x == e - 1) ensures false {
      BlockBounds(lay, mem, R, Header(lay, x));
      BlocksDisjoint(lay, mem, R, h, Header(lay, x));
    }
  }

  /** The index lives in its own cells. */
  lemma IndexedFrame(mem: Memory, mem': Memory, F: int, ix: Index)
    requires Indexed(mem, F, ix) && |mem'| == |mem|
    requires forall a {:trigger mem'[a]} :: InMem(mem, a) && (a == F || a in ix.sizes || a - 1 in ix.sizes) ==>
               mem'[a].next == mem[a].next && mem'[a].prev == mem[a].prev
    requires forall a {:trigger mem'[a]} :: InMem(mem, a) && LinkCell(F, ix, a) && mem'[a].inuse ==> mem[a].inuse
    ensures Indexed(mem', F, ix)
  {
    RingInSizes(mem, ix);
    RingFrame(mem, mem', F, ix.ring);
    CellsFrame(mem, mem', F, ix.sizes);
    forall q | q in ix.chain ensures Chain(mem', ix.chain[q]) && InMem(mem', q + 1) && mem'[q + 1].prev == ix.sizes[q] {
      ChainCells(mem, F, ix, q);
      forall y | y in ix.chain[q] && InMem(mem, y) && InMem(mem, y + 1)
        ensures mem'[y + 1].next == mem[y + 1].next && mem'[y].next == mem[y].next
                && mem'[y + 1].prev == mem[y + 1].prev
      {
        assert y in ix.sizes && y + 1 - 1 in ix.sizes;
      }
      ChainFrame(mem, mem', ix.chain[q]);
    }
    forall a | LinkCell(F, ix, a) && InMem(mem', a) ensures !mem'[a].inuse { assert !mem[a].inuse; }
  }

  /** Cells outside `news` keep their flags, and outside `hs` their forward links, too. */
  ghost predicate OnlyLinks(mem: Memory, mem': Memory, hs: set<int>, news: set<int>) {
    && |mem'| == |mem|
    && (forall a {:trigger mem'[a]} :: InMem(mem, a) && a !in news ==> mem'[a].inuse == mem[a].inuse)
    && (forall a {:trigger mem'[a]} :: InMem(mem, a) && a !in news && a !in hs ==> mem'[a].next == mem[a].next)
  }

  /** Joining the area `h` in transit with the one behind it, `e`, seen from the index. */
  lemma WholeMerge(lay: Layout, mem: Memory, R: seq<int>, ix: Index, live: map<int, int>, skip: set<int>, h: int,
                   e: int) returns (R': seq<int>)
    requires Whole(lay, mem, R, ix, live, skip) && IsArea(lay, R, h) && HasBlock(lay, h) && h in skip && e in skip
    requires InMem(mem, h) && mem[h].next == e && e != lay.E
    ensures InMem(mem, e) && InMem(mem, mem[e].next) && InMem(mem, mem[e].prev)
    ensures var mem' := RemoveArea(mem, e);
            && Whole(lay, mem', R', ix, live, skip - {e}) && IsArea(lay, R', h)
            && mem'[h] == mem[h].(next := mem[e].next) && h != e && IsArea(lay, R, e)
            && (forall g :: IsArea(lay, R', g) <==> g != e && IsArea(lay, R, g))
            && OnlyLinks(mem, mem', {h}, {}) && Spared(mem, mem', live)
  {
    var k := Locate(lay, mem, R, h);
    assert k + 1 < |R| - 1;
    assert e in R && e != lay.A;
    MergeAreas(lay, mem, R, h, k);
    RemoveAreaLinks(lay, mem, R, h, k);
    RemovedNoDup(R, k + 1);
    R' := Removed(R, k + 1);
    var mem' := RemoveArea(mem, e);
    MergeMatch(lay, mem, mem', R, R', ix.sizes, live, skip, h, e);
    assert R[k + 2] in R;
    FreeCellsAreNotHeaders(lay, mem, R, ix.sizes, live, skip, h);
    FreeCellsAreNotHeaders(lay, mem, R, ix.sizes, live, skip, R[k + 2]);
    IndexedFrame(mem, mem', lay.F, ix);
    SparesBlocks(lay, mem, R, ix, live, skip, mem, mem');
  }

  /** How a split changes the headers: `aq` is followed by the new `aq2`. */
  ghost predicate HeadersSplit(lay: Layout, m: Memory, R: seq<int>, m': Memory, R': seq<int>, aq: int, aq2: int) {
    && |m'| == |m| && InMem(m, aq) && InMem(m, aq2) && aq != aq2 && aq2 !in R && aq2 != lay.A
    && (forall g :: IsArea(lay, R', g) <==> g == aq2 || IsArea(lay, R, g))
    && m'[aq] == m[aq].(next := aq2) && m'[aq2].next == m[aq].next && !m'[aq2].inuse
    && (forall g {:trigger m'[g]} :: (g == lay.E || IsArea(lay, R, g)) && InMem(m, g) && g != aq2 ==>
          m'[g].inuse == m[g].inuse && (g != aq ==> m'[g].next == m[g].next))
  }

  lemma SplitHeaders(lay: Layout, m: Memory, R: seq<int>, m1: Memory, m2: Memory, R': seq<int>, aq: int, aq2: int)
    requires InMem(m, aq) && InMem(m, aq2) && aq != aq2 && aq2 != lay.E && lay.E in R' && IsArea(lay, R, aq)
    requires aq2 !in R && aq2 != lay.A
    requires OnlyLinks(m, m1, {aq}, {aq2}) && SameHeaders(lay, m1, m2, R')
    requires m1[aq] == m[aq].(next := aq2) && m1[aq2] == Cell(m[aq].next, aq, false)
    requires forall g :: IsArea(lay, R', g) <==> g == aq2 || IsArea(lay, R, g)
    ensures HeadersSplit(lay, m, R, m2, R', aq, aq2)
  {
    forall g | (g == lay.E || IsArea(lay, R, g)) && InMem(m, g) && g != aq2 ensures m2[g] == m1[g] {
      assert IsArea(lay, R, g) ==> IsArea(lay, R', g);
    }
    assert IsArea(lay, R', aq2) && IsArea(lay, R', aq);
  }

  /** Using up the free area `aq` keeps unused areas apart. */
  lemma TakeCoalesced(lay: Layout, m0: Memory, m1: Memory, R: seq<int>, aq: int)
    requires Tiled(lay, m0, R) && Coalesced(lay, m0, R) && SameHeaders(lay, m0, m1, R) && IsArea(lay, R, aq)
             && InMem(m1, aq)
    ensures Coalesced(lay, SetUse(m1, aq, true), R)
  {
    var m2 := SetUse(m1, aq, true);
    forall h | IsArea(lay, R, h) && InMem(m2, h) && !m2[h].inuse ensures InMem(m2, m2[h].next) && m2[m2[h].next].inuse {
      var k := Locate(lay, m0, R, h);
      assert R[k + 1] in R;
    }
  }

  lemma SplitCoalesced(lay: Layout, m0: Memory, R: seq<int>, m1: Memory, m2: Memory, R': seq<int>, aq: int, aq2: int)
    requires Tiled(lay, m0, R) && Coalesced(lay, m0, R) && SameHeaders(lay, m0, m1, R) && IsArea(lay, R, aq)
    requires HeadersSplit(lay, m1, R, m2, R', aq, aq2) && InMem(m0, aq) && !m0[aq].inuse
    ensures Coalesced(lay, SetUse(m2, aq, true), R')
  {
    var m3 := SetUse(m2, aq, true);
    forall h | IsArea(lay, R', h) && InMem(m3, h) && !m3[h].inuse
      ensures InMem(m3, m3[h].next) && m3[m3[h].next].inuse {
      var g := if h == aq2 then aq else h;
      var k := Locate(lay, m0, R, g);
      assert R[k + 1] in R;
      assert m0[R[k + 1]].inuse && m1[g] == m0[g];
      assert m2[R[k + 1]].inuse == m1[R[k + 1]].inuse;
    }
  }

  lemma UseKeepsIndex(mem: Memory, F: int, ix: Index, h: int)
    requires Indexed(mem, F, ix) && InMem(mem, h) && !LinkCell(F, ix, h)
    ensures Indexed(SetUse(mem, h, true), F, ix) && Indexed(SetUse(mem, h, false), F, ix)
  {
    IndexedFrame(mem, SetUse(mem, h, true), F, ix);
    IndexedFrame(mem, SetUse(mem, h, false), F, ix);
  }

  /** No header holds a link of the index. */
  lemma HeaderUnlinked(lay: Layout, mem: Memory, R: seq<int>, ix: Index, live: map<int, int>, skip: set<int>, h: int)
    requires Whole(lay, mem, R, ix, live, skip) && IsArea(lay, R, h)
    ensures !LinkCell(lay.F, ix, h)
  {
    FreeCellsAreNotHeaders(lay, mem, R, ix.sizes, live, skip, h);
    RingInSizes(mem, ix);
  }

  /** What is known about a registered area. */
  lemma FreeAreaFacts(lay: Layout, mem: Memory, R: seq<int>, ix: Index, live: map<int, int>, x: int)
    requires Whole(lay, mem, R, ix, live, {}) && x in ix.sizes
    ensures var h := Header(lay, x);
            && IsArea(lay, R, h) && HasBlock(lay, h) && InMem(mem, h) && !mem[h].inuse && Start(lay, h) == x
            && x !in live
            && ix.sizes[x] == CELL * (Stop(lay, mem[h].next) - x) && x + 2 <= Stop(lay, mem[h].next)
  {
    MatchCells(lay, mem, R, ix.sizes, live, {});
    BlockBounds(lay, mem, R, Header(lay, x));
  }

  /** How a merge of `aq` with an unused area behind it, if any, changes the headers. */
  ghost predicate HeadersMerged(lay: Layout, m: Memory, R: seq<int>, m': Memory, R': seq<int>, aq: int) {
    && |m'| == |m| && InMem(m, aq) && InMem(m, m[aq].next)
    && var n := m[aq].next;
       if m[n].inuse then m' == m && R' == R
       else
         && n != lay.E && n != aq && n != lay.A && IsArea(lay, R, n)
         && (forall g :: IsArea(lay, R', g) <==> g != n && IsArea(lay, R, g))
         && m'[aq] == m[aq].(next := m[n].next)
         && (forall g {:trigger m'[g]} :: (g == lay.E || IsArea(lay, R, g)) && InMem(m, g) ==>
               m'[g].inuse == m[g].inuse && (g != aq ==> m'[g].next == m[g].next))
  }

  lemma MergedHeaders(lay: Layout, m: Memory, R: seq<int>, m1: Memory, m2: Memory, R': seq<int>, aq: int, n: int)
    requires InMem(m, aq) && n == m[aq].next && InMem(m, n) && !m[n].inuse && n != lay.E && n != aq && n != lay.A
    requires lay.E in R && IsArea(lay, R, aq) && IsArea(lay, R, n)
    requires SameHeaders(lay, m, m1, R) && OnlyLinks(m1, m2, {aq}, {}) && m2[aq].next == m1[n].next
             && m2[aq].prev == m1[aq].prev
    requires forall g :: IsArea(lay, R', g) <==> g != n && IsArea(lay, R, g)
    ensures HeadersMerged(lay, m, R, m2, R', aq)
  {
    assert m1[aq] == m[aq] && m1[n] == m[n];
  }

  /** What is known about the area behind `aq`. */
  lemma NextFacts(lay: Layout, mem: Memory, R: seq<int>, ix: Index, live: map<int, int>, aq: int)
    requires Whole(lay, mem, R, ix, live, {aq}) && IsArea(lay, R, aq) && HasBlock(lay, aq) && InMem(mem, aq)
    ensures var n := mem[aq].next;
            && InMem(mem, n) && n != aq && n != lay.A && lay.E in R && (n == lay.E || IsArea(lay, R, n))
            && mem[n].prev == aq
            && (!mem[n].inuse ==> n != lay.E && Start(lay, n) == n + 1 && n + 1 in ix.sizes && Header(lay, n + 1) == n)
  {
    var k := Locate(lay, mem, R, aq);
    assert R[k + 1] in R && R[|R| - 1] in R;
    var n := mem[aq].next;
    if n != lay.E {
      assert IsArea(lay, R, n);
      BlockBounds(lay, mem, R, n);
    }
  }

  /** Unused areas are apart, but for the unused area `aq` and its predecessor. */
  ghost predicate Nearly(lay: Layout, mem: Memory, R: seq<int>, aq: int) {
    forall h {:trigger IsArea(lay, R, h)} :: IsArea(lay, R, h) && InMem(mem, h) && !mem[h].inuse && h != aq
                                             && mem[h].next != aq ==>
      InMem(mem, mem[h].next) && mem[mem[h].next].inuse
  }

  lemma DeadNearly(lay: Layout, m: Memory, R: seq<int>, aq: int)
    requires Tiled(lay, m, R) && Coalesced(lay, m, R) && IsArea(lay, R, aq) && InMem(m, aq)
    ensures Nearly(lay, SetUse(m, aq, false), R, aq)
  {
  }

  lemma NextNearly(lay: Layout, m: Memory, R: seq<int>, m': Memory, R': seq<int>, aq: int)
    requires Tiled(lay, m, R) && IsArea(lay, R, aq) && Nearly(lay, m, R, aq) && HeadersMerged(lay, m, R, m', R', aq)
    ensures Nearly(lay, m', R', aq) && InMem(m', m'[aq].next) && m'[m'[aq].next].inuse && m'[aq].inuse == m[aq].inuse
  {
    var n := m[aq].next;
    if !m[n].inuse {
      var k := Locate(lay, m, R, aq);
      var j := Locate(lay, m, R, n);
      NextOnce(lay, m, R, aq, n);
      assert R[j + 1] in R;
      assert m[n].next != aq by { if m[n].next == aq { NextOnce(lay, m, R, n, aq); } }
      forall h | IsArea(lay, R', h) && InMem(m', h) && !m'[h].inuse && h != aq && m'[h].next != aq
        ensures InMem(m', m'[h].next) && m'[m'[h].next].inuse
      {
        var i := Locate(lay, m, R, h);
        assert R[i + 1] in R;
      }
    }
  }

  /** The links of two headers agree on who comes first. */
  lemma NextOnce(lay: Layout, m: Memory, R: seq<int>, h: int, g: int)
    requires Tiled(lay, m, R) && IsArea(lay, R, h) && InMem(m, h) && m[h].next == g
    ensures InMem(m, g) && m[g].prev == h && g != h && (IsArea(lay, R, g) ==> m[g].next != h)
  {
    var k := Locate(lay, m, R, h);
    if IsArea(lay, R, g) {
      var j := Locate(lay, m, R, g);
      if j != k + 1 { RingDistinct(m, lay.A, R, k + 1, j); }
      if k + 2 < |R| { RingDistinct(m, lay.A, R, k, k + 2); }
    }
  }

  lemma PrevCoalesced(lay: Layout, m: Memory, R: seq<int>, m': Memory, R': seq<int>, aq: int, p: int)
    requires Tiled(lay, m, R) && IsArea(lay, R, aq) && Nearly(lay, m, R, aq) && InMem(m, aq) && !m[aq].inuse
    requires InMem(m, m[aq].next) && m[m[aq].next].inuse && p == m[aq].prev && InMem(m, p)
    requires if m[p].inuse then m' == m && R' == R else IsArea(lay, R, p) && m[p].next == aq
                                                        && HeadersMerged(lay, m, R, m', R', p)
    ensures Coalesced(lay, m', R')
  {
    forall h | IsArea(lay, R', h) && InMem(m', h) && !m'[h].inuse
      ensures InMem(m', m'[h].next) && m'[m'[h].next].inuse
    {
      var i := Locate(lay, m, R, h);
      assert R[i + 1] in R;
      if m[h].next == aq { NextOnce(lay, m, R, h, aq); }
      if m[p].inuse {
      } else if h == p {
        var j := Locate(lay, m, R, aq);
        assert R[j + 1] in R;
      } else {
        assert m[h].next != aq;
      }
    }
  }

  lemma CoalescedFrame(lay: Layout, m: Memory, m': Memory, R: seq<int>)
    requires Tiled(lay, m, R) && Coalesced(lay, m, R) && SameHeaders(lay, m, m', R)
    ensures Coalesced(lay, m', R)
  {
    forall h | IsArea(lay, R, h) && InMem(m', h) && !m'[h].inuse ensures InMem(m', m'[h].next) && m'[m'[h].next].inuse {
      var i := Locate(lay, m, R, h);
      assert R[i + 1] in R;
    }
  }

  /** What is known about the area before `aq`. */
  lemma PrevFacts(lay: Layout, mem: Memory, R: seq<int>, ix: Index, live: map<int, int>, aq: int)
    requires Whole(lay, mem, R, ix, live, {aq}) && IsArea(lay, R, aq) && HasBlock(lay, aq) && InMem(mem, aq)
    ensures var p := mem[aq].prev;
            && InMem(mem, p)
            && (!mem[p].inuse ==> IsArea(lay, R, p) && HasBlock(lay, p) && p != aq && mem[p].next == aq && aq != lay.A
                                  && aq != lay.E
                                  && Start(lay, p) in ix.sizes && Header(lay, Start(lay, p)) == p)
  {
    var k := Locate(lay, mem, R, aq);
    var p := mem[aq].prev;
    RingAt(mem, lay.A, R, k);
    if !mem[p].inuse {
      assert k >= 0;
      RingAt(mem, lay.A, R, k - 1);
      RingDistinct(mem, lay.A, R, k - 1, k);
      assert k - 1 >= 0 ==> R[k - 1] in R;
      if k - 1 >= 0 { NoDupAt(R, k - 1, |R| - 1); }
      assert IsArea(lay, R, p);
      BlockBounds(lay, mem, R, p);
    }
  }

  /** Freeing: clrAreaFlag on the header of a live block. */
  lemma WholeDead(lay: Layout, mem: Memory, R: seq<int>, ix: Index, live: map<int, int>, x: int)
    requires Whole(lay, mem, R, ix, live, {}) && Coalesced(lay, mem, R) && x in live
    ensures var h := Header(lay, x);
            && InMem(mem, h) && mem[h].inuse && IsArea(lay, R, h) && HasBlock(lay, h)
            && Whole(lay, SetUse(mem, h, false), R, ix, live - {x}, {h}) && Nearly(lay, SetUse(mem, h, false), R, h)
            && Spared(mem, SetUse(mem, h, false), live - {x})
  {
    var h := Header(lay, x);
    MakeDead(lay, mem, R, ix.sizes, live, {}, x);
    assert {} + {h} == {h};
    UseKeepsIndex(mem, lay.F, ix, h);
    DeadNearly(lay, mem, R, h);
    SparesBlocks(lay, SetUse(mem, h, false), R, ix, live - {x}, {h}, mem, SetUse(mem, h, false));
  }

  /** The test of tk_rel_mpl and knl_rel_blk: the address is out of range, or the flag in the
      cell where its header would be is clear. */
  predicate Refused(lay: Layout, mem: Memory, x: int) {
    !(lay.base <= x <= lay.limit && InMem(mem, Header(lay, x)) && mem[Header(lay, x)].inuse)
  }

  /** An empty index. */
  lemma EmptyIndex(mem: Memory, F: int)
    requires InMem(mem, F) && mem[F] == Cell(F, F, false)
    ensures Indexed(mem, F, Index([], map[], map[]))
  {
    forall k | Slot([], k) ensures Joined(mem, At(F, [], k), At(F, [], k + 1)) { }
  }

  lemma HeapStart(lay: Layout, mem: Memory)
    requires LayoutOk(lay, |mem|) && !lay.pool && lay.base + 3 <= lay.limit
    requires mem[lay.F] == Cell(lay.F, lay.F, false)
    requires mem[lay.A] == Cell(lay.base, lay.E, true) && mem[lay.base] == Cell(lay.E, lay.A, false)
             && mem[lay.E] == Cell(lay.A, lay.base, true)
    ensures Whole(lay, mem, [lay.base, lay.E], Index([], map[], map[]), map[], {lay.base})
    ensures Coalesced(lay, mem, [lay.base, lay.E])
  {
    var R := [lay.base, lay.E];
    EmptyIndex(mem, lay.F);
    forall k | Slot(R, k) ensures Joined(mem, At(lay.A, R, k), At(lay.A, R, k + 1)) {
      assert k == -1 || k == 0 || k == 1;
    }
    forall i, j | Before(R, i, j) ensures R[i] != R[j] && R[i] + 3 <= Stop(lay, R[j]) { }
  }

  lemma PoolStart(lay: Layout, mem: Memory)
    requires LayoutOk(lay, |mem|) && lay.pool && lay.base + 2 <= lay.limit
    requires mem[lay.F] == Cell(lay.F, lay.F, false)
    requires mem[lay.A] == Cell(lay.E, lay.E, false) && mem[lay.E] == Cell(lay.A, lay.A, true)
    ensures Whole(lay, mem, [lay.E], Index([], map[], map[]), map[], {lay.A})
    ensures Coalesced(lay, mem, [lay.E])
  {
    var R := [lay.E];
    EmptyIndex(mem, lay.F);
    forall k | Slot(R, k) ensures Joined(mem, At(lay.A, R, k), At(lay.A, R, k + 1)) {
      assert k == -1 || k == 0;
    }
  }

  // --------------------------------------------------------------- the allocator

  const MIN_FRAGMENT := 2 * CELL

  /** INT_MAX & ~(ROUNDSZ - 1). */
  const MAX_ALLOCATE := 0x7FFFFFF8

  /** roundSize, and the rounding at the top of knl_Imalloc. */
  function Rounded(size: int): int {
    if size < MIN_FRAGMENT then MIN_FRAGMENT else (size + CELL - 1) / CELL * CELL
  }

  lemma RoundedProps(size: int)
    requires 0 < size <= MAX_ALLOCATE
    ensures size <= Rounded(size) <= MAX_ALLOCATE && Rounded(size) % CELL == 0 && Rounded(size) >= MIN_FRAGMENT
    ensures MIN_FRAGMENT <= size ==> Rounded(size) < size + CELL
  {
  }

  /** The rounding as the code does it, in an unsigned word that is then taken for a signed
      one. */
  function WordRounded(size: int): int {
    var u := (size + CELL - 1 - (size + CELL - 1) % CELL) % 0x1_0000_0000;
    if size < MIN_FRAGMENT then MIN_FRAGMENT else if u < 0x8000_0000 then u else u - 0x1_0000_0000
  }

  /** It is right exactly up to MAX_ALLOCATE; every argument above becomes the same negative
      size. */
  lemma WordRounding(size: int)
    requires 0 < size <= 0x7FFF_FFFF
    ensures size <= MAX_ALLOCATE <==> size <= WordRounded(size)
    ensures size <= MAX_ALLOCATE <==> WordRounded(size) == Rounded(size)
    ensures size > MAX_ALLOCATE ==> WordRounded(size) == -0x8000_0000
  {
    if size > MAX_ALLOCATE {
      assert (size + CELL - 1) / CELL == 0x1000_0000;
    }
  }

  /** What a request of `size` bytes gets from a free area of `room` bytes: just that, or all of
      it if the rest were too small to be an area. */
  function CutTo(room: int, size: int): int {
    if room - size < MIN_FRAGMENT + CELL then room else size
  }

  /** A request of `size` bytes was served with the block that starts at `x`: the
      best fit among the free areas `sizes`, cut down if that pays, so that less is wasted
      than another area would take. */
  ghost predicate Served(sizes: map<int, int>, live: map<int, int>, live': map<int, int>, x: int, size: int) {
    && x in sizes && x !in live && x in live' && live' == live[x := live'[x]]
    && CELL * (live'[x] - x) == CutTo(sizes[x], size)
    && size <= CELL * (live'[x] - x) <= sizes[x] && CELL * (live'[x] - x) < size + MIN_FRAGMENT + CELL
    && (forall y :: y in sizes && sizes[y] >= size ==> sizes[x] <= sizes[y])
  }

  ghost predicate NothingFits(sizes: map<int, int>, size: int) {
    forall x :: x in sizes ==> sizes[x] < size
  }

  /** What does not fit the areas `s` does not fit the areas `s'` either. */
  ghost predicate Shrunk(s: map<int, int>, s': map<int, int>) {
    forall b {:trigger NothingFits(s, b)} {:trigger NothingFits(s', b)} :: NothingFits(s, b) ==> NothingFits(s', b)
  }

  lemma ShrunkBy(s: map<int, int>, q: int, x: int, v: int)
    requires q in s && v <= s[q]
    ensures Shrunk(s, s - {q}) && Shrunk(s, (s - {q})[x := v])
  {
  }

  class Allocator {
    const lay: Layout
    var mem: Memory
    ghost var R: seq<int>
    ghost var ix: Index
    ghost var live: map<int, int>

    ghost predicate Valid()
      reads this
    {
      Whole(lay, mem, R, ix, live, {}) && Coalesced(lay, mem, R)
    }

    /** knl_init_Imalloc over memory with arbitrary contents `m0`. */
    constructor Heap(lay: Layout, m0: Memory)
      requires LayoutOk(lay, |m0|) && !lay.pool && lay.base + 3 <= lay.limit
      ensures Valid() && this.lay == lay && live == map[] && R == [lay.base, lay.E]
    {
      this.lay := lay;
      mem := m0;
      R, live, ix := [lay.base, lay.E], map[], Index([], map[], map[]);
      new;
      mem := QueInit(mem, lay.A);
      mem := QueInit(mem, lay.F);
      mem := InsertArea(mem, lay.A, lay.E);
      mem := InsertArea(mem, lay.A, lay.base);
      mem := SetUse(mem, lay.E, true);
      mem := SetUse(mem, lay.A, true);
      HeapStart(lay, mem);
      ghost var m1 := mem;
      AppendFreeArea(lay.base, {lay.base});
      assert {lay.base} - {lay.base} == {};
      CoalescedFrame(lay, m1, mem, R);
    }

    /** init_mempool. */
    constructor Pool(lay: Layout, m0: Memory)
      requires LayoutOk(lay, |m0|) && lay.pool && lay.base + 2 <= lay.limit
      ensures Valid() && this.lay == lay && live == map[] && R == [lay.E]
    {
      this.lay := lay;
      mem := m0;
      R, live, ix := [lay.E], map[], Index([], map[], map[]);
      new;
      mem := QueInit(mem, lay.A);
      mem := QueInit(mem, lay.F);
      mem := InsertArea(mem, lay.A, lay.E);
      mem := SetUse(mem, lay.E, true);
      PoolStart(lay, mem);
      ghost var m1 := mem;
      AppendFreeAreaBound(lay.A, {lay.A});
      assert {lay.A} - {lay.A} == {};
      CoalescedFrame(lay, m1, mem, R);
    }

    /** knl_MaxFreeSize. */
    method MaxFreeSize() returns (r: int)
      requires Valid()
      ensures forall b :: 0 < b ==> (r < b <==> NothingFits(ix.sizes, b))
    {
      RingEnds(mem, lay.F, ix);
      ghost var n := |ix.ring|;
      if n > 0 { RingStep(mem, lay.F, ix, 0); }
      if mem[lay.F].next == lay.F {
        assert Place(ix, 0, 1);
        BestFit(mem, lay.F, ix, 0, 1);
        return 0;
      }
      RingStep(mem, lay.F, ix, n - 1);
      r := mem[mem[lay.F].prev + 1].prev;
      forall b | 0 < b && r < b ensures NothingFits(ix.sizes, b) {
        assert Place(ix, n, b);
        BestFit(mem, lay.F, ix, n, b);
      }
    }

    /** knl_searchFreeArea: from the large end for requests above a quarter of the
        memory, from the small end otherwise. */
    method SearchFreeArea(blksz: int) returns (q: int, ghost i: int)
      requires Indexed(mem, lay.F, ix) && 0 < blksz && 0 <= lay.bytes
      ensures Place(ix, i, blksz) && q == At(lay.F, ix.ring, i)
      ensures q == lay.F <==> NothingFits(ix.sizes, blksz)
      ensures q != lay.F ==> q in ix.sizes && ix.sizes[q] >= blksz
                             && forall x :: x in ix.sizes && ix.sizes[x] >= blksz ==> ix.sizes[q] <= ix.sizes[x]
    {
      if blksz > lay.bytes / 4 {
        q, i := SearchDown(blksz);
      } else {
        q, i := SearchUp(blksz);
      }
      BestFit(mem, lay.F, ix, i, blksz);
    }

    /** knl_searchFreeArea for a registration: only the place counts. */
    method SearchPlace(blksz: int) returns (q: int, ghost i: int)
      requires Indexed(mem, lay.F, ix) && 0 < blksz && 0 <= lay.bytes
      ensures Place(ix, i, blksz) && q == At(lay.F, ix.ring, i)
    {
      q, i := SearchFreeArea(blksz);
    }

    /** The branch of knl_searchFreeArea that starts from the large end. */
    method SearchDown(blksz: int) returns (q: int, ghost i: int)
      requires Indexed(mem, lay.F, ix) && 0 < blksz
      ensures Place(ix, i, blksz) && q == At(lay.F, ix.ring, i)
    {
      RingEnds(mem, lay.F, ix);
      i := |ix.ring|;
      var fsz := 0;
      q := mem[lay.F].prev;
      while q != lay.F
        invariant 0 <= i <= |ix.ring| && q == At(lay.F, ix.ring, i - 1)
        invariant forall k :: i <= k < |ix.ring| ==> ix.ring[k] in ix.sizes && ix.sizes[ix.ring[k]] > blksz
        invariant if i == |ix.ring| then fsz == 0 else fsz == ix.sizes[ix.ring[i]]
        decreases i
      {
        i := i - 1;
        RingStep(mem, lay.F, ix, i);
        fsz := mem[q + 1].prev;
        if fsz <= blksz {
          if fsz < blksz {
            i := i + 1;
            q := mem[q].next;
          }
          return;
        }
        q := mem[q].prev;
      }
      if 0 < i { RingStep(mem, lay.F, ix, i - 1); }
      if fsz >= blksz {
        q := mem[q].next;
      }
    }

    /** The branch of knl_searchFreeArea that starts from the small end. */
    method SearchUp(blksz: int) returns (q: int, ghost i: int)
      requires Indexed(mem, lay.F, ix)
      ensures Place(ix, i, blksz) && q == At(lay.F, ix.ring, i)
    {
      RingEnds(mem, lay.F, ix);
      i := 0;
      q := mem[lay.F].next;
      while q != lay.F
        invariant 0 <= i <= |ix.ring| && q == At(lay.F, ix.ring, i)
        invariant forall k :: 0 <= k < i ==> ix.ring[k] in ix.sizes && ix.sizes[ix.ring[k]] < blksz
        decreases |ix.ring| - i
      {
        RingStep(mem, lay.F, ix, i);
        if mem[q + 1].prev >= blksz {
          break;
        }
        i := i + 1;
        q := mem[q].next;
      }
      if i < |ix.ring| { RingStep(mem, lay.F, ix, i); }
    }

    /** knl_removeFreeQue: the area goes into transit. */
    method RemoveFreeQue(x: int, ghost skip: set<int>)
      requires Whole(lay, mem, R, ix, live, skip) && x in ix.sizes
      modifies this`mem, this`ix
      ensures Whole(lay, mem, R, ix, live, skip + {Header(lay, x)})
      ensures ix.sizes == old(ix.sizes) - {x} && SameHeaders(lay, old(mem), mem, R) && Spared(old(mem), mem, live)
      ensures x in old(ix.ring) ==> InMem(mem, x + 1) && mem[x + 1].prev == old(ix.sizes[x])
    {
      ghost var ix' := WholeRemove(lay, mem, R, ix, live, skip, x);
      mem := RemoveFree(mem, x);
      ix := ix';
    }

    /** knl_appendFreeArea: register the area after header `aq`, which is in transit. */
    method AppendFreeArea(aq: int, ghost skip: set<int>)
      requires Whole(lay, mem, R, ix, live, skip) && IsArea(lay, R, aq) && aq != lay.A && aq in skip
      requires InMem(mem, aq) && !mem[aq].inuse && (lay.pool ==> mem[aq].next != lay.E)
      modifies this`mem, this`ix
      ensures Whole(lay, mem, R, ix, live, skip - {aq}) && SameHeaders(lay, old(mem), mem, R)
              && Spared(old(mem), mem, live)
      ensures ix.sizes == old(ix.sizes)[Start(lay, aq) := CELL * (Stop(lay, old(mem)[aq].next) - Start(lay, aq))]
    {
      Register1(aq, aq + 1, CELL * (mem[aq].next - (aq + 1)), skip);
    }

    /** knl_appendFreeAreaBound: the same for the first and the last area of a pool. */
    method AppendFreeAreaBound(aq: int, ghost skip: set<int>)
      requires Whole(lay, mem, R, ix, live, skip) && IsArea(lay, R, aq) && HasBlock(lay, aq) && aq in skip
      requires InMem(mem, aq) && !mem[aq].inuse
      modifies this`mem, this`ix
      ensures Whole(lay, mem, R, ix, live, skip - {aq}) && SameHeaders(lay, old(mem), mem, R)
              && Spared(old(mem), mem, live)
      ensures ix.sizes == old(ix.sizes)[Start(lay, aq) := CELL * (Stop(lay, old(mem)[aq].next) - Start(lay, aq))]
    {
      var top := if aq == lay.A then lay.base else aq + 1;
      var end := if mem[aq].next == lay.E then lay.limit else mem[aq].next;
      Register1(aq, top, CELL * (end - top), skip);
    }

    /** What both registration routines do once they know the extent. */
    method Register1(aq: int, x: int, size: int, ghost skip: set<int>)
      requires Whole(lay, mem, R, ix, live, skip) && IsArea(lay, R, aq) && HasBlock(lay, aq) && aq in skip
      requires InMem(mem, aq) && !mem[aq].inuse && x == Start(lay, aq) && size == CELL * (Stop(lay, mem[aq].next) - x)
      modifies this`mem, this`ix
      ensures Whole(lay, mem, R, ix, live, skip - {aq}) && SameHeaders(lay, old(mem), mem, R)
              && Spared(old(mem), mem, live)
      ensures ix.sizes == old(ix.sizes)[x := size]
    {
      RegisterReady(lay, mem, R, ix, live, skip, aq);
      ghost var i;
      var fq;
      fq, i := SearchPlace(size);
      ghost var ix' := WholeAppend(lay, mem, R, ix, live, skip, aq, i, x, size);
      mem := AppendFree(mem, lay.F, x, fq, size);
      ix := ix';
    }

    /** The area `aq` in transit is cut at `aq2`, and the second part registered. */
    method SplitOff(aq: int, aq2: int)
      requires Whole(lay, mem, R, ix, live, {aq}) && IsArea(lay, R, aq) && HasBlock(lay, aq) && InMem(mem, aq)
      requires Start(lay, aq) + 2 <= aq2 && aq2 + 3 <= Stop(lay, mem[aq].next)
      modifies this`mem, this`ix, this`R
      ensures Whole(lay, mem, R, ix, live, {aq}) && IsArea(lay, R, aq)
              && HeadersSplit(lay, old(mem), old(R), mem, R, aq, aq2) && Spared(old(mem), mem, live)
      ensures ix.sizes == old(ix.sizes)[aq2 + 1 := CELL * (Stop(lay, old(mem)[aq].next) - aq2 - 1)]
    {
      ghost var R' := WholeSplit(lay, mem, R, ix, live, {aq}, aq, aq2);
      mem := InsertArea(mem, aq, aq2);
      ghost var m1 := mem;
      R := R';
      if lay.pool && mem[aq2].next == lay.E {
        AppendFreeAreaBound(aq2, {aq} + {aq2});
      } else {
        AppendFreeArea(aq2, {aq} + {aq2});
      }
      assert {aq} + {aq2} - {aq2} == {aq};
      SparedAgain(old(mem), m1, mem, live);
      SplitHeaders(lay, old(mem), old(R), m1, mem, R, aq, aq2);
    }

    /** setAreaFlag(aq, AREA_USE). */
    method Occupy(aq: int)
      requires Whole(lay, mem, R, ix, live, {aq}) && IsArea(lay, R, aq) && HasBlock(lay, aq)
      modifies this`mem, this`live
      ensures Whole(lay, mem, R, ix, live, {}) && InMem(old(mem), aq) && mem == SetUse(old(mem), aq, true)
      ensures live == old(live)[Start(lay, aq) := Stop(lay, old(mem)[aq].next)] && Spared(old(mem), mem, old(live))
    {
      SparesBlocks(lay, mem, R, ix, live, {aq}, mem, SetUse(mem, aq, true));
      MakeLive(lay, mem, R, ix.sizes, live, {aq}, aq);
      assert {aq} - {aq} == {};
      HeaderUnlinked(lay, mem, R, ix, live, {aq}, aq);
      UseKeepsIndex(mem, lay.F, ix, aq);
      live := live[Start(lay, aq) := Stop(lay, mem[aq].next)];
      mem := mem[aq := mem[aq].(inuse := true)];
    }

    /** The common part of knl_Imalloc and knl_get_blk: take the ring member `q` out of
        the index, give back what is left over, and mark the block as used. */
    method Carve(q: int, size: int)
      requires Valid() && q in ix.ring && q in ix.sizes && ix.sizes[q] >= size >= MIN_FRAGMENT && size % CELL == 0
      modifies this`mem, this`ix, this`R, this`live
      ensures Valid() && q !in old(live) && q in live && live == old(live)[q := live[q]]
      ensures CELL * (live[q] - q) == CutTo(old(ix.sizes[q]), size)
      ensures Shrunk(old(ix.sizes), ix.sizes) && Spared(old(mem), mem, old(live))
    {
      FreeAreaFacts(lay, mem, R, ix, live, q);
      RemoveFreeQue(q, {});
      var aq := if q == lay.base then lay.A else q - 1;
      assert {} + {aq} == {aq};
      ghost var m1, R1 := mem, R;
      var n := size / CELL;
      assert size == CELL * n;
      if mem[q + 1].prev - size >= MIN_FRAGMENT + CELL {
        ShrunkBy(old(ix.sizes), q, q + n + 1, CELL * (Stop(lay, m1[aq].next) - (q + n) - 1));
        SplitOff(aq, q + n);
        assert Shrunk(old(ix.sizes), ix.sizes);
        ghost var m2 := mem;
        SparedAgain(old(mem), m1, m2, live);
        Occupy(aq);
        SparedAgain(old(mem), m2, mem, old(live));
        SplitCoalesced(lay, old(mem), R1, m1, m2, R, aq, q + n);
      } else {
        ShrunkBy(old(ix.sizes), q, q, 0);
        assert Shrunk(old(ix.sizes), ix.sizes);
        Occupy(aq);
        SparedAgain(old(mem), m1, mem, old(live));
        TakeCoalesced(lay, old(mem), m1, R, aq);
      }
    }

    /** knl_Imalloc.  The result is the first cell of the block, or NULL. */
    method Imalloc(size: int) returns (r: int)
      requires Valid() && !lay.pool && size <= MAX_ALLOCATE
      modifies this`mem, this`ix, this`R, this`live
      ensures Valid()
      ensures r == NULL <==> size <= 0 || NothingFits(old(ix.sizes), Rounded(size))
      ensures r == NULL ==> mem == old(mem) && live == old(live) && R == old(R) && ix == old(ix)
      ensures r != NULL ==> Served(old(ix.sizes), old(live), live, r, Rounded(size))
      ensures Spared(old(mem), mem, old(live))
    {
      if size <= 0 {
        return NULL;
      }
      WordRounding(size);
      r := Take(WordRounded(size));
    }

    /** Search and carve, as knl_Imalloc does between its interrupt locks and as
        knl_get_blk does throughout. */
    method Take(size: int) returns (r: int)
      requires Valid() && size >= MIN_FRAGMENT && size % CELL == 0
      modifies this`mem, this`ix, this`R, this`live
      ensures Valid()
      ensures r == NULL <==> NothingFits(old(ix.sizes), size)
      ensures r == NULL ==> mem == old(mem) && live == old(live) && R == old(R) && ix == old(ix)
      ensures r != NULL ==> Served(old(ix.sizes), old(live), live, r, size)
      ensures Shrunk(old(ix.sizes), ix.sizes) && Spared(old(mem), mem, old(live))
    {
      ghost var i;
      r, i := SearchFreeArea(size);
      if r == lay.F {
        return NULL;
      }
      FreeAreaFacts(lay, mem, R, ix, live, r);
      BlockBounds(lay, mem, R, Header(lay, r));
      assert r in ix.ring;
      Carve(r, size);
    }

    /** knl_get_blk. */
    method GetBlk(blksz: int) returns (r: int)
      requires Valid() && lay.pool && blksz >= MIN_FRAGMENT && blksz % CELL == 0
      modifies this`mem, this`ix, this`R, this`live
      ensures Valid()
      ensures r == NULL <==> NothingFits(old(ix.sizes), blksz)
      ensures r == NULL ==> mem == old(mem) && live == old(live) && R == old(R) && ix == old(ix)
      ensures r != NULL ==> Served(old(ix.sizes), old(live), live, r, blksz)
      ensures Shrunk(old(ix.sizes), ix.sizes) && Spared(old(mem), mem, old(live))
    {
      r := Take(blksz);
    }

    /** Merge the area `aq` in transit with the one behind it if that is unused. */
    method MergeNext(aq: int)
      requires Whole(lay, mem, R, ix, live, {aq}) && IsArea(lay, R, aq) && HasBlock(lay, aq) && InMem(mem, aq)
      modifies this`mem, this`ix, this`R
      ensures Whole(lay, mem, R, ix, live, {aq}) && IsArea(lay, R, aq)
      ensures HeadersMerged(lay, old(mem), old(R), mem, R, aq) && Spared(old(mem), mem, live)
    {
      NextFacts(lay, mem, R, ix, live, aq);
      var n := mem[aq].next;
      if !mem[n].inuse {
        RemoveFreeQue(n + 1, {aq});
        ghost var m1 := mem;
        ghost var R' := WholeMerge(lay, mem, R, ix, live, {aq} + {n}, aq, n);
        mem := RemoveArea(mem, n);
        R := R';
        assert {aq} + {n} - {n} == {aq};
        SparedAgain(old(mem), m1, mem, live);
        MergedHeaders(lay, old(mem), old(R), m1, mem, R, aq, n);
      }
    }

    /** Merge the area `aq` in transit with the one before it if that is unused. */
    method MergePrev(aq: int) returns (h: int)
      requires Whole(lay, mem, R, ix, live, {aq}) && IsArea(lay, R, aq) && HasBlock(lay, aq) && InMem(mem, aq)
               && !mem[aq].inuse
      requires Nearly(lay, mem, R, aq) && InMem(mem, mem[aq].next) && mem[mem[aq].next].inuse
      modifies this`mem, this`ix, this`R
      ensures Whole(lay, mem, R, ix, live, {h}) && IsArea(lay, R, h) && HasBlock(lay, h) && InMem(mem, h)
              && !mem[h].inuse
      ensures Coalesced(lay, mem, R) && Spared(old(mem), mem, live)
    {
      PrevFacts(lay, mem, R, ix, live, aq);
      var p := mem[aq].prev;
      if !mem[p].inuse {
        RemoveFreeQue(if p == lay.A then lay.base else p + 1, {aq});
        ghost var m1 := mem;
        ghost var R' := WholeMerge(lay, mem, R, ix, live, {aq} + {p}, p, aq);
        mem := RemoveArea(mem, aq);
        R := R';
        assert {aq} + {p} - {aq} == {p};
        SparedAgain(old(mem), m1, mem, live);
        assert old(R)[|old(R)| - 1] in old(R);
        MergedHeaders(lay, old(mem), old(R), m1, mem, R, p, aq);
        PrevCoalesced(lay, old(mem), old(R), mem, R, aq, p);
        h := p;
      } else {
        PrevCoalesced(lay, mem, R, mem, R, aq, p);
        h := aq;
      }
    }

    /** The common part of knl_Ifree and knl_rel_blk. */
    method Release(x: int)
      requires Valid() && x in live
      modifies this`mem, this`ix, this`R, this`live
      ensures Valid() && live == old(live) - {x} && Spared(old(mem), mem, live)
    {
      WholeDead(lay, mem, R, ix, live, x);
      var aq := if x == lay.base then lay.A else x - 1;
      mem := mem[aq := mem[aq].(inuse := false)];
      live := live - {x};
      ghost var m1, R1 := mem, R;
      MergeNext(aq);
      NextNearly(lay, m1, R1, mem, R, aq);
      ghost var m2 := mem;
      aq := MergePrev(aq);
      ghost var m3 := mem;
      if lay.pool && (aq == lay.A || mem[aq].next == lay.E) {
        AppendFreeAreaBound(aq, {aq});
      } else {
        AppendFreeArea(aq, {aq});
      }
      assert {aq} - {aq} == {};
      CoalescedFrame(lay, m3, mem, R);
      SparedThroughout(old(mem), m1, m2, m3, mem, live);
    }

    /** knl_Ifree of a block that was allocated and not freed since. */
    method Ifree(x: int)
      requires Valid() && !lay.pool && x in live
      modifies this`mem, this`ix, this`R, this`live
      ensures Valid() && live == old(live) - {x} && Spared(old(mem), mem, live)
    {
      Release(x);
    }

    /** knl_rel_blk of a pointer that is refused or that is the start of a used block. */
    method RelBlk(x: int) returns (er: Er)
      requires Valid() && lay.pool && lay.base <= x <= lay.limit && (Refused(lay, mem, x) || x in live)
      modifies this`mem, this`ix, this`R, this`live
      ensures Valid() && er == (if x in old(live) then E_OK else E_PAR) && live == old(live) - {x}
              && Spared(old(mem), mem, live)
      ensures er != E_OK ==> mem == old(mem) && live == old(live) && R == old(R) && ix == old(ix)
    {
      assert x in live ==> !Refused(lay, mem, x);
      var aq := if x == lay.base then lay.A else x - 1;
      if !mem[aq].inuse {
        return E_PAR;
      }
      Release(x);
      return E_OK;
    }
  }
}
