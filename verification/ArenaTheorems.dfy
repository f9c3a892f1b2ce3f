/**
 What the invariant of the allocator means for its users: blocks tile the memory,
 live blocks never overlap, and the division into areas depends only on which
 blocks are live, so freeing undoes allocating.
 */
module ArenaTheorems {
  import opened Common
  import opened Rings
  import opened FreeIndex
  import opened Areas
  import opened Arena

  /** A state of an allocator between two calls. */
  ghost predicate Sound(lay: Layout, mem: Memory, R: seq<int>, ix: Index, live: map<int, int>) {
    Whole(lay, mem, R, ix, live, {}) && Coalesced(lay, mem, R)
  }

  /** Cell `c` belongs to the area of header `h`: to its block, or it is the header. */
  predicate Owns(lay: Layout, mem: Memory, h: int, c: int) {
    InMem(mem, h) && (h == c || Start(lay, h) <= c < Stop(lay, mem[h].next))
  }

  /** Live blocks lie in the managed memory and are pairwise disjoint. */
  lemma LiveBlocksDisjoint(lay: Layout, mem: Memory, R: seq<int>, ix: Index, live: map<int, int>, x: int, y: int)
    requires Sound(lay, mem, R, ix, live) && x in live && y in live && x != y
    ensures lay.base <= x < live[x] <= lay.limit && (live[x] <= y || live[y] <= x)
  {
    BlockBounds(lay, mem, R, Header(lay, x));
    BlocksDisjoint(lay, mem, R, Header(lay, x), Header(lay, y));
  }

  /** Every cell of the managed memory belongs to an area... */
  lemma {:induction false} CellCovered(lay: Layout, mem: Memory, R: seq<int>, c: int, k: int)
    requires Tiled(lay, mem, R) && lay.base <= c < lay.limit && 0 <= k < |R| && Stop(lay, R[k]) > c
    ensures exists h :: IsArea(lay, R, h) && HasBlock(lay, h) && Owns(lay, mem, h, c)
    decreases k
  {
    RingAt(mem, lay.A, R, k - 1);
    if k == 0 {
      assert IsArea(lay, R, lay.A) && Owns(lay, mem, lay.A, c);
    } else {
      assert Before(R, k - 1, k);
      assert R[k - 1] in R;
      NoDupAt(R, k - 1, |R| - 1);
      if R[k - 1] > c {
        CellCovered(lay, mem, R, c, k - 1);
      } else {
        assert IsArea(lay, R, R[k - 1]) && Owns(lay, mem, R[k - 1], c);
      }
    }
  }

  /** ...and to one only. */
  lemma CellOwnedOnce(lay: Layout, mem: Memory, R: seq<int>, c: int, h: int, g: int)
    requires Tiled(lay, mem, R) && lay.base <= c < lay.limit
    requires IsArea(lay, R, h) && HasBlock(lay, h) && Owns(lay, mem, h, c)
    requires IsArea(lay, R, g) && HasBlock(lay, g) && Owns(lay, mem, g, c)
    ensures h == g
  {
    if h != g {
      BlocksDisjoint(lay, mem, R, h, g);
      NoHeaderInside(lay, mem, R, h, g);
      NoHeaderInside(lay, mem, R, g, h);
    }
  }

  /** The areas tile the managed memory: no gap and no overlap. */
  lemma Tiling(lay: Layout, mem: Memory, R: seq<int>, c: int)
    requires Tiled(lay, mem, R) && lay.base <= c < lay.limit
    ensures exists h :: IsArea(lay, R, h) && HasBlock(lay, h) && Owns(lay, mem, h, c)
    ensures forall h, g :: (IsArea(lay, R, h) && HasBlock(lay, h) && Owns(lay, mem, h, c)
                            && IsArea(lay, R, g) && HasBlock(lay, g) && Owns(lay, mem, g, c)) ==> h == g
  {
    CellCovered(lay, mem, R, c, |R| - 1);
    forall h, g | IsArea(lay, R, h) && HasBlock(lay, h) && Owns(lay, mem, h, c)
                  && IsArea(lay, R, g) && HasBlock(lay, g) && Owns(lay, mem, g, c) ensures h == g
    {
      CellOwnedOnce(lay, mem, R, c, h, g);
    }
  }

  // ---------------------------------------------------- areas follow from live blocks

  /** Both states put a header at `h`. */
  lemma SameHeader(lay: Layout, m: Memory, R: seq<int>, ix: Index, m': Memory, R': seq<int>, ix': Index,
                   live: map<int, int>, h: int)
    requires Sound(lay, m, R, ix, live) && Sound(lay, m', R', ix', live) && IsArea(lay, R, h)
    ensures IsArea(lay, R', h)
  {
    if h != lay.A {
      var k := Locate(lay, m, R, h);
      if m[h].inuse {
        BlockBounds(lay, m, R, h);
        assert Start(lay, h) in live;
      } else {
        var p := At(lay.A, R, k - 1);
        RingAt(m, lay.A, R, k - 1);
        assert k >= 1 ==> R[k - 1] in R;
        if k >= 1 { NoDupAt(R, k - 1, |R| - 1); }
        assert IsArea(lay, R, p) && m[p].next == h;
        assert m[p].inuse;
        assert h + 3 <= lay.limit;
        FollowsLive(lay, m, R, ix, m', R', ix', live, p, h);
      }
    }
  }

  /** What follows a used area in one state follows it in the other. */
  lemma FollowsLive(lay: Layout, m: Memory, R: seq<int>, ix: Index, m': Memory, R': seq<int>, ix': Index,
                    live: map<int, int>, p: int, h: int)
    requires Sound(lay, m, R, ix, live) && Sound(lay, m', R', ix', live) && IsArea(lay, R, p) && InMem(m, p)
    requires m[p].inuse && m[p].next == h && h != lay.E && h < lay.limit && h in R
    ensures IsArea(lay, R', h)
  {
    if HasBlock(lay, p) {
      BlockBounds(lay, m, R, p);
      assert Start(lay, p) in live;
      var j := Locate(lay, m', R', p);
      assert R'[j + 1] in R';
    } else {
      var k := Locate(lay, m, R, p);
      assert R[0] == h;
      assert R'[0] in R';
    }
  }

  lemma SameMember(a: seq<int>, b: seq<int>, x: int)
    requires (forall y :: y in a <==> y in b) && x in a
    ensures x in b
  {
  }

  /** Strictly increasing sequences with the same elements are equal. */
  lemma {:induction false} SortedSame(a: seq<int>, b: seq<int>)
    requires forall i, j {:trigger Before(a, i, j)} :: Before(a, i, j) ==> a[i] < a[j]
    requires forall i, j {:trigger Before(b, i, j)} :: Before(b, i, j) ==> b[i] < b[j]
    requires forall x :: x in a <==> x in b
    ensures a == b
    decreases |a|
  {
    if a != [] { SameMember(a, b, a[0]); }
    if b != [] { SameMember(b, a, b[0]); }
    if a != [] {
      assert a[0] == b[0] by {
        assert a[0] in a && b[0] in b;
        var i :| 0 <= i < |b| && b[i] == a[0];
        var j :| 0 <= j < |a| && a[j] == b[0];
        assert i > 0 ==> Before(b, 0, i);
        assert j > 0 ==> Before(a, 0, j);
      }
      forall x | x in a[1..] ensures x in b[1..] { TailOnly(a, b, x); }
      forall x | x in b[1..] ensures x in a[1..] { TailOnly(b, a, x); }
      forall i, j | Before(a[1..], i, j) ensures a[1..][i] < a[1..][j] { assert Before(a, i + 1, j + 1); }
      forall i, j | Before(b[1..], i, j) ensures b[1..][i] < b[1..][j] { assert Before(b, i + 1, j + 1); }
      SortedSame(a[1..], b[1..]);
      assert a == [a[0]] + a[1..] && b == [b[0]] + b[1..];
    }
  }

  lemma TailOnly(a: seq<int>, b: seq<int>, x: int)
    requires forall i, j {:trigger Before(a, i, j)} :: Before(a, i, j) ==> a[i] < a[j]
    requires forall y :: y in a <==> y in b
    requires a != [] && b != [] && a[0] == b[0] && x in a[1..]
    ensures x in b[1..]
  {
    var i :| 0 <= i < |a[1..]| && a[1..][i] == x;
    assert Before(a, 0, i + 1) && a[i + 1] in a;
    var j :| 0 <= j < |b| && b[j] == x;
    assert b[1..][j - 1] == x;
  }

  /** The headers before the end marker. */
  lemma HeadersSorted(lay: Layout, mem: Memory, R: seq<int>)
    requires Tiled(lay, mem, R)
    ensures var r := R[..|R| - 1];
            && (forall i, j {:trigger Before(r, i, j)} :: Before(r, i, j) ==> r[i] < r[j])
            && (forall x :: x in r <==> x != lay.A && IsArea(lay, R, x))
  {
    var r := R[..|R| - 1];
    forall i, j | Before(r, i, j) ensures r[i] < r[j] {
      assert Before(R, i, j);
      NoDupAt(R, j, |R| - 1);
    }
    forall x | x in r ensures x != lay.A && IsArea(lay, R, x) {
      var i :| 0 <= i < |r| && r[i] == x;
      NoDupAt(R, i, |R| - 1);
      assert R[i] in R;
    }
    forall x | x != lay.A && IsArea(lay, R, x) ensures x in r {
      var i :| 0 <= i < |R| && R[i] == x;
      assert r[i] == x;
    }
  }

  /** The division into areas, and the free index, follow from the live blocks. */
  lemma LiveDetermineAreas(lay: Layout, m: Memory, R: seq<int>, ix: Index, m': Memory, R': seq<int>, ix': Index,
                           live: map<int, int>)
    requires Sound(lay, m, R, ix, live) && Sound(lay, m', R', ix', live)
    ensures R' == R && ix'.sizes == ix.sizes
  {
    forall h | IsArea(lay, R, h) ensures IsArea(lay, R', h) { SameHeader(lay, m, R, ix, m', R', ix', live, h); }
    forall h | IsArea(lay, R', h) ensures IsArea(lay, R, h) { SameHeader(lay, m', R', ix', m, R, ix, live, h); }
    HeadersSorted(lay, m, R);
    HeadersSorted(lay, m', R');
    SortedSame(R[..|R| - 1], R'[..|R'| - 1]);
    assert R == R[..|R| - 1] + [lay.E] && R' == R'[..|R'| - 1] + [lay.E];
    forall x | x in ix.sizes ensures x in ix'.sizes
      && ix'.sizes[x] == ix.sizes[x] { SameFree(lay, m, R, ix, m', ix', live, x); }
    forall x | x in ix'.sizes ensures x in ix.sizes { SameFree(lay, m', R, ix', m, ix, live, x); }
  }

  lemma SameFree(lay: Layout, m: Memory, R: seq<int>, ix: Index, m': Memory, ix': Index, live: map<int, int>, x: int)
    requires Sound(lay, m, R, ix, live) && Sound(lay, m', R, ix', live) && x in ix.sizes
    ensures x in ix'.sizes && ix'.sizes[x] == ix.sizes[x]
  {
    var h := Header(lay, x);
    FreeAreaFacts(lay, m, R, ix, live, x);
    var k := Locate(lay, m, R, h);
    var k' := Locate(lay, m', R, h);
    if k != k' { RingDistinct(m, lay.A, R, k, k'); }
    BlockBounds(lay, m', R, h);
  }

  /** With no live block the whole memory is one free area, whatever happened before. */
  lemma AllFreed(lay: Layout, mem: Memory, R: seq<int>, ix: Index)
    requires Sound(lay, mem, R, ix, map[]) && (!lay.pool ==> lay.base + 3 <= lay.limit)
    ensures R == if lay.pool then [lay.E] else [lay.base, lay.E]
    ensures ix.sizes == if lay.pool then map[lay.base := CELL * (lay.limit - lay.base)]
                        else map[lay.base + 1 := CELL * (lay.limit - lay.base - 1)]
  {
    var k := if lay.pool then -1 else 0;
    var h := At(lay.A, R, k);
    assert R[0] in R;
    assert IsArea(lay, R, h) && HasBlock(lay, h);
    var k' := Locate(lay, mem, R, h);
    if k != k' { RingDistinct(mem, lay.A, R, k, k'); }
    assert !mem[h].inuse;
    var n := R[k + 1];
    assert n == lay.E by {
      if n != lay.E {
        assert n in R && IsArea(lay, R, n);
        BlockBounds(lay, mem, R, n);
      }
    }
    if k + 1 < |R| - 1 { NoDupAt(R, k + 1, |R| - 1); }
    forall x | x in ix.sizes ensures x == Start(lay, h) {
      FreeAreaFacts(lay, mem, R, ix, map[], x);
      assert IsArea(lay, R, Header(lay, x));
    }
    assert Start(lay, h) in ix.sizes;
  }

  // ------------------------------------------------- what clients do with memory

  /** A client may store what it likes in its own block. */
  lemma ClientStore(lay: Layout, mem: Memory, R: seq<int>, ix: Index, live: map<int, int>, x: int, c: int, v: Cell)
    requires Sound(lay, mem, R, ix, live) && x in live && x <= c < live[x]
    ensures InMem(mem, c) && Sound(lay, mem[c := v], R, ix, live)
  {
    InteriorCell(lay, mem, R, ix, live, {}, x, c);
    IndexedFrame(mem, mem[c := v], lay.F, ix);
    StoreKeeps(lay, mem, R, ix, live, c, v);
  }

  /** So does any store into a cell that is no header and leaves the index in order. */
  lemma StoreKeeps(lay: Layout, mem: Memory, R: seq<int>, ix: Index, live: map<int, int>, c: int, v: Cell)
    requires Sound(lay, mem, R, ix, live) && InMem(mem, c) && c != lay.A && c !in R
    requires Indexed(mem[c := v], lay.F, ix)
    ensures Sound(lay, mem[c := v], R, ix, live)
  {
    var mem' := mem[c := v];
    forall a | a == lay.A || a in R ensures InMem(mem, a) && mem'[a] == mem[a] {
      RingMember(mem, lay.A, R, a);
    }
    AreasFrame(lay, mem, mem', R);
    MatchFrame(lay, mem, mem', R, ix.sizes, live, {});
    CoalescedFrame(lay, mem, mem', R);
  }

  // -------------------------------------------------------- pointers to release

  /** A pointer to the start of a block is refused exactly if the block is free. */
  lemma BlockFlag(lay: Layout, mem: Memory, R: seq<int>, ix: Index, live: map<int, int>, p: int)
    requires Sound(lay, mem, R, ix, live) && (p in live || p in ix.sizes)
    ensures lay.base <= p < lay.limit && (Refused(lay, mem, p) <==> p in ix.sizes) && (p in ix.sizes <==> p !in live)
  {
    if p in ix.sizes { MatchCells(lay, mem, R, ix.sizes, live, {}); }
    BlockBounds(lay, mem, R, Header(lay, p));
  }

  /** What follows a header in the pool is the start of a block. */
  lemma NotStray(lay: Layout, mem: Memory, R: seq<int>, ix: Index, live: map<int, int>, h: int)
    requires Sound(lay, mem, R, ix, live) && h in R && lay.base <= h < lay.limit
    ensures h + 1 in live || h + 1 in ix.sizes
  {
    assert IsArea(lay, R, h) && HasBlock(lay, h);
    BlockBounds(lay, mem, R, h);
  }

  /** Any other pointer into the pool, the address just behind it included, has a cell that
      is no header where its header would be. */
  lemma StrayCell(lay: Layout, mem: Memory, R: seq<int>, ix: Index, live: map<int, int>, p: int)
    requires Sound(lay, mem, R, ix, live) && lay.pool && lay.base <= p <= lay.limit && p !in live && p !in ix.sizes
    ensures lay.base < p && InMem(mem, p - 1) && p - 1 != lay.A && p - 1 !in R
  {
    assert IsArea(lay, R, lay.A);
    if p - 1 in R {
      NotStray(lay, mem, R, ix, live, p - 1);
    }
  }

  /** It is always refused if that cell holds a link or the size of a free area... */
  lemma LinkRefused(lay: Layout, mem: Memory, R: seq<int>, ix: Index, live: map<int, int>, p: int)
    requires Sound(lay, mem, R, ix, live) && lay.base < p <= lay.limit && LinkCell(lay.F, ix, p - 1)
    ensures Refused(lay, mem, p)
  {
  }

  /** ...and otherwise refused or not as the flag happens to be: either is a sound memory with
      the same areas, index and live blocks. */
  lemma StrayPointer(lay: Layout, mem: Memory, R: seq<int>, ix: Index, live: map<int, int>, p: int)
      returns (m0: Memory, m1: Memory)
    requires Sound(lay, mem, R, ix, live) && lay.pool && lay.base <= p <= lay.limit && p !in live && p !in ix.sizes
    requires !LinkCell(lay.F, ix, p - 1)
    ensures Sound(lay, m0, R, ix, live) && Sound(lay, m1, R, ix, live) && Refused(lay, m0, p) && !Refused(lay, m1, p)
    ensures |m0| == |m1| == |mem| && forall a :: InMem(mem, a) && a != p - 1 ==> m0[a] == m1[a] == mem[a]
  {
    StrayCell(lay, mem, R, ix, live, p);
    var c := p - 1;
    m0, m1 := mem[c := mem[c].(inuse := false)], mem[c := mem[c].(inuse := true)];
    IndexedFrame(mem, m0, lay.F, ix);
    IndexedFrame(mem, m1, lay.F, ix);
    StoreKeeps(lay, mem, R, ix, live, c, mem[c].(inuse := false));
    StoreKeeps(lay, mem, R, ix, live, c, mem[c].(inuse := true));
  }

  /** Sound memories with these areas, this index and these live blocks agree on `p`. */
  ghost predicate Agreed(lay: Layout, R: seq<int>, ix: Index, live: map<int, int>, p: int) {
    forall m0, m1 :: Sound(lay, m0, R, ix, live) && Sound(lay, m1, R, ix, live) ==>
      (Refused(lay, m0, p) <==> Refused(lay, m1, p))
  }

  /** Areas, index and live blocks say whether a pointer is refused exactly if it is out of
      range or the start of a block, or its cell holds a link or a size of the index. */
  lemma RefusalDecided(lay: Layout, mem: Memory, R: seq<int>, ix: Index, live: map<int, int>, p: int)
    requires Sound(lay, mem, R, ix, live) && lay.pool
    ensures Agreed(lay, R, ix, live, p) <==>
            !(lay.base <= p <= lay.limit) || p in live || p in ix.sizes || LinkCell(lay.F, ix, p - 1)
  {
    if lay.base <= p <= lay.limit && p !in live && p !in ix.sizes && !LinkCell(lay.F, ix, p - 1) {
      var m0, m1 := StrayPointer(lay, mem, R, ix, live, p);
      assert Sound(lay, m0, R, ix, live) && Sound(lay, m1, R, ix, live);
    } else {
      forall m | Sound(lay, m, R, ix, live)
        ensures Refused(lay, m, p) <==> p !in live || !(lay.base <= p <= lay.limit) {
        Decided(lay, m, R, ix, live, p);
      }
    }
  }

  lemma Decided(lay: Layout, mem: Memory, R: seq<int>, ix: Index, live: map<int, int>, p: int)
    requires Sound(lay, mem, R, ix, live) && lay.pool
    requires !(lay.base <= p <= lay.limit) || p in live || p in ix.sizes || LinkCell(lay.F, ix, p - 1)
    ensures Refused(lay, mem, p) <==> p !in live || !(lay.base <= p <= lay.limit)
  {
    if p in live || p in ix.sizes {
      BlockFlag(lay, mem, R, ix, live, p);
    } else if lay.base <= p <= lay.limit {
      StrayCell(lay, mem, R, ix, live, p);
      LinkRefused(lay, mem, R, ix, live, p);
    }
  }

  /** The address just behind a pool passes the range test; it is refused exactly if the flag
      of the last cell is clear, and that cell belongs to the last block. */
  lemma JustBehind(lay: Layout, mem: Memory, R: seq<int>, ix: Index, live: map<int, int>)
    requires Sound(lay, mem, R, ix, live) && lay.pool
    ensures InMem(mem, lay.limit - 1) && lay.limit !in live && lay.limit !in ix.sizes
    ensures Refused(lay, mem, lay.limit) <==> !mem[lay.limit - 1].inuse
    ensures exists x :: (x in live && x <= lay.limit - 1 < live[x])
                        || (x in ix.sizes && x <= lay.limit - 1 < x + ix.sizes[x] / CELL)
  {
    var p := lay.limit;
    if p in live || p in ix.sizes { BlockFlag(lay, mem, R, ix, live, p); }
    StrayCell(lay, mem, R, ix, live, p);
    Tiling(lay, mem, R, p - 1);
    var h :| IsArea(lay, R, h) && HasBlock(lay, h) && Owns(lay, mem, h, p - 1);
    var x := Start(lay, h);
    BlockBounds(lay, mem, R, h);
    if x in live {
      assert x <= p - 1 < live[x];
    } else {
      assert x <= p - 1 < x + ix.sizes[x] / CELL;
    }
  }

  // --------------------------------------------------------- oversized requests

  /** Above MAX_ALLOCATE the search of knl_Imalloc ends at the smallest free area, whatever
      its size, and at the sentinel exactly if there is none. */
  lemma Oversized(lay: Layout, mem: Memory, R: seq<int>, ix: Index, live: map<int, int>, size: int)
    requires Sound(lay, mem, R, ix, live) && MAX_ALLOCATE < size <= 0x7FFF_FFFF
    ensures Place(ix, 0, WordRounded(size)) && (At(lay.F, ix.ring, 0) == lay.F <==> ix.sizes == map[])
    ensures forall x :: x in ix.sizes ==> var q := At(lay.F, ix.ring, 0); q in ix.sizes && ix.sizes[q] <= ix.sizes[x]
  {
    WordRounding(size);
    MatchCells(lay, mem, R, ix.sizes, live, {});
    RingInSizes(mem, ix);
    forall k | 0 <= k < |ix.ring| ensures ix.ring[k] in ix.sizes && ix.sizes[ix.ring[k]] >= WordRounded(size) {
      assert ix.ring[k] in ix.ring;
      RingStep(mem, lay.F, ix, k);
    }
    BestFit(mem, lay.F, ix, 0, WordRounded(size));
    if ix.sizes != map[] {
      var x :| x in ix.sizes;
      assert !(ix.sizes[x] < WordRounded(size));
    }
  }

  // ------------------------------------------------------------ freeing twice

  /** The chain links lead from `x` to `P[lo]`, on along `P`, and at `P[hi]` back to `x`. */
  ghost predicate Loop(mem: Memory, x: int, P: seq<int>, lo: int, hi: int) {
    && 0 <= lo <= hi < |P| && P[hi] == x && (forall k :: lo <= k <= hi ==> P[k] >= 0)
    && InMem(mem, x + 1) && mem[x + 1].next == P[lo] + 1
    && forall k :: lo <= k < hi ==> InMem(mem, P[k] + 1) && mem[P[k] + 1].next == P[k + 1] + 1
  }

  lemma {:induction false} FollowLoop(mem: Memory, x: int, P: seq<int>, lo: int, hi: int, L: seq<int>, k: nat, m: nat)
    requires Loop(mem, x, P, lo, hi) && Chain(mem, L) && Pos(L, k) && L[k] == x && lo + m <= hi
    ensures k + 1 + m < |L| && L[k + 1 + m] == P[lo + m]
  {
    if m > 0 {
      FollowLoop(mem, x, P, lo, hi, L, k, m - 1);
      var j := lo + m - 1;
      assert InMem(mem, P[j] + 1) && mem[P[j] + 1].next == P[j + 1] + 1;
    }
    assert Pos(L, k + m) && P[lo + m] >= 0;
  }

  /** A chain, which has an end, passes through no loop. */
  lemma NoChainLoops(mem: Memory, x: int, P: seq<int>, lo: int, hi: int, L: seq<int>)
    requires Loop(mem, x, P, lo, hi) && x in L
    ensures !Chain(mem, L)
  {
    if Chain(mem, L) {
      var k :| 0 <= k < |L| && L[k] == x;
      assert Pos(L, k);
      FollowLoop(mem, x, P, lo, hi, L, k, hi - lo);
      NoDupAt(L, k, k + 1 + hi - lo);
    }
  }

  /** Registering an area a second time ties its chain into a loop. */
  lemma AppendTwice(mem: Memory, F: int, ix: Index, i: int, x: int) returns (P: seq<int>, lo: int, hi: int)
    requires Indexed(mem, F, ix) && x in ix.sizes && Place(ix, i, ix.sizes[x])
    ensures var q := At(F, ix.ring, i);
            && Appendable(mem, F, x, q, ix.sizes[x]) && Loop(AppendFree(mem, F, x, q, ix.sizes[x]), x, P, lo, hi)
  {
    var q := ChainOf(mem, F, ix, i, x);
    P := ix.chain[q];
    RingAt(mem, F, ix.ring, i);
    RingAt(mem, F, ix.ring, i - 1);
    hi :| 0 <= hi < |P| && P[hi] == x;
    lo := if hi == 0 then 0 else 1;
    assert Pos(P, hi) && Pos(P, 0);
    ChainCells(mem, F, ix, q);
    assert |P| > 1 ==> Pos(P, 1) && P[1] in P;
    assert Appendable(mem, F, x, q, ix.sizes[x]);
    assert P[0] in P;
    AppendRelinks(mem, x, q);
    TiedLoop(mem, P, hi, AppendSame(mem, x, q));
  }

  lemma TiedLoop(mem: Memory, L: seq<int>, j: int, m: Memory)
    requires Chain(mem, L) && Pos(L, j) && (forall y :: y in L ==> InMem(mem, y) && InMem(mem, y + 1) && y + 1 !in L)
    requires Relinked(mem, L[j], L[0], m)
    ensures Loop(m, L[j], L, if j == 0 then 0 else 1, j)
  {
    assert Pos(L, 0) && ChainAt(mem, L, 0);
    if j > 0 { NoDupAt(L, 0, j); }
    forall k | 0 <= k <= j ensures L[k] >= 0 { assert L[k] in L; }
    forall k | 1 <= k < j ensures InMem(m, L[k] + 1) && m[L[k] + 1].next == L[k + 1] + 1 {
      TiedStep(mem, L, j, k, m);
    }
  }

  lemma TiedStep(mem: Memory, L: seq<int>, j: int, k: int, m: Memory)
    requires Chain(mem, L) && Pos(L, j) && (forall y :: y in L ==> InMem(mem, y) && InMem(mem, y + 1) && y + 1 !in L)
    requires Relinked(mem, L[j], L[0], m) && 0 < k < j
    ensures InMem(m, L[k] + 1) && m[L[k] + 1].next == L[k + 1] + 1
  {
    assert Pos(L, k) && ChainAt(mem, L, k) && L[k] in L && L[j] in L && L[0] in L;
    NoDupAt(L, k, j);
    NoDupAt(L, 0, k);
  }

  /** The forward links once knl_appendFreeArea has joined `x` to the chain of `q`. */
  ghost predicate Relinked(mem: Memory, x: int, q: int, m: Memory) {
    && |m| == |mem| && InMem(mem, x + 1) && InMem(mem, q + 1)
    && m[x + 1].next == (if x == q then x + 1 else mem[q + 1].next)
    && forall a {:trigger m[a]} :: InMem(mem, a) && a != x && a != x + 1 && a != q + 1 ==> m[a].next == mem[a].next
  }

  lemma AppendRelinks(mem: Memory, x: int, q: int)
    requires InMem(mem, x) && InMem(mem, x + 1) && InMem(mem, q + 1) && x != q + 1 && Linkable(mem, mem[q + 1].next)
    ensures Relinked(mem, x, q, AppendSame(mem, x, q))
  {
  }

  /** The area that stands at the place of the size of `x` heads the chain of `x`. */
  lemma ChainOf(mem: Memory, F: int, ix: Index, i: int, x: int) returns (q: int)
    requires Indexed(mem, F, ix) && x in ix.sizes && Place(ix, i, ix.sizes[x])
    ensures i < |ix.ring| && q == ix.ring[i] && q in ix.chain && x in ix.chain[q] && q != F
    ensures InMem(mem, q + 1) && mem[q + 1].prev == ix.sizes[x]
  {
    assert Holds(ix, x);
    q :| InChain(ix, q, x);
    assert q in ix.ring;
    var k :| 0 <= k < |ix.ring| && ix.ring[k] == q;
    if i < k {
      assert Before(ix.ring, i, k);
    }
    RingInSizes(mem, ix);
  }

  /** Freeing a block that is free: nothing is merged, and the registration that follows
      leaves a memory with these areas that no index fits. */
  lemma DoubleFree(lay: Layout, mem: Memory, R: seq<int>, ix: Index, live: map<int, int>, x: int, i: int, ix': Index)
    requires Sound(lay, mem, R, ix, live) && x in ix.sizes && Place(ix, i, ix.sizes[x])
    ensures var h := Header(lay, x);
            && InMem(mem, h) && InMem(mem, mem[h].next) && InMem(mem, mem[h].prev)
            && !mem[h].inuse && mem[mem[h].next].inuse && mem[mem[h].prev].inuse
    ensures var q := At(lay.F, ix.ring, i);
            && Appendable(mem, lay.F, x, q, ix.sizes[x])
            && !Whole(lay, AppendFree(mem, lay.F, x, q, ix.sizes[x]), R, ix', live, {})
  {
    FreeNeighbours(lay, mem, R, ix, live, x);
    var P, lo, hi := AppendTwice(mem, lay.F, ix, i, x);
    var m := AppendFree(mem, lay.F, x, At(lay.F, ix.ring, i), ix.sizes[x]);
    if Whole(lay, m, R, ix', live, {}) {
      StaysFree(lay, mem, R, ix, live, x, m, ix');
      assert Holds(ix', x);
      var q :| InChain(ix', q, x);
      NoChainLoops(m, x, P, lo, hi, ix'.chain[q]);
    }
  }

  lemma FreeNeighbours(lay: Layout, mem: Memory, R: seq<int>, ix: Index, live: map<int, int>, x: int)
    requires Sound(lay, mem, R, ix, live) && x in ix.sizes
    ensures var h := Header(lay, x);
            && InMem(mem, h) && InMem(mem, mem[h].next) && InMem(mem, mem[h].prev)
            && !mem[h].inuse && mem[mem[h].next].inuse && mem[mem[h].prev].inuse
  {
    var h := Header(lay, x);
    var k := Locate(lay, mem, R, h);
    var p := mem[h].prev;
    if k >= 0 {
      RingAt(mem, lay.A, R, k - 1);
      if k >= 1 {
        assert R[k - 1] in R;
        NoDupAt(R, k - 1, |R| - 1);
      }
      assert IsArea(lay, R, p);
    }
  }

  /** Live blocks and areas say that `x` is free. */
  lemma StaysFree(lay: Layout, mem: Memory, R: seq<int>, ix: Index, live: map<int, int>, x: int, m: Memory, ix': Index)
    requires Sound(lay, mem, R, ix, live) && x in ix.sizes && Whole(lay, m, R, ix', live, {})
    ensures x in ix'.sizes
  {
    var h := Header(lay, x);
    FreeAreaFacts(lay, mem, R, ix, live, x);
    BlockBounds(lay, m, R, h);
    assert IsArea(lay, R, h);
    assert x !in live;
  }

  /** Freeing a block at once restores areas, index and live blocks, and what other blocks hold. */
  method FreeUndoesAlloc(a: Allocator, size: int) returns (r: int)
    requires a.Valid() && !a.lay.pool && 0 < size <= MAX_ALLOCATE
    modifies a
    ensures a.Valid() && a.live == old(a.live) && a.R == old(a.R) && a.ix.sizes == old(a.ix.sizes)
    ensures Spared(old(a.mem), a.mem, a.live)
  {
    r := a.Imalloc(size);
    if r != NULL {
      ghost var m1 := a.mem;
      a.Ifree(r);
      SparedAgain(old(a.mem), m1, a.mem, a.live);
      assert a.live == old(a.live);
      LiveDetermineAreas(a.lay, old(a.mem), old(a.R), old(a.ix), a.mem, a.R, a.ix, a.live);
    }
  }

  /** The same for a pool. */
  method RelUndoesGet(a: Allocator, blksz: int) returns (r: int)
    requires a.Valid() && a.lay.pool && blksz >= MIN_FRAGMENT && blksz % CELL == 0
    modifies a
    ensures a.Valid() && a.live == old(a.live) && a.R == old(a.R) && a.ix.sizes == old(a.ix.sizes)
    ensures Spared(old(a.mem), a.mem, a.live)
  {
    r := a.GetBlk(blksz);
    if r != NULL {
      ghost var m1 := a.mem;
      var er := a.RelBlk(r);
      SparedAgain(old(a.mem), m1, a.mem, a.live);
      assert a.live == old(a.live);
      LiveDetermineAreas(a.lay, old(a.mem), old(a.R), old(a.ix), a.mem, a.R, a.ix, a.live);
    }
  }
}
