/**
 The index of free areas (kernel/tkernel/memory.c, "FreeQue"): a ring ordered by
 size with one area per size, and a side chain of further areas of that size
 behind each ring member.  A free area that starts at cell `x` uses the cells `x`
 (ring link) and `x + 1` (side chain link; `prev` holds the size of ring members).
 */
module FreeIndex {
  import opened Common
  import opened Rings

  const NULL := -1

  /** What the index stands for: the ring, the chain behind each ring member (the
      member itself first), and the size in bytes of every area in the index. */
  datatype Index = Index(ring: seq<int>, chain: map<int, seq<int>>, sizes: map<int, int>)

  // ---------------------------------------------------------------- invariant

  predicate Pos(L: seq<int>, k: int) {
    0 <= k < |L|
  }

  predicate ChainAt(mem: Memory, L: seq<int>, k: int)
    requires 0 <= k < |L|
  {
    && InMem(mem, L[k]) && InMem(mem, L[k] + 1)
    && mem[L[k] + 1].next == (if k + 1 < |L| then L[k + 1] + 1 else NULL)
    && (k > 0 ==> mem[L[k]].next == NULL && mem[L[k] + 1].prev == L[k - 1] + 1)
  }

  /** The areas `L` form a side chain in memory, from its ring member `L[0]` on. */
  ghost predicate Chain(mem: Memory, L: seq<int>) {
    NoDup(L) && forall k {:trigger Pos(L, k)} :: Pos(L, k) ==> ChainAt(mem, L, k)
  }

  /** The cells of areas do not overlap each other or the sentinel. */
  ghost predicate Cells(mem: Memory, F: int, sizes: map<int, int>) {
    && (forall x {:trigger x in sizes} :: x in sizes ==> InMem(mem, x) && InMem(mem, x + 1) && F != x && F != x + 1)
    && (forall x {:trigger x in sizes} :: x in sizes ==> x + 1 !in sizes)
  }

  ghost predicate Heads(mem: Memory, ix: Index) {
    && (forall q :: q in ix.chain <==> q in ix.ring)
    && (forall q :: q in ix.chain ==> q in ix.sizes && ix.chain[q] != [] && ix.chain[q][0] == q)
    && (forall q :: q in ix.chain ==> InMem(mem, q + 1) && mem[q + 1].prev == ix.sizes[q])
    && (forall q :: q in ix.chain ==> Chain(mem, ix.chain[q]))
  }

  /** Area `y` is in the chain behind ring member `q`. */
  predicate InChain(ix: Index, q: int, y: int) {
    q in ix.chain && y in ix.chain[q]
  }

  /** Area `x` is in the index. */
  predicate Holds(ix: Index, x: int) {
    x in ix.sizes
  }

  ghost predicate Followers(ix: Index) {
    && (forall q, y {:trigger InChain(ix, q, y)} :: InChain(ix, q, y) ==>
          y in ix.sizes && q in ix.sizes && ix.sizes[y] == ix.sizes[q] && (y != q ==> y !in ix.ring))
    && (forall x {:trigger Holds(ix, x)} :: Holds(ix, x) ==> exists q :: InChain(ix, q, x))
  }

  ghost predicate Increasing(ix: Index) {
    forall i, j {:trigger Before(ix.ring, i, j)} :: Before(ix.ring, i, j) && ix.ring[i] in ix.sizes
                                                    && ix.ring[j] in ix.sizes ==>
      ix.sizes[ix.ring[i]] < ix.sizes[ix.ring[j]]
  }

  /** The cells in which the index keeps a `prev` of its own: the sentinel, the first cell of
      ring members, and the second cell of every area. */
  predicate LinkCell(F: int, ix: Index, a: int) {
    a == F || a in ix.ring || a - 1 in ix.sizes
  }

  /** Links and sizes have bit 0 clear. */
  ghost predicate Unflagged(mem: Memory, F: int, ix: Index) {
    forall a {:trigger LinkCell(F, ix, a)} :: LinkCell(F, ix, a) && InMem(mem, a) ==> !mem[a].inuse
  }

  /** Ring and chains hold exactly the areas of `ix.sizes`, ordered strictly by size. */
  ghost predicate Indexed(mem: Memory, F: int, ix: Index) {
    && Cells(mem, F, ix.sizes) && Ring(mem, F, ix.ring) && Heads(mem, ix) && Followers(ix) && Increasing(ix)
    && Unflagged(mem, F, ix)
  }

  /** What an operation on the index leaves alone: all cells outside it. */
  ghost predicate Elsewhere(mem: Memory, mem': Memory, F: int, xs: set<int>) {
    && |mem'| == |mem|
    && (forall a {:trigger mem'[a]} :: InMem(mem, a) && a != F && a !in xs && a - 1 !in xs ==> mem'[a] == mem[a])
  }

  /** An operation that sets no flag and clears those of the cells that are new to the index. */
  lemma UnflaggedAgain(mem: Memory, mem': Memory, F: int, ix: Index, ix': Index)
    requires Unflagged(mem, F, ix) && OnlyClears(mem, mem')
    requires forall a {:trigger LinkCell(F, ix', a)} :: LinkCell(F, ix', a) && InMem(mem, a) ==>
               LinkCell(F, ix, a) || !mem'[a].inuse
    ensures Unflagged(mem', F, ix')
  {
    forall a | LinkCell(F, ix', a) && InMem(mem', a) ensures !mem'[a].inuse {
      assert InMem(mem, a);
    }
  }

  lemma RingUnflagged(mem: Memory, F: int, ix: Index)
    requires Unflagged(mem, F, ix)
    ensures ClearRing(mem, F, ix.ring)
  {
    forall a | InMem(mem, a) && (a == F || a in ix.ring) ensures !mem[a].inuse { assert LinkCell(F, ix, a); }
  }

  /** Two areas of equal size are in the same chain. */
  lemma SameChain(mem: Memory, F: int, ix: Index, q: int, q': int)
    requires Indexed(mem, F, ix) && q in ix.ring && q' in ix.ring && q in ix.sizes && q' in ix.sizes
    requires ix.sizes[q] == ix.sizes[q']
    ensures q == q'
  {
    var i :| 0 <= i < |ix.ring| && ix.ring[i] == q;
    var j :| 0 <= j < |ix.ring| && ix.ring[j] == q';
    assert i < j ==> Before(ix.ring, i, j);
    assert j < i ==> Before(ix.ring, j, i);
  }

  lemma ChainFrame(mem: Memory, mem': Memory, L: seq<int>)
    requires Chain(mem, L) && |mem'| == |mem|
    requires forall y :: y in L && InMem(mem, y + 1) ==> mem'[y + 1].next == mem[y + 1].next
    requires forall y :: y in L && y != L[0] && InMem(mem, y) && InMem(mem, y + 1) ==>
               mem'[y].next == mem[y].next && mem'[y + 1].prev == mem[y + 1].prev
    ensures Chain(mem', L)
  {
    forall k | Pos(L, k) ensures ChainAt(mem', L, k) {
      assert ChainAt(mem, L, k) && L[k] in L;
      if k > 0 { NoDupAt(L, 0, k); }
    }
  }

  // ------------------------------------------------------ registration, memory

  /** knl_appendFreeArea, first branch: join the side chain of `q`. */
  function AppendSame(mem: Memory, x: int, q: int): Memory
    requires InMem(mem, x) && InMem(mem, x + 1) && InMem(mem, q + 1)
    requires mem[q + 1].next == NULL || InMem(mem, mem[q + 1].next)
  {
    var m1 := SetNext(mem, x + 1, mem[q + 1].next);
    var m2 := SetNext(m1, q + 1, x + 1);
    var m3 := SetPrev(m2, x + 1, q + 1);
    var m4 := if m3[x + 1].next != NULL && InMem(m3, m3[x + 1].next) then SetPrev(m3, m3[x + 1].next, x + 1) else m3;
    SetNext(m4, x, NULL)
  }

  /** knl_appendFreeArea, second branch: become a ring member before `q`. */
  function AppendNew(mem: Memory, x: int, q: int, size: int): Memory
    requires InMem(mem, x) && InMem(mem, x + 1) && InMem(mem, q) && InMem(mem, mem[q].prev)
  {
    SetPrev(SetNext(QueInsert(mem, x, q), x + 1, NULL), x + 1, size)
  }

  // ------------------------------------------------------ registration, index

  function JoinChain(ix: Index, q: int, x: int): Index
    requires q in ix.chain && q in ix.sizes && ix.chain[q] != []
  {
    Index(ix.ring, ix.chain[q := Inserted(ix.chain[q], 1, x)], ix.sizes[x := ix.sizes[q]])
  }

  function NewChain(ix: Index, i: int, x: int, size: int): Index
    requires 0 <= i <= |ix.ring|
  {
    Index(Inserted(ix.ring, i, x), ix.chain[x := [x]], ix.sizes[x := size])
  }

  lemma JoinChainLinks(mem: Memory, L: seq<int>, x: int)
    requires Chain(mem, L) && L != [] && x !in L && x + 1 !in L && x - 1 !in L
    requires InMem(mem, x) && InMem(mem, x + 1) && forall y :: y in L ==> y + 1 !in L
    ensures InMem(mem, L[0] + 1) && (mem[L[0] + 1].next == NULL || InMem(mem, mem[L[0] + 1].next))
    ensures Chain(AppendSame(mem, x, L[0]), Inserted(L, 1, x))
    ensures var mem' := AppendSame(mem, x, L[0]);
            && |mem'| == |mem| && mem'[L[0] + 1].prev == mem[L[0] + 1].prev
            && (forall a :: InMem(mem, a) && a != x && a != x + 1 && a - 1 !in L ==> mem'[a] == mem[a])
            && OnlyClears(mem, mem') && !mem'[x + 1].inuse
  {
    assert Pos(L, 0);
    assert ChainAt(mem, L, 0);
    assert L[0] in L;
    if |L| > 1 {
      assert Pos(L, 1);
      assert ChainAt(mem, L, 1) && L[1] in L;
      NoDupAt(L, 0, 1);
    }
    SameFrame(mem, x, L[0], mem[L[0] + 1].next);
    JoinChainRest(mem, L, x);
  }

  /** The first branch of knl_appendFreeArea changes the new area's cells and two links. */
  lemma SameFrame(mem: Memory, x: int, q: int, n: int)
    requires InMem(mem, x) && InMem(mem, x + 1) && InMem(mem, q + 1) && q != x && q + 1 != x && mem[q + 1].next == n
    requires n == NULL || (InMem(mem, n) && n != x && n != x + 1 && n != q + 1)
    ensures var mem' := AppendSame(mem, x, q);
            && |mem'| == |mem| && mem'[q + 1] == mem[q + 1].(next := x + 1) && mem'[x].next == NULL
            && mem'[x + 1].next == n && mem'[x + 1].prev == q + 1
            && (n != NULL ==> mem'[n] == mem[n].(prev := x + 1, inuse := false))
            && (forall a {:trigger mem'[a]} :: InMem(mem, a) && a != x && a != x + 1 && a != q + 1 && a != n ==>
                mem'[a] == mem[a])
            && OnlyClears(mem, mem') && !mem'[x + 1].inuse
  {
  }

  lemma JoinChainRest(mem: Memory, L: seq<int>, x: int)
    requires Chain(mem, L) && L != [] && x !in L && x + 1 !in L && x - 1 !in L
    requires InMem(mem, x) && InMem(mem, x + 1) && forall y :: y in L ==> y + 1 !in L
    requires InMem(mem, L[0] + 1) && (mem[L[0] + 1].next == NULL || InMem(mem, mem[L[0] + 1].next))
    ensures Chain(AppendSame(mem, x, L[0]), Inserted(L, 1, x))
  {
    assert Pos(L, 0);
    assert ChainAt(mem, L, 0);
    assert L[0] in L;
    if |L| > 1 {
      assert Pos(L, 1);
      assert ChainAt(mem, L, 1) && L[1] in L;
      NoDupAt(L, 0, 1);
    }
    SameFrame(mem, x, L[0], mem[L[0] + 1].next);
    InsertedNoDup(L, 1, x);
    JoinChainPositions(mem, AppendSame(mem, x, L[0]), L, x);
  }

  lemma JoinChainPositions(mem: Memory, mem': Memory, L: seq<int>, x: int)
    requires Chain(mem, L) && L != [] && x !in L && x + 1 !in L && x - 1 !in L && |mem'| == |mem|
    requires InMem(mem, x) && InMem(mem, x + 1) && NoDup(Inserted(L, 1, x)) && forall y :: y in L ==> y + 1 !in L
    requires InMem(mem, L[0] + 1) && mem'[L[0] + 1].next == x + 1 && mem'[x].next == NULL
    requires mem'[x + 1].next == (if |L| > 1 then L[1] + 1 else NULL) && mem'[x + 1].prev == L[0] + 1
    requires |L| > 1 ==> InMem(mem, L[1] + 1) && mem'[L[1] + 1] == mem[L[1] + 1].(prev := x + 1, inuse := false)
    requires forall a {:trigger mem'[a]} ::
               InMem(mem, a) && a != x && a != x + 1 && a != L[0] + 1 && (|L| > 1 ==> a != L[1] + 1) ==>
                 mem'[a] == mem[a]
    ensures Chain(mem', Inserted(L, 1, x))
  {
    var L' := Inserted(L, 1, x);
    assert Pos(L, 0);
    assert ChainAt(mem, L, 0);
    assert L[0] in L && (|L| > 1 ==> L[1] in L);
    forall k | Pos(L', k) ensures ChainAt(mem', L', k) {
      if k >= 2 {
        assert Pos(L, k - 1);
        assert ChainAt(mem, L, k - 1) && L[k - 1] in L;
        NoDupAt(L, 0, k - 1);
        if k > 2 { NoDupAt(L, 1, k - 1); }
        if k < |L| { assert L[k] in L; }
      }
    }
  }

  /** An area belongs to one chain only. */
  lemma OneChain(mem: Memory, F: int, ix: Index, q: int, q': int, y: int)
    requires Indexed(mem, F, ix) && InChain(ix, q, y) && InChain(ix, q', y)
    ensures q == q'
  {
    SameChain(mem, F, ix, q, q');
  }

  /** A chain of the index satisfies what the link lemmas ask for. */
  lemma ChainCells(mem: Memory, F: int, ix: Index, q: int)
    requires Indexed(mem, F, ix) && q in ix.chain
    ensures Chain(mem, ix.chain[q]) && ix.chain[q] != [] && ix.chain[q][0] == q && q in ix.sizes && q in ix.chain[q]
    ensures forall y :: y in ix.chain[q] ==> y in ix.sizes && y + 1 !in ix.sizes && y - 1 !in ix.sizes && InMem(mem, y)
                                             && InMem(mem, y + 1)
    ensures forall y :: y in ix.chain[q] && y != q ==> y !in ix.ring && y != F
    ensures forall y :: y in ix.chain[q] ==> y + 1 != F && y + 1 !in ix.ring
  {
    forall y | y in ix.chain[q]
      ensures y in ix.sizes && y + 1 !in ix.sizes && y - 1 !in ix.sizes && InMem(mem, y) && InMem(mem, y + 1)
      ensures (y != q ==> y !in ix.ring && y != F) && y + 1 != F
    {
      assert InChain(ix, q, y);
      assert y - 1 in ix.sizes ==> y - 1 + 1 !in ix.sizes;
    }
    RingInSizes(mem, ix);
  }

  lemma RingInSizes(mem: Memory, ix: Index)
    requires Heads(mem, ix)
    ensures forall q :: q in ix.ring ==> q in ix.sizes && q in ix.chain
  {
  }

  /** Chains survive changes confined to the ring, to one other chain and to area `x`. */
  lemma OtherChain(mem: Memory, mem': Memory, F: int, ix: Index, q': int, own: seq<int>, x: int)
    requires Indexed(mem, F, ix) && q' in ix.chain && |mem'| == |mem|
    requires x !in ix.chain[q'] && x + 1 !in ix.sizes && x - 1 !in ix.sizes
    requires forall y :: y in own ==> y in ix.sizes && y !in ix.chain[q']
    requires forall a {:trigger mem'[a]} ::
               InMem(mem, a) && a != x && a != x + 1 && a - 1 !in own && a !in own && a !in ix.ring && a != F ==>
                 mem'[a] == mem[a]
    ensures Chain(mem', ix.chain[q']) && InMem(mem', q' + 1) && mem'[q' + 1].prev == ix.sizes[q']
  {
    ChainCells(mem, F, ix, q');
    forall y | y in ix.chain[q'] && InMem(mem, y) && InMem(mem, y + 1)
      ensures mem'[y + 1] == mem[y + 1] && (y != q' ==> mem'[y] == mem[y])
    {
      assert y + 1 !in own && y - 1 !in own;
    }
    ChainFrame(mem, mem', ix.chain[q']);
  }

  // ------------------------------------------------------- joining a side chain

  lemma JoinChainIndexed(mem: Memory, F: int, ix: Index, q: int, x: int)
    requires Indexed(mem, F, ix) && q in ix.ring && x !in ix.sizes && q in ix.sizes
             && Cells(mem, F, ix.sizes[x := ix.sizes[q]])
    ensures InMem(mem, q + 1) && (mem[q + 1].next == NULL || InMem(mem, mem[q + 1].next)) && q in ix.chain
            && ix.chain[q] != []
    ensures InMem(mem, x) && InMem(mem, x + 1)
    ensures Indexed(AppendSame(mem, x, q), F, JoinChain(ix, q, x))
    ensures Elsewhere(mem, AppendSame(mem, x, q), F, ix.sizes.Keys + {x})
  {
    RingInSizes(mem, ix);
    var L := ix.chain[q];
    ChainCells(mem, F, ix, q);
    Fresh(mem, F, ix.sizes, x, ix.sizes[q]);
    JoinChainLinks(mem, L, x);
    var mem', ix' := AppendSame(mem, x, q), JoinChain(ix, q, x);
    assert Ring(mem', F, ix.ring) by {
      forall a | a == F || a in ix.ring ensures a != x && a != x + 1 && a - 1 !in L {
        assert a in ix.ring ==> a in ix.sizes;
      }
      RingFrame(mem, mem', F, ix.ring);
    }
    JoinChainHeads(mem, mem', F, ix, q, x);
    InsertedNoDup(L, 1, x);
    JoinChainCover(ix, q, x, Inserted(L, 1, x));
    SameOrder(ix, ix');
    CellsFrame(mem, mem', F, ix'.sizes);
    UnflaggedAgain(mem, mem', F, ix, ix');
  }

  lemma CellsFrame(mem: Memory, mem': Memory, F: int, sizes: map<int, int>)
    requires Cells(mem, F, sizes) && |mem'| == |mem|
    ensures Cells(mem', F, sizes)
  {
    forall x | x in sizes ensures InMem(mem', x) && InMem(mem', x + 1) && F != x && F != x + 1 {
      assert InMem(mem, x);
    }
  }

  lemma SameOrder(ix: Index, ix': Index)
    requires Increasing(ix) && ix'.ring == ix.ring
    requires forall q :: q in ix.ring ==> q in ix.sizes && q in ix'.sizes && ix'.sizes[q] == ix.sizes[q]
    ensures Increasing(ix')
  {
    forall i, j | Before(ix'.ring, i, j) && ix'.ring[i] in ix'.sizes && ix'.ring[j] in ix'.sizes
      ensures ix'.sizes[ix'.ring[i]] < ix'.sizes[ix'.ring[j]]
    {
      var a, b := ix.ring[i], ix.ring[j];
      assert Before(ix.ring, i, j) && a in ix.ring && b in ix.ring;
      assert ix.sizes[a] < ix.sizes[b];
    }
  }

  /** A new area keeps clear of the cells of the others. */
  lemma Fresh(mem: Memory, F: int, sizes: map<int, int>, x: int, size: int)
    requires Cells(mem, F, sizes[x := size]) && x !in sizes
    ensures InMem(mem, x) && InMem(mem, x + 1) && F != x && F != x + 1 && x + 1 !in sizes && x - 1 !in sizes
  {
    assert x in sizes[x := size];
    assert x - 1 in sizes ==> x - 1 in sizes[x := size] && x - 1 + 1 !in sizes[x := size];
    assert x + 1 in sizes ==> x + 1 in sizes[x := size];
  }

  lemma JoinChainHeads(mem: Memory, mem': Memory, F: int, ix: Index, q: int, x: int)
    requires Indexed(mem, F, ix) && q in ix.chain && q in ix.sizes && ix.chain[q] != [] && |mem'| == |mem|
    requires x !in ix.sizes && x + 1 !in ix.sizes && x - 1 !in ix.sizes
    requires Chain(mem', Inserted(ix.chain[q], 1, x)) && InMem(mem', q + 1) && mem'[q + 1].prev == ix.sizes[q]
    requires forall a {:trigger mem'[a]} :: InMem(mem, a) && a != x && a != x + 1 && a - 1 !in ix.chain[q] ==>
             mem'[a] == mem[a]
    ensures Heads(mem', JoinChain(ix, q, x))
  {
    var ix' := JoinChain(ix, q, x);
    forall p | p in ix.chain && p != q
      ensures Chain(mem', ix.chain[p]) && InMem(mem', p + 1) && mem'[p + 1].prev == ix.sizes[p] {
      forall y | y in ix.chain[q] ensures y in ix.sizes && y !in ix.chain[p] {
        assert InChain(ix, q, y);
        if InChain(ix, p, y) { OneChain(mem, F, ix, q, p, y); }
      }
      assert forall y :: y in ix.chain[p] ==> InChain(ix, p, y);
      OtherChain(mem, mem', F, ix, p, ix.chain[q], x);
    }
    RingInSizes(mem, ix);
    assert ix'.chain[q][0] == q;
  }

  /** The members of one chain replaced by those of `L`: area `x` was added. */
  lemma JoinChainCover(ix: Index, q: int, x: int, L: seq<int>)
    requires Followers(ix) && q in ix.chain && q in ix.sizes && x !in ix.sizes && x !in ix.ring
    requires forall y :: y in L <==> y == x || y in ix.chain[q]
    ensures Followers(Index(ix.ring, ix.chain[q := L], ix.sizes[x := ix.sizes[q]]))
  {
    var ix' := Index(ix.ring, ix.chain[q := L], ix.sizes[x := ix.sizes[q]]);
    assert forall p, y {:trigger InChain(ix', p, y)} :: InChain(ix', p, y) ==> InChain(ix, p, y) || (p == q && y == x);
    assert forall p, y {:trigger InChain(ix, p, y)} :: InChain(ix, p, y) ==> InChain(ix', p, y);
    forall p, y | InChain(ix', p, y)
      ensures y in ix'.sizes && p in ix'.sizes && ix'.sizes[y] == ix'.sizes[p] && (y != p ==> y !in ix'.ring)
    {
      assert InChain(ix, p, y) || (p == q && y == x);
    }
    forall y | Holds(ix', y) ensures exists p :: InChain(ix', p, y) {
      if y == x {
        assert InChain(ix', q, x);
      } else {
        assert Holds(ix, y);
        var p :| InChain(ix, p, y);
        assert InChain(ix', p, y);
      }
    }
  }

  // ------------------------------------------------------- becoming a ring member

  lemma NewChainIndexed(mem: Memory, F: int, ix: Index, i: int, x: int, size: int)
    requires Indexed(mem, F, ix) && 0 <= i <= |ix.ring| && x !in ix.sizes && Cells(mem, F, ix.sizes[x := size])
    requires forall k :: 0 <= k < i ==> ix.ring[k] in ix.sizes && ix.sizes[ix.ring[k]] < size
    requires forall k :: i <= k < |ix.ring| ==> ix.ring[k] in ix.sizes && ix.sizes[ix.ring[k]] > size
    ensures InMem(mem, At(F, ix.ring, i)) && InMem(mem, mem[At(F, ix.ring, i)].prev) && InMem(mem, x)
            && InMem(mem, x + 1)
    ensures Indexed(AppendNew(mem, x, At(F, ix.ring, i), size), F, NewChain(ix, i, x, size))
    ensures Elsewhere(mem, AppendNew(mem, x, At(F, ix.ring, i), size), F, ix.sizes.Keys + {x})
  {
    RingInSizes(mem, ix);
    Fresh(mem, F, ix.sizes, x, size);
    RingUnflagged(mem, F, ix);
    NewChainRing(mem, F, ix.ring, i, x, size);
    var mem', ix' := AppendNew(mem, x, At(F, ix.ring, i), size), NewChain(ix, i, x, size);
    NewChainHeads(mem, mem', F, ix, i, x, size);
    NewChainCover(mem, ix, i, x, size);
    NewChainOrder(mem, ix, i, x, size);
    CellsFrame(mem, mem', F, ix'.sizes);
    UnflaggedAgain(mem, mem', F, ix, ix');
  }

  /** The ring with the new member, and what is not touched. */
  lemma NewChainRing(mem: Memory, F: int, ring: seq<int>, i: int, x: int, size: int)
    requires Ring(mem, F, ring) && ClearRing(mem, F, ring) && 0 <= i <= |ring| && InMem(mem, x) && InMem(mem, x + 1)
    requires x != F && x !in ring && x + 1 != F && x + 1 !in ring
    ensures InMem(mem, At(F, ring, i)) && InMem(mem, mem[At(F, ring, i)].prev)
    ensures var mem' := AppendNew(mem, x, At(F, ring, i), size);
            && |mem'| == |mem| && Ring(mem', F, Inserted(ring, i, x)) && mem'[x + 1].next == NULL
            && mem'[x + 1].prev == size
            && (forall y :: y in Inserted(ring, i, x) <==> y == x || y in ring)
            && (forall a {:trigger mem'[a]} :: InMem(mem, a) && a != x && a != x + 1 && a !in ring && a != F ==>
                mem'[a] == mem[a])
            && OnlyClears(mem, mem') && !mem'[x].inuse && !mem'[x + 1].inuse
  {
    RingInsert(mem, F, ring, i, x);
    InsertOnlyRing(mem, F, ring, i, x);
    InsertedNoDup(ring, i, x);
    var q := At(F, ring, i);
    RingFrame(QueInsert(mem, x, q), AppendNew(mem, x, q, size), F, Inserted(ring, i, x));
  }

  lemma NewChainHeads(mem: Memory, mem': Memory, F: int, ix: Index, i: int, x: int, size: int)
    requires Indexed(mem, F, ix) && 0 <= i <= |ix.ring| && |mem'| == |mem| && InMem(mem, x) && InMem(mem, x + 1)
    requires x !in ix.sizes && x + 1 !in ix.sizes && x - 1 !in ix.sizes
    requires forall a {:trigger mem'[a]} :: InMem(mem, a) && a != x && a != x + 1 && a !in ix.ring && a != F ==>
             mem'[a] == mem[a]
    requires mem'[x + 1].next == NULL && mem'[x + 1].prev == size
    requires forall y :: y in Inserted(ix.ring, i, x) <==> y == x || y in ix.ring
    ensures Heads(mem', NewChain(ix, i, x, size))
  {
    RingInSizes(mem, ix);
    var ix' := NewChain(ix, i, x, size);
    forall q | q in ix'.chain
      ensures ix'.chain[q] != [] && ix'.chain[q][0] == q && q in ix'.sizes
      ensures InMem(mem', q + 1) && mem'[q + 1].prev == ix'.sizes[q] && Chain(mem', ix'.chain[q])
    {
      if q == x {
        forall k | Pos([x], k) ensures ChainAt(mem', [x], k) { }
      } else {
        assert forall y :: y in ix.chain[q] ==> InChain(ix, q, y);
        OtherChain(mem, mem', F, ix, q, [], x);
      }
    }
  }

  lemma NewChainCover(mem: Memory, ix: Index, i: int, x: int, size: int)
    requires Followers(ix) && Heads(mem, ix) && 0 <= i <= |ix.ring| && x !in ix.sizes
    requires forall y :: y in Inserted(ix.ring, i, x) <==> y == x || y in ix.ring
    ensures Followers(NewChain(ix, i, x, size))
  {
    var ix' := NewChain(ix, i, x, size);
    RingInSizes(mem, ix);
    forall p, y | InChain(ix', p, y)
      ensures y in ix'.sizes && p in ix'.sizes && ix'.sizes[y] == ix'.sizes[p] && (y != p ==> y !in ix'.ring)
    {
      assert p != x ==> InChain(ix, p, y);
    }
    forall y | Holds(ix', y) ensures exists p :: InChain(ix', p, y) {
      if y == x {
        assert InChain(ix', x, x);
      } else {
        assert Holds(ix, y);
        var p :| InChain(ix, p, y);
        assert InChain(ix', p, y);
      }
    }
  }

  lemma NewChainOrder(mem: Memory, ix: Index, i: int, x: int, size: int)
    requires Increasing(ix) && 0 <= i <= |ix.ring| && x !in ix.sizes
    requires forall k :: 0 <= k < i ==> ix.ring[k] in ix.sizes && ix.sizes[ix.ring[k]] < size
    requires forall k :: i <= k < |ix.ring| ==> ix.ring[k] in ix.sizes && ix.sizes[ix.ring[k]] > size
    ensures Increasing(NewChain(ix, i, x, size))
  {
    var ix' := NewChain(ix, i, x, size);
    forall a, b | Before(ix'.ring, a, b) ensures ix'.sizes[ix'.ring[a]] < ix'.sizes[ix'.ring[b]] {
      if a != i && b != i {
        assert Before(ix.ring, if a < i then a else a - 1, if b < i then b else b - 1);
      }
    }
  }

  // ------------------------------------------------------------------ removal

  /** A link that may be absent: the kernel tests for NULL before following it. */
  predicate Linkable(mem: Memory, a: int) {
    a == NULL || InMem(mem, a)
  }

  /** The cells that the removal of `x` follows exist. */
  predicate Removable(mem: Memory, x: int) {
    && InMem(mem, x) && InMem(mem, x + 1) && Linkable(mem, mem[x + 1].next)
    && (mem[x].next == NULL ==> InMem(mem, mem[x + 1].prev))
    && (mem[x].next != NULL ==> InMem(mem, mem[x].next) && InMem(mem, mem[x].prev))
    && (mem[x].next != NULL && mem[x + 1].next != NULL ==> InMem(mem, mem[x + 1].next - 1))
  }

  /** knl_removeFreeQue. */
  function RemoveFree(mem: Memory, x: int): Memory
    requires Removable(mem, x)
  {
    if mem[x].next == NULL then
      var m1 := SetNext(mem, mem[x + 1].prev, mem[x + 1].next);
      if mem[x + 1].next != NULL then CopyPrev(m1, mem[x + 1].next, x + 1) else m1
    else
      Unring(if mem[x + 1].next != NULL then Promote(mem, x) else mem, x)
  }

  /** The next area of the same size becomes the ring member before `x`. */
  function Promote(mem: Memory, x: int): Memory
    requires InMem(mem, x) && InMem(mem, x + 1) && InMem(mem, mem[x].prev)
    requires InMem(mem, mem[x + 1].next) && InMem(mem, mem[x + 1].next - 1)
  {
    var m1 := QueInsert(mem, mem[x + 1].next - 1, x);
    CopyPrev(m1, mem[x + 1].next, x + 1)
  }

  function Unring(mem: Memory, x: int): Memory
    requires InMem(mem, x)
  {
    if InMem(mem, mem[x].next) && InMem(mem, mem[x].prev) then QueRemove(mem, x) else mem
  }

  lemma LeaveChainLinks(mem: Memory, L: seq<int>, j: int)
    requires Chain(mem, L) && 0 < j < |L| && (forall y :: y in L ==> y + 1 !in L)
    requires InMem(mem, L[j] + 1) ==> !mem[L[j] + 1].inuse
    ensures var x := L[j];
            && InMem(mem, x) && InMem(mem, x + 1) && mem[x].next == NULL
            && Linkable(mem, mem[x + 1].next) && InMem(mem, mem[x + 1].prev)
    ensures var mem' := RemoveFree(mem, L[j]);
            && |mem'| == |mem| && Chain(mem', Removed(L, j)) && InMem(mem, L[0] + 1)
            && mem'[L[0] + 1].prev == mem[L[0] + 1].prev
            && (forall a {:trigger mem'[a]} :: InMem(mem, a) && a - 1 !in L ==> mem'[a] == mem[a])
            && OnlyClears(mem, mem')
  {
    LeaveChainAt(mem, L, j);
    LeaveChainFrame(mem, L, j);
    RemovedNoDup(L, j);
    LeaveChainRest(mem, L, j);
  }

  lemma LeaveChainFrame(mem: Memory, L: seq<int>, j: int)
    requires 0 < j < |L|
    requires var x := L[j];
            && InMem(mem, x) && InMem(mem, x + 1) && mem[x].next == NULL && InMem(mem, L[0] + 1) && !mem[x + 1].inuse
            && mem[x + 1].prev == L[j - 1] + 1 && InMem(mem, L[j - 1] + 1)
            && mem[x + 1].next == (if j + 1 < |L| then L[j + 1] + 1 else NULL)
            && (j + 1 < |L| ==> InMem(mem, L[j + 1] + 1) && L[j + 1] != L[0])
    ensures var mem' := RemoveFree(mem, L[j]);
            && |mem'| == |mem| && mem'[L[0] + 1].prev == mem[L[0] + 1].prev
            && (forall a {:trigger mem'[a]} :: InMem(mem, a) && a - 1 !in L ==> mem'[a] == mem[a])
            && OnlyClears(mem, mem')
  {
    var x := L[j];
    DetachFrame(mem, x, mem[x + 1].prev, mem[x + 1].next);
    forall a | InMem(mem, a) && a - 1 !in L ensures a != mem[x + 1].prev && a != mem[x + 1].next {
      assert L[j - 1] in L && (j + 1 < |L| ==> L[j + 1] in L);
    }
  }

  /** knl_removeFreeQue of an area that is not in the ring changes two links. */
  lemma DetachFrame(mem: Memory, x: int, p: int, n: int)
    requires InMem(mem, x) && InMem(mem, x + 1) && mem[x].next == NULL && mem[x + 1].prev == p && mem[x + 1].next == n
    requires InMem(mem, p) && Linkable(mem, n) && !mem[x + 1].inuse
    ensures var mem' := RemoveFree(mem, x);
            && |mem'| == |mem| && (p != n ==> mem'[p].prev == mem[p].prev)
            && (forall a {:trigger mem'[a]} :: InMem(mem, a) && a != p && a != n ==> mem'[a] == mem[a])
            && OnlyClears(mem, mem')
  {
  }

  /** The links around position `j`. */
  lemma LeaveChainAt(mem: Memory, L: seq<int>, j: int)
    requires Chain(mem, L) && 0 < j < |L| && forall y :: y in L ==> y + 1 !in L
    ensures var x := L[j];
            && InMem(mem, x) && InMem(mem, x + 1) && mem[x].next == NULL && InMem(mem, L[0] + 1) && L[0] != x
            && L[j - 1] in L
            && mem[x + 1].prev == L[j - 1] + 1 && InMem(mem, L[j - 1] + 1)
            && mem[x + 1].next == (if j + 1 < |L| then L[j + 1] + 1 else NULL)
            && (j + 1 < |L| ==> L[j + 1] in L && InMem(mem, L[j + 1] + 1) && L[j + 1] != L[0])
  {
    assert Pos(L, j) && Pos(L, j - 1) && Pos(L, 0);
    assert ChainAt(mem, L, j) && ChainAt(mem, L, j - 1) && ChainAt(mem, L, 0);
    NoDupAt(L, 0, j);
    if j + 1 < |L| {
      assert Pos(L, j + 1);
      assert ChainAt(mem, L, j + 1);
      NoDupAt(L, 0, j + 1);
    }
  }

  lemma LeaveChainRest(mem: Memory, L: seq<int>, j: int)
    requires Chain(mem, L) && 0 < j < |L| && (forall y :: y in L ==> y + 1 !in L) && NoDup(Removed(L, j))
    requires var x := L[j];
            && InMem(mem, x) && InMem(mem, x + 1) && mem[x].next == NULL
            && Linkable(mem, mem[x + 1].next) && InMem(mem, mem[x + 1].prev)
            && mem[x + 1].prev == L[j - 1] + 1 && mem[x + 1].next == (if j + 1 < |L| then L[j + 1] + 1 else NULL)
    ensures Chain(RemoveFree(mem, L[j]), Removed(L, j))
  {
    var mem', L' := RemoveFree(mem, L[j]), Removed(L, j);
    assert L[j - 1] in L && (j + 1 < |L| ==> L[j + 1] in L);
    forall k | Pos(L', k) ensures ChainAt(mem', L', k) {
      var k' := if k < j then k else k + 1;
      assert Pos(L, k') && L[k'] in L;
      assert ChainAt(mem, L, k');
      if k' != j - 1 { NoDupAt(L, k', j - 1); }
      if j + 1 < |L| && k' != j + 1 { NoDupAt(L, k', j + 1); }
    }
  }

  lemma LeaveChainIndexed(mem: Memory, F: int, ix: Index, q: int, j: int)
    requires Indexed(mem, F, ix) && q in ix.chain && 0 < j < |ix.chain[q]|
    ensures var x := ix.chain[q][j];
            && InMem(mem, x) && InMem(mem, x + 1) && mem[x].next == NULL && Linkable(mem, mem[x + 1].next)
            && InMem(mem, mem[x + 1].prev)
    ensures var x := ix.chain[q][j];
            && Indexed(RemoveFree(mem, x), F, Index(ix.ring, ix.chain[q := Removed(ix.chain[q], j)], ix.sizes - {x}))
            && Elsewhere(mem, RemoveFree(mem, x), F, ix.sizes.Keys)
  {
    var L := ix.chain[q];
    var x := L[j];
    ChainCells(mem, F, ix, q);
    assert L[j] in L && LinkCell(F, ix, x + 1);
    LeaveChainLinks(mem, L, j);
    RemovedNoDup(L, j);
    var mem' := RemoveFree(mem, x);
    var ix' := Index(ix.ring, ix.chain[q := Removed(L, j)], ix.sizes - {x});
    NoDupAt(L, 0, j);
    assert L[j] in L && x != q && x !in ix.ring;
    RingInSizes(mem, ix);
    assert Ring(mem', F, ix.ring) by {
      assert forall a :: a in ix.ring ==> a in ix.sizes;
      assert forall a :: a == F || a in ix.ring ==> a - 1 !in L;
      RingFrame(mem, mem', F, ix.ring);
    }
    LeaveHeads(mem, mem', F, ix, q, x, Removed(L, j));
    assert InChain(ix, q, x) && q in Removed(L, j);
    LeaveCover(mem, F, ix, q, q, x, Removed(L, j), ix.ring);
    assert (ix.chain - {q})[q := Removed(L, j)] == ix'.chain;
    SameOrder(ix, ix');
    assert Cells(mem, F, ix'.sizes);
    CellsFrame(mem, mem', F, ix'.sizes);
    UnflaggedAgain(mem, mem', F, ix, ix');
  }

  lemma LeaveHeads(mem: Memory, mem': Memory, F: int, ix: Index, q: int, x: int, L: seq<int>)
    requires Indexed(mem, F, ix) && q in ix.chain && |mem'| == |mem| && InChain(ix, q, x) && x != q
    requires Chain(mem', L) && L != [] && L[0] == q && InMem(mem', q + 1) && mem'[q + 1].prev == mem[q + 1].prev
    requires forall a {:trigger mem'[a]} :: InMem(mem, a) && a - 1 !in ix.chain[q] ==> mem'[a] == mem[a]
    ensures Heads(mem', Index(ix.ring, ix.chain[q := L], ix.sizes - {x}))
  {
    forall p | p in ix.chain && p != q
      ensures Chain(mem', ix.chain[p]) && InMem(mem', p + 1) && mem'[p + 1].prev == ix.sizes[p] {
      Apart(mem, F, ix, q, p);
      OtherChain(mem, mem', F, ix, p, ix.chain[q], x);
    }
    RingInSizes(mem, ix);
  }

  /** Chains behind different ring members have no area in common. */
  lemma Apart(mem: Memory, F: int, ix: Index, q: int, p: int)
    requires Indexed(mem, F, ix) && q in ix.chain && p in ix.chain && p != q
    ensures forall y :: y in ix.chain[q] ==> y in ix.sizes && y !in ix.chain[p] && y + 1 !in ix.sizes
                                             && y - 1 !in ix.sizes
  {
    forall y | y in ix.chain[q] ensures y in ix.sizes && y !in ix.chain[p] {
      assert InChain(ix, q, y);
      if InChain(ix, p, y) { OneChain(mem, F, ix, q, p, y); }
    }
    ChainCells(mem, F, ix, q);
  }

  /** Area `x` left the chain of `q`; what remains, `L`, is the chain of `q'` now. */
  lemma LeaveCover(mem: Memory, F: int, ix: Index, q: int, q': int, x: int, L: seq<int>, ring: seq<int>)
    requires Indexed(mem, F, ix) && InChain(ix, q, x)
    requires forall y :: y in L <==> y != x && y in ix.chain[q]
    requires q' in L && (q' == q || q == x)
    requires forall y :: y in ring <==> y == q' || (y in ix.ring && y != x)
    ensures Followers(Index(ring, (ix.chain - {q})[q' := L], ix.sizes - {x}))
  {
    var ix' := Index(ring, (ix.chain - {q})[q' := L], ix.sizes - {x});
    assert InChain(ix, q, q');
    forall p, y | InChain(ix', p, y)
      ensures y in ix'.sizes && p in ix'.sizes && ix'.sizes[y] == ix'.sizes[p] && (y != p ==> y !in ix'.ring)
    {
      if p == q' {
        assert InChain(ix, q, y);
      } else {
        Apart(mem, F, ix, q, p);
        assert InChain(ix, p, y);
      }
    }
    forall y | Holds(ix', y) ensures exists p :: InChain(ix', p, y) {
      assert Holds(ix, y);
      var p :| InChain(ix, p, y);
      assert p == q' ==> p == q;
      assert InChain(ix', if p == q then q' else p, y);
    }
  }

  // ---------------------------------------------- removal of a ring member

  /** The ring member at position `i` gives way to the next area of its size. */
  lemma PromoteIndexed(mem: Memory, F: int, ix: Index, i: int)
    requires Indexed(mem, F, ix) && 0 <= i < |ix.ring| && ix.ring[i] in ix.chain && |ix.chain[ix.ring[i]]| > 1
    ensures var x := ix.ring[i];
            && InMem(mem, x) && InMem(mem, x + 1) && mem[x].next != NULL && InMem(mem, mem[x].next)
            && InMem(mem, mem[x].prev)
            && mem[x + 1].next != NULL && InMem(mem, mem[x + 1].next) && InMem(mem, mem[x + 1].next - 1)
    ensures var x := ix.ring[i]; var L := ix.chain[x];
            && Indexed(RemoveFree(mem, x), F,
                       Index(ix.ring[i := L[1]], (ix.chain - {x})[L[1] := L[1..]], ix.sizes - {x}))
            && Elsewhere(mem, RemoveFree(mem, x), F, ix.sizes.Keys) && RemoveFree(mem, x)[x + 1] == mem[x + 1]
  {
    var x := ix.ring[i];
    var L := ix.chain[x];
    var y := L[1];
    ChainCells(mem, F, ix, x);
    assert Pos(L, 0) && Pos(L, 1) && y in L;
    assert ChainAt(mem, L, 0) && ChainAt(mem, L, 1);
    NoDupAt(L, 0, 1);
    RingUnflagged(mem, F, ix);
    assert LinkCell(F, ix, x + 1);
    PromoteRing(mem, F, ix.ring, i, y);
    RingInSizes(mem, ix);
    var mem' := RemoveFree(mem, x);
    assert mem' == QueRemove(Promote(mem, x), x);
    PromoteRest(mem, mem', F, ix, i);
  }

  /** The ring before and after the exchange of member `i` for `y`. */
  lemma PromoteRing(mem: Memory, F: int, ring: seq<int>, i: int, y: int)
    requires Ring(mem, F, ring) && 0 <= i < |ring| && InMem(mem, y) && InMem(mem, y + 1) && InMem(mem, ring[i] + 1)
    requires y != F && y !in ring && y + 1 != F && y + 1 !in ring && ring[i] + 1 != F && ring[i] + 1 !in ring
             && y != ring[i] + 1
    requires mem[ring[i] + 1].next == y + 1 && ClearRing(mem, F, ring) && !mem[ring[i] + 1].inuse
    ensures var x := ring[i];
            && InMem(mem, x) && InMem(mem, mem[x].next) && InMem(mem, mem[x].prev)
    ensures var x := ring[i]; var m2 := Promote(mem, x);
            && |m2| == |mem| && InMem(m2, m2[x].next) && InMem(m2, m2[x].prev)
            && var mem' := QueRemove(m2, x);
               && |mem'| == |mem| && Ring(mem', F, ring[i := y])
               && mem'[y + 1].prev == mem[x + 1].prev && mem'[y + 1].next == mem[y + 1].next
               && (forall a {:trigger mem'[a]} :: InMem(mem, a) && a != y && a != y + 1 && a !in ring && a != F ==>
                   mem'[a] == mem[a])
               && OnlyClears(mem, mem') && !mem'[y].inuse
  {
    var x := ring[i];
    PromoteFirst(mem, F, ring, i, y);
    PromoteSecond(Promote(mem, x), F, ring, i, y);
  }

  /** The second half: `ring[i]` leaves the ring. */
  lemma PromoteSecond(m2: Memory, F: int, ring: seq<int>, i: int, y: int)
    requires 0 <= i < |ring| && NoDup(ring) && y !in ring && Ring(m2, F, Inserted(ring, i, y))
    requires ClearRing(m2, F, Inserted(ring, i, y))
    ensures var x := ring[i];
            && InMem(m2, x) && InMem(m2, m2[x].next) && InMem(m2, m2[x].prev)
            && var mem' := QueRemove(m2, x);
               && |mem'| == |m2| && Ring(mem', F, ring[i := y])
               && (forall a {:trigger mem'[a]} :: InMem(m2, a) && a != y && a !in ring && a != F ==> mem'[a] == m2[a])
               && OnlyClears(m2, mem')
  {
    var r1 := Inserted(ring, i, y);
    InsertedNoDup(ring, i, y);
    assert r1[i + 1] == ring[i];
    RingRemove(m2, F, r1, i + 1);
    RemoveOnlyRing(m2, F, r1, i + 1);
    assert Removed(r1, i + 1) == ring[i := y];
  }

  /** The first half: `y` is in the ring before `ring[i]`, and has its size. */
  lemma PromoteFirst(mem: Memory, F: int, ring: seq<int>, i: int, y: int)
    requires Ring(mem, F, ring) && 0 <= i < |ring| && InMem(mem, y) && InMem(mem, y + 1) && InMem(mem, ring[i] + 1)
    requires y != F && y !in ring && y + 1 != F && y + 1 !in ring && ring[i] + 1 != F && ring[i] + 1 !in ring
             && y != ring[i] + 1
    requires mem[ring[i] + 1].next == y + 1 && ClearRing(mem, F, ring) && !mem[ring[i] + 1].inuse
    ensures var x := ring[i];
            && InMem(mem, x) && InMem(mem, mem[x].next) && InMem(mem, mem[x].prev)
            && var m2 := Promote(mem, x);
               && |m2| == |mem| && Ring(m2, F, Inserted(ring, i, y))
               && m2[y + 1].prev == mem[x + 1].prev && m2[y + 1].next == mem[y + 1].next
               && (forall a {:trigger m2[a]} :: InMem(mem, a) && a != y && a != y + 1 && a !in ring && a != F ==>
                   m2[a] == mem[a])
               && OnlyClears(mem, m2) && !m2[y].inuse && ClearRing(m2, F, Inserted(ring, i, y))
  {
    var x := ring[i];
    RingInsert(mem, F, ring, i, y);
    InsertOnlyRing(mem, F, ring, i, y);
    RingAt(mem, F, ring, i);
    RingAt(mem, F, ring, i + 1);
    InsertedNoDup(ring, i, y);
    RingFrame(QueInsert(mem, y, x), Promote(mem, x), F, Inserted(ring, i, y));
  }

  lemma PromoteRest(mem: Memory, mem': Memory, F: int, ix: Index, i: int)
    requires Indexed(mem, F, ix) && 0 <= i < |ix.ring| && ix.ring[i] in ix.chain && |ix.chain[ix.ring[i]]| > 1
    requires |mem'| == |mem|
    requires var x := ix.ring[i]; var y := ix.chain[x][1];
             && Ring(mem', F, ix.ring[i := y]) && InMem(mem, y + 1) && x in ix.sizes
             && mem'[y + 1].prev == ix.sizes[x] && mem'[y + 1].next == mem[y + 1].next
             && (forall a {:trigger mem'[a]} :: InMem(mem, a) && a != y && a != y + 1 && a !in ix.ring && a != F ==>
                 mem'[a] == mem[a])
             && OnlyClears(mem, mem') && InMem(mem, y) && !mem'[y].inuse
    ensures var x := ix.ring[i]; var L := ix.chain[x];
            && Indexed(mem', F, Index(ix.ring[i := L[1]], (ix.chain - {x})[L[1] := L[1..]], ix.sizes - {x}))
            && Elsewhere(mem, mem', F, ix.sizes.Keys)
  {
    var x := ix.ring[i];
    var L := ix.chain[x];
    var y := L[1];
    var ix' := Index(ix.ring[i := y], (ix.chain - {x})[y := L[1..]], ix.sizes - {x});
    ChainCells(mem, F, ix, x);
    TailNoDup(L);
    assert y in L && y != x;
    assert forall z :: z in L[1..] <==> z != x && z in L by { assert forall z :: z in L <==> z == L[0] || z in L[1..]; }
    ReplacedMembers(ix.ring, i, y);
    assert InChain(ix, x, x) && InChain(ix, x, y) && y in L[1..];
    LeaveCover(mem, F, ix, x, y, x, L[1..], ix.ring[i := y]);
    RingInSizes(mem, ix);
    PromoteHeads(mem, mem', F, ix, i, x, y);
    PromoteOrder(ix, i, y, ix');
    assert Cells(mem, F, ix'.sizes);
    CellsFrame(mem, mem', F, ix'.sizes);
    UnflaggedAgain(mem, mem', F, ix, ix');
  }

  lemma ReplacedMembers(ring: seq<int>, i: int, y: int)
    requires NoDup(ring) && 0 <= i < |ring|
    ensures forall z :: z in ring[i := y] <==> z == y || (z in ring && z != ring[i])
  {
    var r := ring[i := y];
    assert r[i] == y;
    forall z | z in r && z != y ensures z in ring && z != ring[i] {
      var k :| 0 <= k < |r| && r[k] == z;
      NoDupAt(ring, k, i);
    }
    forall z | z in ring && z != ring[i] ensures z in r {
      var k :| 0 <= k < |ring| && ring[k] == z;
      assert r[k] == z;
    }
  }

  lemma PromoteHeads(mem: Memory, mem': Memory, F: int, ix: Index, i: int, x: int, y: int)
    requires Indexed(mem, F, ix) && |mem'| == |mem| && 0 <= i < |ix.ring| && ix.ring[i] == x && x in ix.chain
    requires |ix.chain[x]| > 1 && ix.chain[x][1] == y && y != x && y in ix.sizes && x in ix.sizes
             && ix.sizes[y] == ix.sizes[x]
    requires forall z :: z in ix.ring[i := y] <==> z == y || (z in ix.ring && z != x)
    requires InMem(mem, y + 1) && mem'[y + 1].prev == ix.sizes[x] && mem'[y + 1].next == mem[y + 1].next
    requires forall a {:trigger mem'[a]} :: InMem(mem, a) && a != y && a != y + 1 && a !in ix.ring && a != F ==>
             mem'[a] == mem[a]
    ensures Heads(mem', Index(ix.ring[i := y], (ix.chain - {x})[y := ix.chain[x][1..]], ix.sizes - {x}))
  {
    var L := ix.chain[x];
    forall p | p in ix.chain && p != x
      ensures Chain(mem', ix.chain[p]) && InMem(mem', p + 1) && mem'[p + 1].prev == ix.sizes[p] {
      Apart(mem, F, ix, x, p);
      assert y in L;
      OtherChain(mem, mem', F, ix, p, [], y);
    }
    ChainCells(mem, F, ix, x);
    TailNoDup(L);
    var L' := L[1..];
    assert Chain(mem', L') by {
      forall k | Pos(L', k) ensures ChainAt(mem', L', k) {
        assert Pos(L, k + 1) && L[k + 1] in L && y in L;
        assert ChainAt(mem, L, k + 1);
        if k > 0 {
          NoDupAt(L, 0, k + 1);
          NoDupAt(L, 1, k + 1);
        }
      }
    }
    RingInSizes(mem, ix);
    assert y !in ix.ring by { assert InChain(ix, x, y); }
  }

  lemma PromoteOrder(ix: Index, i: int, y: int, ix': Index)
    requires Increasing(ix) && 0 <= i < |ix.ring| && NoDup(ix.ring) && y in ix.sizes && ix.ring[i] in ix.sizes
    requires ix.sizes[y] == ix.sizes[ix.ring[i]] && y != ix.ring[i] && (forall q :: q in ix.ring ==> q in ix.sizes)
    requires ix'.ring == ix.ring[i := y] && ix'.sizes == ix.sizes - {ix.ring[i]}
    ensures Increasing(ix')
  {
    forall a, b | Before(ix'.ring, a, b) && ix'.ring[a] in ix'.sizes && ix'.ring[b] in ix'.sizes
      ensures ix'.sizes[ix'.ring[a]] < ix'.sizes[ix'.ring[b]]
    {
      assert Before(ix.ring, a, b) && ix.ring[a] in ix.ring && ix.ring[b] in ix.ring;
    }
  }

  /** The only area of its size leaves the ring. */
  lemma DropIndexed(mem: Memory, F: int, ix: Index, i: int)
    requires Indexed(mem, F, ix) && 0 <= i < |ix.ring| && ix.ring[i] in ix.chain && |ix.chain[ix.ring[i]]| == 1
    ensures var x := ix.ring[i];
            && InMem(mem, x) && InMem(mem, x + 1) && mem[x].next != NULL && InMem(mem, mem[x].next)
            && InMem(mem, mem[x].prev)
            && mem[x + 1].next == NULL
    ensures var x := ix.ring[i];
            && Indexed(RemoveFree(mem, x), F, Index(Removed(ix.ring, i), ix.chain - {x}, ix.sizes - {x}))
            && Elsewhere(mem, RemoveFree(mem, x), F, ix.sizes.Keys) && RemoveFree(mem, x)[x + 1] == mem[x + 1]
  {
    var x := ix.ring[i];
    ChainCells(mem, F, ix, x);
    assert Pos(ix.chain[x], 0);
    assert ChainAt(mem, ix.chain[x], 0);
    RingUnflagged(mem, F, ix);
    DropRing(mem, F, ix.ring, i);
    var mem' := RemoveFree(mem, x);
    assert mem' == QueRemove(mem, x);
    DropRest(mem, mem', F, ix, i);
  }

  lemma DropRing(mem: Memory, F: int, ring: seq<int>, i: int)
    requires Ring(mem, F, ring) && ClearRing(mem, F, ring) && 0 <= i < |ring|
    ensures var x := ring[i];
            && InMem(mem, x) && InMem(mem, mem[x].next) && InMem(mem, mem[x].prev)
            && var mem' := QueRemove(mem, x);
               && |mem'| == |mem| && Ring(mem', F, Removed(ring, i))
               && (forall a {:trigger mem'[a]} :: InMem(mem, a) && a !in ring && a != F ==> mem'[a] == mem[a])
               && OnlyClears(mem, mem')
  {
    RingRemove(mem, F, ring, i);
    RemoveOnlyRing(mem, F, ring, i);
    assert ring[i] in ring;
  }

  lemma DropRest(mem: Memory, mem': Memory, F: int, ix: Index, i: int)
    requires Indexed(mem, F, ix) && 0 <= i < |ix.ring| && ix.ring[i] in ix.chain && |ix.chain[ix.ring[i]]| == 1
    requires |mem'| == |mem| && Ring(mem', F, Removed(ix.ring, i))
    requires forall a {:trigger mem'[a]} :: InMem(mem, a) && a !in ix.ring && a != F ==> mem'[a] == mem[a]
    requires OnlyClears(mem, mem')
    ensures var x := ix.ring[i];
            && Indexed(mem', F, Index(Removed(ix.ring, i), ix.chain - {x}, ix.sizes - {x}))
            && Elsewhere(mem, mem', F, ix.sizes.Keys)
  {
    var x := ix.ring[i];
    var ix' := Index(Removed(ix.ring, i), ix.chain - {x}, ix.sizes - {x});
    RemovedNoDup(ix.ring, i);
    RingInSizes(mem, ix);
    ChainCells(mem, F, ix, x);
    forall r | r in ix.chain && r != x
      ensures Chain(mem', ix.chain[r]) && InMem(mem', r + 1) && mem'[r + 1].prev == ix.sizes[r] {
      Apart(mem, F, ix, x, r);
      assert x !in ix.chain[r] && x + 1 !in ix.sizes && x - 1 !in ix.sizes;
      OtherChain(mem, mem', F, ix, r, [], x);
    }
    DropCover(mem, F, ix, i);
    assert Increasing(ix') by {
      forall a, b | Before(ix'.ring, a, b) && ix'.ring[a] in ix'.sizes && ix'.ring[b] in ix'.sizes
        ensures ix'.sizes[ix'.ring[a]] < ix'.sizes[ix'.ring[b]]
      {
        assert Before(ix.ring, if a < i then a else a + 1, if b < i then b else b + 1);
      }
    }
    assert Cells(mem, F, ix'.sizes);
    CellsFrame(mem, mem', F, ix'.sizes);
    UnflaggedAgain(mem, mem', F, ix, ix');
  }

  lemma DropCover(mem: Memory, F: int, ix: Index, i: int)
    requires Indexed(mem, F, ix) && 0 <= i < |ix.ring| && ix.ring[i] in ix.chain && |ix.chain[ix.ring[i]]| == 1
    requires forall z :: z in Removed(ix.ring, i) <==> z != ix.ring[i] && z in ix.ring
    ensures Followers(Index(Removed(ix.ring, i), ix.chain - {ix.ring[i]}, ix.sizes - {ix.ring[i]}))
  {
    var x := ix.ring[i];
    var ix' := Index(Removed(ix.ring, i), ix.chain - {x}, ix.sizes - {x});
    ChainCells(mem, F, ix, x);
    forall p, y | InChain(ix', p, y)
      ensures y in ix'.sizes && p in ix'.sizes && ix'.sizes[y] == ix'.sizes[p] && (y != p ==> y !in ix'.ring)
    {
      Apart(mem, F, ix, x, p);
      assert InChain(ix, p, y);
    }
    forall y | Holds(ix', y) ensures exists p :: InChain(ix', p, y) {
      assert Holds(ix, y);
      var p :| InChain(ix, p, y);
      assert InChain(ix', p, y);
    }
  }

  // ------------------------------------------------------------ whole operations

  /** knl_removeFreeQue takes exactly `x` out of the index, wherever it is. */
  lemma RemoveIndexed(mem: Memory, F: int, ix: Index, x: int) returns (ix': Index)
    requires Indexed(mem, F, ix) && x in ix.sizes
    ensures Removable(mem, x)
    ensures Indexed(RemoveFree(mem, x), F, ix') && ix'.sizes == ix.sizes - {x}
    ensures Elsewhere(mem, RemoveFree(mem, x), F, ix.sizes.Keys)
    ensures x in ix.ring ==> RemoveFree(mem, x)[x + 1].prev == ix.sizes[x]
  {
    assert Holds(ix, x);
    var q :| InChain(ix, q, x);
    RingInSizes(mem, ix);
    if q != x {
      var j :| 0 <= j < |ix.chain[q]| && ix.chain[q][j] == x;
      LeaveChainIndexed(mem, F, ix, q, j);
      ix' := Index(ix.ring, ix.chain[q := Removed(ix.chain[q], j)], ix.sizes - {x});
    } else {
      ix' := RemoveHead(mem, F, ix, x);
    }
  }

  /** A ring member leaves, alone or with a successor of the same size. */
  lemma RemoveHead(mem: Memory, F: int, ix: Index, x: int) returns (ix': Index)
    requires Indexed(mem, F, ix) && x in ix.chain
    ensures Removable(mem, x) && x in ix.sizes
    ensures Indexed(RemoveFree(mem, x), F, ix') && ix'.sizes == ix.sizes - {x}
    ensures Elsewhere(mem, RemoveFree(mem, x), F, ix.sizes.Keys)
    ensures RemoveFree(mem, x)[x + 1].prev == ix.sizes[x]
  {
    RingInSizes(mem, ix);
    var i :| 0 <= i < |ix.ring| && ix.ring[i] == x;
    if |ix.chain[x]| > 1 {
      PromoteIndexed(mem, F, ix, i);
      var L := ix.chain[x];
      ix' := Index(ix.ring[i := L[1]], (ix.chain - {x})[L[1] := L[1..]], ix.sizes - {x});
    } else {
      DropIndexed(mem, F, ix, i);
      ix' := Index(Removed(ix.ring, i), ix.chain - {x}, ix.sizes - {x});
    }
  }

  /** `i` is where an area of `size` bytes belongs in the ring: all before are
      smaller, none from there on is. */
  ghost predicate Place(ix: Index, i: int, size: int) {
    && 0 <= i <= |ix.ring|
    && (forall k :: 0 <= k < i ==> ix.ring[k] in ix.sizes && ix.sizes[ix.ring[k]] < size)
    && (forall k :: i <= k < |ix.ring| ==> ix.ring[k] in ix.sizes && ix.sizes[ix.ring[k]] >= size)
  }

  /** The cells that the registration of `x` at `q` follows exist. */
  predicate Appendable(mem: Memory, F: int, x: int, q: int, size: int) {
    && InMem(mem, x) && InMem(mem, x + 1) && InMem(mem, q) && InMem(mem, mem[q].prev) && (q != F ==> InMem(mem, q + 1))
    && (q != F && mem[q + 1].prev == size ==> Linkable(mem, mem[q + 1].next))
  }

  /** The second half of knl_appendFreeArea: a new area `x`, registered at its place. */
  function AppendFree(mem: Memory, F: int, x: int, q: int, size: int): Memory
    requires Appendable(mem, F, x, q, size)
  {
    if q != F && mem[q + 1].prev == size then AppendSame(mem, x, q) else AppendNew(mem, x, q, size)
  }

  lemma AppendIndexed(mem: Memory, F: int, ix: Index, i: int, x: int, size: int) returns (ix': Index)
    requires Indexed(mem, F, ix) && Place(ix, i, size) && x !in ix.sizes && Cells(mem, F, ix.sizes[x := size])
    ensures var q := At(F, ix.ring, i);
            && Appendable(mem, F, x, q, size)
            && Indexed(AppendFree(mem, F, x, q, size), F, ix')
            && Elsewhere(mem, AppendFree(mem, F, x, q, size), F, ix.sizes.Keys + {x})
    ensures ix'.sizes == ix.sizes[x := size]
  {
    var q := At(F, ix.ring, i);
    Fresh(mem, F, ix.sizes, x, size);
    RingAt(mem, F, ix.ring, i);
    RingAt(mem, F, ix.ring, i - 1);
    RingInSizes(mem, ix);
    assert i < |ix.ring| ==> q in ix.ring && mem[q + 1].prev == ix.sizes[q];
    if i < |ix.ring| && ix.sizes[q] == size {
      JoinChainIndexed(mem, F, ix, q, x);
      ix' := JoinChain(ix, q, x);
    } else {
      forall k | i <= k < |ix.ring| ensures ix.sizes[ix.ring[k]] > size {
        assert k > i ==> Before(ix.ring, i, k);
      }
      NewChainIndexed(mem, F, ix, i, x, size);
      ix' := NewChain(ix, i, x, size);
    }
  }

  /** Whatever stands at the place of `size` is the best fit; the sentinel stands
      there exactly if nothing fits. */
  lemma BestFit(mem: Memory, F: int, ix: Index, i: int, size: int)
    requires Indexed(mem, F, ix) && Place(ix, i, size)
    ensures var q := At(F, ix.ring, i);
            && (q == F <==> forall x :: x in ix.sizes ==> ix.sizes[x] < size)
            && (q != F ==> q in ix.sizes && ix.sizes[q] >= size
                           && forall x :: x in ix.sizes && ix.sizes[x] >= size ==> ix.sizes[q] <= ix.sizes[x])
  {
    var q := At(F, ix.ring, i);
    assert q != F <==> i < |ix.ring| by { assert i < |ix.ring| ==> ix.ring[i] in ix.ring; }
    forall x | x in ix.sizes ensures ix.sizes[x] < size || (q != F && ix.sizes[q] <= ix.sizes[x]) {
      assert Holds(ix, x);
      var p :| InChain(ix, p, x);
      assert p in ix.ring;
      var k :| 0 <= k < |ix.ring| && ix.ring[k] == p;
      assert k > i ==> Before(ix.ring, i, k);
    }
  }

  /** What can be read at position `k` of the ring. */
  lemma RingStep(mem: Memory, F: int, ix: Index, k: int)
    requires Indexed(mem, F, ix) && 0 <= k < |ix.ring|
    ensures var q := ix.ring[k];
            && q != F && InMem(mem, q) && InMem(mem, q + 1) && q in ix.sizes && mem[q + 1].prev == ix.sizes[q]
            && mem[q].next == At(F, ix.ring, k + 1) && mem[q].prev == At(F, ix.ring, k - 1)
            && (forall j :: 0 <= j < k ==> ix.ring[j] in ix.sizes && ix.sizes[ix.ring[j]] < ix.sizes[q])
            && (forall j :: k < j < |ix.ring| ==> ix.ring[j] in ix.sizes && ix.sizes[ix.ring[j]] > ix.sizes[q])
  {
    RingAt(mem, F, ix.ring, k);
    RingInSizes(mem, ix);
    assert ix.ring[k] in ix.ring;
    forall j | 0 <= j < |ix.ring| && j != k
      ensures ix.ring[j] in ix.sizes && if j < k then ix.sizes[ix.ring[j]] < ix.sizes[ix.ring[k]]
              else ix.sizes[ix.ring[j]] > ix.sizes[ix.ring[k]]
    {
      var q := ix.ring[j];
      assert q in ix.ring && q in ix.chain && q in ix.sizes;
      assert Before(ix.ring, j, k) || Before(ix.ring, k, j);
    }
  }

  lemma RingEnds(mem: Memory, F: int, ix: Index)
    requires Indexed(mem, F, ix)
    ensures InMem(mem, F) && mem[F].next == At(F, ix.ring, 0) && mem[F].prev == At(F, ix.ring, |ix.ring| - 1)
  {
    RingAt(mem, F, ix.ring, 0);
  }
}
