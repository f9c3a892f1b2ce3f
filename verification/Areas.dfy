/**
 The address-ordered ring of areas ("AreaQue") of the kernel heap and of the
 variable-size memory pool, and how it relates to the free index.  An area is
 named by the cell of its header.  In a pool the first area has its header in the
 control block (cell `A`) and the end marker `E` lies outside the pool; in the heap
 both lie at the edges of the managed memory and cell `A` is only a sentinel.
 */
module Areas {
  import opened Common
  import opened Rings

  /** Bytes per cell: sizeof(QUEUE). */
  const CELL := 8

  datatype Layout = Layout(A: int, F: int, E: int, base: int, limit: int, bytes: int, pool: bool)

  ghost predicate LayoutOk(lay: Layout, n: int) {
    && lay.A != lay.F && lay.A != lay.E && lay.F != lay.E
    && 0 <= lay.A < n && 0 <= lay.F < n && 0 <= lay.E < n
    && 0 <= lay.base <= lay.limit <= n && 0 <= lay.bytes
    && !(lay.base <= lay.A < lay.limit) && !(lay.base <= lay.F < lay.limit) && !(lay.base <= lay.E < lay.limit)
    && lay.A + 1 != lay.base && (!lay.pool ==> lay.E == lay.limit)
  }

  /** First cell of the block that belongs to header `h`. */
  function Start(lay: Layout, h: int): int {
    if h == lay.A then lay.base else h + 1
  }

  /** Cell before which a block ends if `h` is the next header. */
  function Stop(lay: Layout, h: int): int {
    if h == lay.E then lay.limit else h
  }

  /** The header of the block that starts at `x`. */
  function Header(lay: Layout, x: int): int {
    if x == lay.base then lay.A else x - 1
  }

  /** `h` is the header of an area (the end marker is not). */
  predicate IsArea(lay: Layout, R: seq<int>, h: int) {
    h == lay.A || (h in R && h != lay.E)
  }

  /** Only in a pool is the first header more than a sentinel. */
  predicate HasBlock(lay: Layout, h: int) {
    lay.pool || h != lay.A
  }

  /** The headers `R` are linked in address order and leave room for every block. */
  ghost predicate Tiled(lay: Layout, mem: Memory, R: seq<int>) {
    && LayoutOk(lay, |mem|) && Ring(mem, lay.A, R)
    && R != [] && R[|R| - 1] == lay.E && mem[lay.E].inuse && (!lay.pool ==> mem[lay.A].inuse)
    && (if lay.pool then lay.base + 2 <= Stop(lay, R[0]) else lay.base == Stop(lay, R[0]))
    && (forall h {:trigger h in R} :: h in R && h != lay.E ==> lay.base <= h && h + 3 <= lay.limit)
    && (forall i, j {:trigger Before(R, i, j)} :: Before(R, i, j) ==> R[i] + 3 <= Stop(lay, R[j]))
  }

  /** The free index knows exactly the unused areas, `live` exactly the used ones,
      each with its true extent; areas in `skip` are in transit. */
  ghost predicate Match(lay: Layout, mem: Memory, R: seq<int>, sizes: map<int, int>, live: map<int, int>,
                        skip: set<int>) {
    && (forall x {:trigger x in sizes} :: x in sizes ==>
          && IsArea(lay, R, Header(lay, x)) && Start(lay, Header(lay, x)) == x && Header(lay, x) !in skip
          && InMem(mem, Header(lay, x)) && !mem[Header(lay, x)].inuse
          && sizes[x] == CELL * (Stop(lay, mem[Header(lay, x)].next) - x))
    && (forall x {:trigger x in live} :: x in live ==>
          && IsArea(lay, R, Header(lay, x)) && Start(lay, Header(lay, x)) == x && Header(lay, x) !in skip
          && InMem(mem, Header(lay, x)) && mem[Header(lay, x)].inuse && HasBlock(lay, Header(lay, x))
          && live[x] == Stop(lay, mem[Header(lay, x)].next))
    && (forall h {:trigger IsArea(lay, R, h)} :: IsArea(lay, R, h) && InMem(mem, h) && h !in skip
                                                 && HasBlock(lay, h) ==>
          if mem[h].inuse then Start(lay, h) in live else Start(lay, h) in sizes)
  }

  /** No two neighbouring areas are both unused. */
  ghost predicate Coalesced(lay: Layout, mem: Memory, R: seq<int>) {
    forall h {:trigger IsArea(lay, R, h)} :: IsArea(lay, R, h) && InMem(mem, h) && !mem[h].inuse ==>
      InMem(mem, mem[h].next) && mem[mem[h].next].inuse
  }

  // ----------------------------------------------------------------- geometry

  /** The position of a header, and its neighbours in the ring. */
  lemma Locate(lay: Layout, mem: Memory, R: seq<int>, h: int) returns (k: int)
    requires Tiled(lay, mem, R) && IsArea(lay, R, h)
    ensures -1 <= k < |R| - 1 && At(lay.A, R, k) == h && InMem(mem, h)
    ensures mem[h].next == R[k + 1] && InMem(mem, R[k + 1]) && mem[R[k + 1]].prev == h && h != R[k + 1]
    ensures mem[h].prev == (if k == -1 then lay.E else At(lay.A, R, k - 1)) && InMem(mem, mem[h].prev)
  {
    if h == lay.A {
      k := -1;
    } else {
      k :| 0 <= k < |R| && R[k] == h;
    }
    RingAt(mem, lay.A, R, k);
    RingAt(mem, lay.A, R, k + 1);
    RingAt(mem, lay.A, R, |R| - 1);
    if k >= 0 {
      RingAt(mem, lay.A, R, k - 1);
      NoDupAt(R, k, k + 1);
    } else {
      assert R[0] in R;
    }
  }

  /** A block lies inside the managed memory and has room for two cells. */
  lemma BlockBounds(lay: Layout, mem: Memory, R: seq<int>, h: int)
    requires Tiled(lay, mem, R) && IsArea(lay, R, h) && HasBlock(lay, h)
    ensures InMem(mem, h) && lay.base <= Start(lay, h) && Start(lay, h) + 2 <= Stop(lay, mem[h].next) <= lay.limit
    ensures Header(lay, Start(lay, h)) == h
  {
    var k := Locate(lay, mem, R, h);
    assert k >= 0 ==> Before(R, k, k + 1) && R[k] in R;
    assert R[k + 1] in R;
  }

  /** No header lies inside a block. */
  lemma NoHeaderInside(lay: Layout, mem: Memory, R: seq<int>, h: int, g: int)
    requires Tiled(lay, mem, R) && IsArea(lay, R, h) && HasBlock(lay, h) && (g == lay.A || g in R)
    ensures InMem(mem, h) && !(Start(lay, h) <= g < Stop(lay, mem[h].next))
  {
    var k := Locate(lay, mem, R, h);
    BlockBounds(lay, mem, R, h);
    if g != lay.A && g != lay.E {
      var j :| 0 <= j < |R| && R[j] == g;
      if j < k {
        assert Before(R, j, k);
      } else if j > k + 1 {
        assert Before(R, k + 1, j);
        NoDupAt(R, k + 1, |R| - 1);
      }
    }
  }

  /** Different areas have disjoint blocks. */
  lemma BlocksDisjoint(lay: Layout, mem: Memory, R: seq<int>, h: int, g: int)
    requires Tiled(lay, mem, R) && IsArea(lay, R, h) && HasBlock(lay, h) && IsArea(lay, R, g) && HasBlock(lay, g)
             && h != g
    ensures InMem(mem, h) && InMem(mem, g)
    ensures Stop(lay, mem[h].next) <= Start(lay, g) || Stop(lay, mem[g].next) <= Start(lay, h)
  {
    var k := Locate(lay, mem, R, h);
    var j := Locate(lay, mem, R, g);
    assert k >= 0 ==> R[k] in R;
    assert j >= 0 ==> R[j] in R;
    assert R[k + 1] in R && R[j + 1] in R;
    if k + 1 < j {
      assert Before(R, k + 1, j);
      NoDupAt(R, k + 1, |R| - 1);
    } else if j + 1 < k {
      assert Before(R, j + 1, k);
      NoDupAt(R, j + 1, |R| - 1);
    }
  }

  /** The extents in `sizes` satisfy what the free index asks of its cells. */
  lemma MatchCells(lay: Layout, mem: Memory, R: seq<int>, sizes: map<int, int>, live: map<int, int>, skip: set<int>)
    requires Tiled(lay, mem, R) && Match(lay, mem, R, sizes, live, skip)
    ensures forall x {:trigger x in sizes} :: x in sizes ==>
              && InMem(mem, x) && InMem(mem, x + 1) && lay.F != x && lay.F != x + 1 && x + 1 !in sizes
              && lay.base <= x && x + 2 <= lay.limit && sizes[x] >= 2 * CELL && HasBlock(lay, Header(lay, x))
  {
    forall x | x in sizes
      ensures && InMem(mem, x) && InMem(mem, x + 1) && lay.F != x && lay.F != x + 1 && x + 1 !in sizes
              && lay.base <= x && x + 2 <= lay.limit && sizes[x] >= 2 * CELL && HasBlock(lay, Header(lay, x))
    {
      var h := Header(lay, x);
      BlockBounds(lay, mem, R, h);
      if x + 1 in sizes {
        NoHeaderInside(lay, mem, R, h, Header(lay, x + 1));
      }
    }
  }

  /** Cells of registered free areas are no headers. */
  lemma FreeCellsAreNotHeaders(lay: Layout, mem: Memory, R: seq<int>, sizes: map<int, int>, live: map<int, int>,
                               skip: set<int>, a: int)
    requires Tiled(lay, mem, R) && Match(lay, mem, R, sizes, live, skip) && (a == lay.A || a in R)
    ensures a !in sizes && a - 1 !in sizes && a != lay.F
  {
    MatchCells(lay, mem, R, sizes, live, skip);
    if a in sizes {
      BlockBounds(lay, mem, R, Header(lay, a));
      NoHeaderInside(lay, mem, R, Header(lay, a), a);
    }
    if a - 1 in sizes {
      BlockBounds(lay, mem, R, Header(lay, a - 1));
      NoHeaderInside(lay, mem, R, Header(lay, a - 1), a);
    }
    assert a in R && a != lay.E ==> lay.base <= a < lay.limit;
  }

  // --------------------------------------------------- changes to single areas

  /** Work on the free index does not disturb the areas. */
  lemma AreasFrame(lay: Layout, mem: Memory, mem': Memory, R: seq<int>)
    requires Tiled(lay, mem, R) && |mem'| == |mem|
    requires forall a :: a == lay.A || a in R ==> InMem(mem, a) && mem'[a] == mem[a]
    ensures Tiled(lay, mem', R)
  {
    RingFrame(mem, mem', lay.A, R);
    assert R[|R| - 1] in R;
  }

  lemma MatchFrame(lay: Layout, mem: Memory, mem': Memory, R: seq<int>, sizes: map<int, int>, live: map<int, int>,
                   skip: set<int>)
    requires Tiled(lay, mem, R) && Match(lay, mem, R, sizes, live, skip) && |mem'| == |mem|
    requires forall a :: a == lay.A || a in R ==> InMem(mem, a) && mem'[a] == mem[a]
    ensures Match(lay, mem', R, sizes, live, skip)
  {
  }

  /** Taking an area out of the index, or putting one in. */
  lemma Unregister(lay: Layout, mem: Memory, R: seq<int>, sizes: map<int, int>, live: map<int, int>, skip: set<int>,
                   x: int)
    requires Tiled(lay, mem, R) && Match(lay, mem, R, sizes, live, skip) && x in sizes
    ensures Match(lay, mem, R, sizes - {x}, live, skip + {Header(lay, x)})
  {
    forall y | y in sizes || y in live ensures Header(lay, y) == Header(lay, x) ==> y == x {
      assert y in sizes ==> Start(lay, Header(lay, y)) == y;
      assert y in live ==> Start(lay, Header(lay, y)) == y;
    }
  }

  lemma Register(lay: Layout, mem: Memory, R: seq<int>, sizes: map<int, int>, live: map<int, int>, skip: set<int>,
                 h: int)
    requires Tiled(lay, mem, R) && Match(lay, mem, R, sizes, live, skip) && IsArea(lay, R, h) && HasBlock(lay, h)
             && h in skip
    requires InMem(mem, h) && !mem[h].inuse
    ensures Match(lay, mem, R, sizes[Start(lay, h) := CELL * (Stop(lay, mem[h].next) - Start(lay, h))], live,
                  skip - {h})
    ensures Start(lay, h) !in sizes
  {
    BlockBounds(lay, mem, R, h);
  }

  function SetUse(mem: Memory, h: int, use: bool): Memory
    requires InMem(mem, h)
  {
    mem[h := mem[h].(inuse := use)]
  }

  /** setAreaFlag on an area in transit, which becomes live. */
  lemma MakeLive(lay: Layout, mem: Memory, R: seq<int>, sizes: map<int, int>, live: map<int, int>, skip: set<int>,
                 h: int)
    requires Tiled(lay, mem, R) && Match(lay, mem, R, sizes, live, skip) && IsArea(lay, R, h) && HasBlock(lay, h)
             && h in skip
    ensures InMem(mem, h)
    ensures var mem' := SetUse(mem, h, true);
            Tiled(lay, mem', R) && Match(lay, mem', R, sizes, live[Start(lay, h) := Stop(lay, mem[h].next)], skip - {h})
  {
    BlockBounds(lay, mem, R, h);
    var mem' := SetUse(mem, h, true);
    RingFrame(mem, mem', lay.A, R);
    assert R[|R| - 1] in R;
  }

  /** clrAreaFlag on a live area, which goes into transit. */
  lemma MakeDead(lay: Layout, mem: Memory, R: seq<int>, sizes: map<int, int>, live: map<int, int>, skip: set<int>,
                 x: int)
    requires Tiled(lay, mem, R) && Match(lay, mem, R, sizes, live, skip) && x in live
    ensures InMem(mem, Header(lay, x))
    ensures var mem' := SetUse(mem, Header(lay, x), false);
            Tiled(lay, mem', R) && Match(lay, mem', R, sizes, live - {x}, skip + {Header(lay, x)})
  {
    var h := Header(lay, x);
    var mem' := SetUse(mem, h, false);
    RingFrame(mem, mem', lay.A, R);
    assert R[|R| - 1] in R;
    forall y | y in sizes || y in live ensures Header(lay, y) == h ==> y == x {
      assert y in sizes ==> Start(lay, Header(lay, y)) == y;
      assert y in live ==> Start(lay, Header(lay, y)) == y;
    }
  }

  // ------------------------------------------------------- splitting and merging

  /** knl_insertAreaQue: link `e` directly after `q`; the raw store clears its flag. */
  function InsertArea(mem: Memory, q: int, e: int): Memory
    requires InMem(mem, q) && InMem(mem, e) && InMem(mem, mem[q].next)
  {
    var m1 := mem[e := Cell(mem[q].next, q, false)];
    var m2 := if InMem(m1, m1[q].next) then AssignPrev(m1, m1[q].next, e) else m1;
    SetNext(m2, q, e)
  }

  /** knl_removeAreaQue. */
  function RemoveArea(mem: Memory, e: int): Memory
    requires InMem(mem, e) && InMem(mem, mem[e].next) && InMem(mem, mem[e].prev)
  {
    var m1 := SetNext(mem, mem[e].prev, mem[e].next);
    AssignPrev(m1, m1[e].next, m1[e].prev)
  }

  /** The cells that knl_insertAreaQue changes. */
  lemma InsertAreaCells(mem: Memory, h: int, e: int)
    requires InMem(mem, h) && InMem(mem, e) && InMem(mem, mem[h].next) && h != e && mem[h].next != e && mem[h].next != h
    ensures var mem' := InsertArea(mem, h, e);
            && |mem'| == |mem| && mem'[h] == mem[h].(next := e) && mem'[e] == Cell(mem[h].next, h, false)
            && mem'[mem[h].next] == mem[mem[h].next].(prev := e)
            && (forall a {:trigger mem'[a]} :: InMem(mem, a) && a != e && a != h && a != mem[h].next ==>
                mem'[a] == mem[a])
  {
  }

  lemma InsertAreaLinks(lay: Layout, mem: Memory, R: seq<int>, h: int, k: int, e: int)
    requires Tiled(lay, mem, R) && -1 <= k < |R| - 1 && At(lay.A, R, k) == h && IsArea(lay, R, h)
    requires InMem(mem, e) && e != lay.A && e !in R
    ensures InMem(mem, h) && InMem(mem, mem[h].next) && mem[h].next == R[k + 1]
    ensures var mem' := InsertArea(mem, h, e);
            && |mem'| == |mem| && Ring(mem', lay.A, Inserted(R, k + 1, e))
            && mem'[h] == mem[h].(next := e) && mem'[e] == Cell(mem[h].next, h, false)
            && (forall a {:trigger mem'[a]} :: InMem(mem, a) && a != e ==> mem'[a].inuse == mem[a].inuse)
            && (forall a {:trigger mem'[a]} :: InMem(mem, a) && a != e && a != h ==> mem'[a].next == mem[a].next)
            && (forall a {:trigger mem'[a]} :: InMem(mem, a) && a != e && a != h && a != R[k + 1] ==> mem'[a] == mem[a])
  {
    RingAt(mem, lay.A, R, k);
    RingAt(mem, lay.A, R, k + 1);
    RingDistinct(mem, lay.A, R, k, k + 1);
    assert R[k + 1] in R;
    InsertAreaCells(mem, h, e);
    InsertAreaRing(mem, lay.A, R, k, InsertArea(mem, h, e), e);
  }

  lemma InsertAreaRing(mem: Memory, s: int, R: seq<int>, k: int, mem': Memory, e: int)
    requires Ring(mem, s, R) && -1 <= k < |R| - 1 && InMem(mem, e) && e != s && e !in R && |mem'| == |mem|
    requires var h, n := At(s, R, k), R[k + 1];
             && InMem(mem, h) && InMem(mem, n) && h != n && mem'[h] == mem[h].(next := e) && mem'[e].next == n
             && mem'[e].prev == h && mem'[n] == mem[n].(prev := e)
             && forall a {:trigger mem'[a]} :: InMem(mem, a) && a != e && a != h && a != n ==> mem'[a] == mem[a]
    ensures Ring(mem', s, Inserted(R, k + 1, e))
  {
    RingAt(mem, s, R, k + 1);
    RingInsert(mem, s, R, k + 1, e);
    RingFrame(QueInsert(mem, e, R[k + 1]), mem', s, Inserted(R, k + 1, e));
  }

  lemma SplitAreas(lay: Layout, mem: Memory, R: seq<int>, h: int, k: int, e: int)
    requires Tiled(lay, mem, R) && -1 <= k < |R| - 1 && At(lay.A, R, k) == h && IsArea(lay, R, h) && HasBlock(lay, h)
    requires InMem(mem, h) && Start(lay, h) + 2 <= e && e + 3 <= Stop(lay, mem[h].next)
    ensures e !in R && e != lay.A && e != lay.E && InMem(mem, e) && InMem(mem, mem[h].next)
    ensures Tiled(lay, InsertArea(mem, h, e), Inserted(R, k + 1, e))
  {
    BlockBounds(lay, mem, R, h);
    assert e !in R && e != lay.A by {
      if e in R || e == lay.A { NoHeaderInside(lay, mem, R, h, e); }
    }
    assert R[|R| - 1] in R;
    InsertAreaLinks(lay, mem, R, h, k, e);
    InsertedNoDup(R, k + 1, e);
    SplitGeometry(lay, mem, R, h, k, e);
    Assemble(lay, mem, InsertArea(mem, h, e), R, Inserted(R, k + 1, e), e);
  }

  lemma Assemble(lay: Layout, mem: Memory, mem': Memory, R: seq<int>, R': seq<int>, e: int)
    requires Tiled(lay, mem, R) && |mem'| == |mem| && Ring(mem', lay.A, R')
    requires R' != [] && R'[|R'| - 1] == lay.E && mem'[lay.E].inuse && (!lay.pool ==> mem'[lay.A].inuse)
    requires if lay.pool then lay.base + 2 <= Stop(lay, R'[0]) else lay.base == Stop(lay, R'[0])
    requires forall x :: x in R' ==> x == e || x in R
    requires lay.base <= e && e + 3 <= lay.limit
    requires forall i, j {:trigger Before(R', i, j)} :: Before(R', i, j) ==> R'[i] + 3 <= Stop(lay, R'[j])
    ensures Tiled(lay, mem', R')
  {
  }

  lemma SplitGeometry(lay: Layout, mem: Memory, R: seq<int>, h: int, k: int, e: int)
    requires Tiled(lay, mem, R) && -1 <= k < |R| - 1 && At(lay.A, R, k) == h && IsArea(lay, R, h) && HasBlock(lay, h)
    requires InMem(mem, h) && Start(lay, h) + 2 <= e && e + 3 <= Stop(lay, mem[h].next) && e != lay.E
             && lay.base <= Start(lay, h)
    requires mem[h].next == R[k + 1]
    ensures var R' := Inserted(R, k + 1, e);
            && (if lay.pool then lay.base + 2 <= Stop(lay, R'[0]) else lay.base == Stop(lay, R'[0]))
            && forall i, j {:trigger Before(R', i, j)} :: Before(R', i, j) ==> R'[i] + 3 <= Stop(lay, R'[j])
  {
    var R' := Inserted(R, k + 1, e);
    forall i, j | Before(R', i, j) ensures R'[i] + 3 <= Stop(lay, R'[j]) {
      if i != k + 1 && j != k + 1 {
        assert Before(R, if i <= k then i else i - 1, if j <= k then j else j - 1);
      } else if j == k + 1 {
        if i < k { assert Before(R, i, k); NoDupAt(R, k, |R| - 1); }
      } else if j > k + 2 {
        assert Before(R, k + 1, j - 1);
        NoDupAt(R, k + 1, |R| - 1);
      }
    }
  }

  /** Splitting an area in transit puts its second part in transit, too. */
  lemma SplitMatch(lay: Layout, mem: Memory, mem': Memory, R: seq<int>, R': seq<int>, sizes: map<int, int>,
                   live: map<int, int>, skip: set<int>, h: int, e: int)
    requires Tiled(lay, mem, R) && Match(lay, mem, R, sizes, live, skip) && h in skip && |mem'| == |mem|
    requires forall x :: x in R' <==> x == e || x in R
    requires e !in R && e != lay.A && e != lay.E
    requires forall a {:trigger mem'[a]} :: InMem(mem, a) && a != e ==> mem'[a].inuse == mem[a].inuse
    requires forall a {:trigger mem'[a]} :: InMem(mem, a) && a != e && a != h ==> mem'[a].next == mem[a].next
    ensures Match(lay, mem', R', sizes, live, skip + {e})
  {
    assert forall g :: IsArea(lay, R', g) <==> g == e || IsArea(lay, R, g);
  }

  /** knl_removeAreaQue on the area behind `h` joins the two. */
  lemma RemoveAreaLinks(lay: Layout, mem: Memory, R: seq<int>, h: int, k: int)
    requires Tiled(lay, mem, R) && -1 <= k < |R| - 2 && At(lay.A, R, k) == h
    ensures var e := R[k + 1];
            && InMem(mem, h) && mem[h].next == e && InMem(mem, e) && InMem(mem, mem[e].next) && InMem(mem, mem[e].prev)
            && mem[e].next == R[k + 2]
            && var mem' := RemoveArea(mem, e);
               && |mem'| == |mem| && Ring(mem', lay.A, Removed(R, k + 1))
               && mem'[h] == mem[h].(next := R[k + 2])
               && (forall a {:trigger mem'[a]} :: InMem(mem, a) ==> mem'[a].inuse == mem[a].inuse)
               && (forall a {:trigger mem'[a]} :: InMem(mem, a) && a != h ==> mem'[a].next == mem[a].next)
               && (forall a {:trigger mem'[a]} :: InMem(mem, a) && a != h && a != R[k + 2] ==> mem'[a] == mem[a])
  {
    RingAt(mem, lay.A, R, k);
    RingAt(mem, lay.A, R, k + 1);
    RingAt(mem, lay.A, R, k + 2);
    RingRemove(mem, lay.A, R, k + 1);
    RingDistinct(mem, lay.A, R, k, k + 1);
    RingDistinct(mem, lay.A, R, k, k + 2);
    RingDistinct(mem, lay.A, R, k + 1, k + 2);
    RingFrame(QueRemove(mem, R[k + 1]), RemoveArea(mem, R[k + 1]), lay.A, Removed(R, k + 1));
  }

  lemma MergeAreas(lay: Layout, mem: Memory, R: seq<int>, h: int, k: int)
    requires Tiled(lay, mem, R) && -1 <= k < |R| - 2 && At(lay.A, R, k) == h && HasBlock(lay, h) && IsArea(lay, R, h)
    ensures var e := R[k + 1]; InMem(mem, e) && InMem(mem, mem[e].next) && InMem(mem, mem[e].prev)
    ensures Tiled(lay, RemoveArea(mem, R[k + 1]), Removed(R, k + 1))
  {
    RemoveAreaLinks(lay, mem, R, h, k);
    RemovedNoDup(R, k + 1);
    assert R[|R| - 1] in R && R[k + 1] in R;
    NoDupAt(R, k + 1, |R| - 1);
    MergeGeometry(lay, mem, R, k);
    Assemble(lay, mem, RemoveArea(mem, R[k + 1]), R, Removed(R, k + 1), R[k + 1]);
  }

  lemma MergeGeometry(lay: Layout, mem: Memory, R: seq<int>, k: int)
    requires Tiled(lay, mem, R) && -1 <= k < |R| - 2 && HasBlock(lay, At(lay.A, R, k))
    ensures var R' := Removed(R, k + 1);
            && R' != [] && R'[|R'| - 1] == lay.E
            && (if lay.pool then lay.base + 2 <= Stop(lay, R'[0]) else lay.base == Stop(lay, R'[0]))
            && forall i, j {:trigger Before(R', i, j)} :: Before(R', i, j) ==> R'[i] + 3 <= Stop(lay, R'[j])
  {
    var R' := Removed(R, k + 1);
    forall i, j | Before(R', i, j) ensures R'[i] + 3 <= Stop(lay, R'[j]) {
      assert Before(R, if i <= k then i else i + 1, if j <= k then j else j + 1);
    }
    assert k == -1 ==> Before(R, 0, 1);
    NoDupAt(R, 0, |R| - 1);
  }

  /** Merging two areas in transit leaves the first in transit. */
  lemma MergeMatch(lay: Layout, mem: Memory, mem': Memory, R: seq<int>, R': seq<int>, sizes: map<int, int>,
                   live: map<int, int>, skip: set<int>, h: int, e: int)
    requires Tiled(lay, mem, R) && Match(lay, mem, R, sizes, live, skip) && h in skip && e in skip && h != e
             && |mem'| == |mem|
    requires forall x :: x in R' <==> x != e && x in R
    requires e != lay.A
    requires forall a {:trigger mem'[a]} :: InMem(mem, a) ==> mem'[a].inuse == mem[a].inuse
    requires forall a {:trigger mem'[a]} :: InMem(mem, a) && a != h ==> mem'[a].next == mem[a].next
    ensures Match(lay, mem', R', sizes, live, skip - {e})
  {
    assert forall g :: IsArea(lay, R', g) <==> g != e && IsArea(lay, R, g);
  }
}
