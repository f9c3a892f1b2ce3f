/**
 Doubly linked rings in memory (include/sys/queue.h) and the sequences they
 stand for.  Memory is a sequence of cells, one per QUEUE; an address is an index.
 */
module Rings {
  import opened Common

  /** One QUEUE, or eight bytes of a block.  `prev` is its second word without bit 0, which is
      `inuse`: in the header of an area the flag AREA_USE, elsewhere part of what is there. */
  datatype Cell = Cell(next: int, prev: int, inuse: bool)

  type Memory = seq<Cell>

  predicate InMem(mem: Memory, a: int) {
    0 <= a < |mem|
  }

  function SetNext(mem: Memory, a: int, v: int): Memory
    requires InMem(mem, a)
  {
    mem[a := mem[a].(next := v)]
  }

  /** A plain store of an aligned pointer or of a size, whose bit 0 is clear. */
  function SetPrev(mem: Memory, a: int, v: int): Memory
    requires InMem(mem, a)
  {
    mem[a := mem[a].(prev := v, inuse := false)]
  }

  /** A store of the whole word that `b` holds. */
  function CopyPrev(mem: Memory, a: int, b: int): Memory
    requires InMem(mem, a) && InMem(mem, b)
  {
    mem[a := mem[a].(prev := mem[b].prev, inuse := mem[b].inuse)]
  }

  /** The macro Assign: a store that keeps bit 0. */
  function AssignPrev(mem: Memory, a: int, v: int): Memory
    requires InMem(mem, a)
  {
    mem[a := mem[a].(prev := v)]
  }

  // --------------------------------------------------------------- operations

  /** QueInit. */
  function QueInit(mem: Memory, q: int): Memory
    requires InMem(mem, q)
  {
    mem[q := Cell(q, q, false)]
  }

  /** QueInsert: link `e` directly before `q`. */
  function QueInsert(mem: Memory, e: int, q: int): Memory
    requires InMem(mem, e) && InMem(mem, q) && InMem(mem, mem[q].prev)
  {
    var p := mem[q].prev;
    SetPrev(SetNext(SetNext(CopyPrev(mem, e, q), e, q), p, e), q, e)
  }

  /** QueRemove: unlink `e`; nothing happens if it is linked to itself. */
  function QueRemove(mem: Memory, e: int): Memory
    requires InMem(mem, e) && InMem(mem, mem[e].next) && InMem(mem, mem[e].prev)
  {
    if mem[e].next == e then mem
    else
      var m1 := SetNext(mem, mem[e].prev, mem[e].next);
      CopyPrev(m1, mem[e].next, e)
  }

  // ------------------------------------------------------------ what is a ring

  /** Position `k` of the ring with sentinel `s`; both ends meet at the sentinel. */
  function At(s: int, ring: seq<int>, k: int): int {
    if 0 <= k < |ring| then ring[k] else s
  }

  /** `k` and `k + 1` are neighbouring positions (sentinel included). */
  predicate Slot(ring: seq<int>, k: int) {
    -1 <= k < |ring|
  }

  predicate Joined(mem: Memory, a: int, b: int) {
    InMem(mem, a) && InMem(mem, b) && mem[a].next == b && mem[b].prev == a
  }

  /** In memory, the sentinel `s` and the cells of `ring` form a doubly linked ring. */
  ghost predicate Ring(mem: Memory, s: int, ring: seq<int>) {
    && InMem(mem, s) && s !in ring && NoDup(ring)
    && (forall k {:trigger Slot(ring, k)} :: Slot(ring, k) ==> Joined(mem, At(s, ring, k), At(s, ring, k + 1)))
  }

  /** The two neighbours of position `k`. */
  lemma RingAt(mem: Memory, s: int, ring: seq<int>, k: int)
    requires Ring(mem, s, ring) && -1 <= k <= |ring|
    ensures InMem(mem, At(s, ring, k))
    ensures k < |ring| ==> mem[At(s, ring, k)].next == At(s, ring, k + 1)
    ensures 0 <= k ==> mem[At(s, ring, k)].prev == At(s, ring, k - 1)
    ensures mem[s].next == At(s, ring, 0) && mem[s].prev == At(s, ring, |ring| - 1)
  {
    assert Slot(ring, k) || k == |ring|;
    assert k >= 0 ==> Slot(ring, k - 1);
    assert Slot(ring, -1) && Slot(ring, |ring| - 1);
  }

  /** Distinct positions hold distinct cells. */
  lemma RingDistinct(mem: Memory, s: int, ring: seq<int>, i: int, j: int)
    requires Ring(mem, s, ring) && -1 <= i < |ring| && -1 <= j < |ring| && i != j
    ensures At(s, ring, i) != At(s, ring, j)
  {
    if 0 <= i && 0 <= j {
      NoDupAt(ring, i, j);
    } else {
      assert 0 <= i ==> ring[i] in ring;
      assert 0 <= j ==> ring[j] in ring;
    }
  }

  /** A ring depends only on the links of its own cells. */
  lemma RingFrame(mem: Memory, mem': Memory, s: int, ring: seq<int>)
    requires Ring(mem, s, ring) && |mem'| == |mem|
    requires forall a :: InMem(mem, a) && (a == s || a in ring) ==>
             mem'[a].next == mem[a].next && mem'[a].prev == mem[a].prev
    ensures Ring(mem', s, ring)
  {
    forall k | Slot(ring, k) ensures Joined(mem', At(s, ring, k), At(s, ring, k + 1)) {
      assert Joined(mem, At(s, ring, k), At(s, ring, k + 1));
      assert 0 <= k < |ring| ==> ring[k] in ring;
      assert 0 <= k + 1 < |ring| ==> ring[k + 1] in ring;
    }
  }

  // ------------------------------------------------------ insertion, removal

  function Inserted(ring: seq<int>, i: int, e: int): seq<int>
    requires 0 <= i <= |ring|
  {
    ring[..i] + [e] + ring[i..]
  }

  function Removed(ring: seq<int>, i: int): seq<int>
    requires 0 <= i < |ring|
  {
    ring[..i] + ring[i + 1..]
  }

  lemma InsertedNoDup(ring: seq<int>, i: int, e: int)
    requires 0 <= i <= |ring| && NoDup(ring) && e !in ring
    ensures NoDup(Inserted(ring, i, e))
    ensures forall x :: x in Inserted(ring, i, e) <==> x == e || x in ring
  {
    var r := Inserted(ring, i, e);
    forall a, b | Before(r, a, b) ensures r[a] != r[b] {
      if a != i && b != i {
        NoDupAt(ring, if a < i then a else a - 1, if b < i then b else b - 1);
      }
    }
    assert r[i] == e;
    forall x | x in ring ensures x in r {
      var k :| 0 <= k < |ring| && ring[k] == x;
      assert r[if k < i then k else k + 1] == x;
    }
  }

  lemma RemovedNoDup(ring: seq<int>, i: int)
    requires 0 <= i < |ring| && NoDup(ring)
    ensures NoDup(Removed(ring, i))
    ensures forall x :: x in Removed(ring, i) <==> x != ring[i] && x in ring
  {
    var r := Removed(ring, i);
    forall a, b | Before(r, a, b) ensures r[a] != r[b] {
      NoDupAt(ring, if a < i then a else a + 1, if b < i then b else b + 1);
    }
    forall x | x in r ensures x != ring[i] {
      var k :| 0 <= k < |r| && r[k] == x;
      NoDupAt(ring, if k < i then k else k + 1, i);
    }
    forall x | x in ring && x != ring[i] ensures x in r {
      var k :| 0 <= k < |ring| && ring[k] == x;
      assert r[if k < i then k else k - 1] == x;
    }
  }

  /** QueInsert before position `i` inserts into the sequence, and touches no cell
      but the new one and its two neighbours. */
  lemma RingInsert(mem: Memory, s: int, ring: seq<int>, i: int, e: int)
    requires Ring(mem, s, ring) && 0 <= i <= |ring| && InMem(mem, e) && e != s && e !in ring
    ensures InMem(mem, At(s, ring, i)) && InMem(mem, mem[At(s, ring, i)].prev)
    ensures Ring(QueInsert(mem, e, At(s, ring, i)), s, Inserted(ring, i, e))
  {
    RingAt(mem, s, ring, i);
    RingAt(mem, s, ring, i - 1);
    InsertedNoDup(ring, i, e);
    var r := Inserted(ring, i, e);
    var mem' := QueInsert(mem, e, At(s, ring, i));
    forall k | Slot(r, k) ensures Joined(mem', At(s, r, k), At(s, r, k + 1)) {
      if k < i - 1 {
        assert Slot(ring, k);
        RingDistinct(mem, s, ring, k, i - 1);
        if i < |ring| { RingDistinct(mem, s, ring, k + 1, i); }
      } else if k > i {
        assert Slot(ring, k - 1);
        RingDistinct(mem, s, ring, k - 1, i - 1);
        if k < |ring| { RingDistinct(mem, s, ring, k, i); }
      }
    }
  }

  /** QueRemove of position `i` removes from the sequence. */
  lemma RingRemove(mem: Memory, s: int, ring: seq<int>, i: int)
    requires Ring(mem, s, ring) && 0 <= i < |ring|
    ensures var e := ring[i]; InMem(mem, e) && InMem(mem, mem[e].next) && InMem(mem, mem[e].prev) && mem[e].next != e
    ensures Ring(QueRemove(mem, ring[i]), s, Removed(ring, i))
  {
    RingAt(mem, s, ring, i);
    RingAt(mem, s, ring, i + 1);
    RingAt(mem, s, ring, i - 1);
    RemovedNoDup(ring, i);
    var e := ring[i];
    var r := Removed(ring, i);
    assert mem[e].next != e by {
      if i + 1 < |ring| { NoDupAt(ring, i, i + 1); }
    }
    var mem' := QueRemove(mem, e);
    forall k | Slot(r, k) ensures Joined(mem', At(s, r, k), At(s, r, k + 1)) {
      if k < i - 1 {
        assert Slot(ring, k);
        RingDistinct(mem, s, ring, k, i - 1);
        if i + 1 < |ring| { RingDistinct(mem, s, ring, k + 1, i + 1); }
      } else if k > i - 1 {
        assert Slot(ring, k + 1);
        RingDistinct(mem, s, ring, k + 1, i - 1);
        if k + 2 < |ring| { RingDistinct(mem, s, ring, k + 2, i + 1); }
      }
    }
  }

  /** No flag has been set that was not. */
  ghost predicate OnlyClears(mem: Memory, mem': Memory) {
    |mem'| == |mem| && forall a {:trigger mem'[a]} :: InMem(mem, a) ==> (mem'[a].inuse ==> mem[a].inuse)
  }

  /** The flags of the ring are clear. */
  ghost predicate ClearRing(mem: Memory, s: int, ring: seq<int>) {
    forall a :: InMem(mem, a) && (a == s || a in ring) ==> !mem[a].inuse
  }

  /** What QueInsert and QueRemove leave alone: cells outside the ring. */
  ghost predicate OnlyRing(mem: Memory, mem': Memory, s: int, ring: seq<int>, e: int) {
    && |mem'| == |mem|
    && (forall a {:trigger mem'[a]} :: InMem(mem, a) && a != e && a !in ring && a != s ==> mem'[a] == mem[a])
  }

  /** In a ring without flags QueInsert leaves none, the new cell included. */
  lemma InsertOnlyRing(mem: Memory, s: int, ring: seq<int>, i: int, e: int)
    requires Ring(mem, s, ring) && 0 <= i <= |ring| && InMem(mem, e)
    ensures InMem(mem, At(s, ring, i)) && InMem(mem, mem[At(s, ring, i)].prev)
    ensures var mem' := QueInsert(mem, e, At(s, ring, i));
            && OnlyRing(mem, mem', s, ring, e)
            && (ClearRing(mem, s, ring) ==> OnlyClears(mem, mem') && !mem'[e].inuse)
  {
    RingAt(mem, s, ring, i);
    RingAt(mem, s, ring, i - 1);
    var q, p := At(s, ring, i), At(s, ring, i - 1);
    assert (q == s || q in ring) && (p == s || p in ring);
  }

  lemma RemoveOnlyRing(mem: Memory, s: int, ring: seq<int>, i: int)
    requires Ring(mem, s, ring) && 0 <= i < |ring|
    ensures var e := ring[i]; InMem(mem, e) && InMem(mem, mem[e].next) && InMem(mem, mem[e].prev)
    ensures var mem' := QueRemove(mem, ring[i]);
            OnlyRing(mem, mem', s, ring, ring[i]) && (ClearRing(mem, s, ring) ==> OnlyClears(mem, mem'))
  {
    RingAt(mem, s, ring, i);
    RingAt(mem, s, ring, i + 1);
    RingAt(mem, s, ring, i - 1);
    var n, p := At(s, ring, i + 1), At(s, ring, i - 1);
    assert (n == s || n in ring) && (p == s || p in ring);
  }
}
