/** The wait ring of a variable-size memory pool (mempool.c) over the allocator. */
module MemPool {
  import opened Common
  import opened FirstCome
  import opened WaitQueue
  import opened FreeIndex
  import opened Areas
  import opened Arena

  datatype GetResult = Granted(blk: int) | Answer(er: Er) | Blocked

  /** Waiting requests are rounded sizes the pool could serve when empty. */
  ghost predicate Requests(q: seq<Waiter<int>>, mplsz: int) {
    forall w :: w in q ==> MIN_FRAGMENT <= w.arg <= mplsz && w.arg % CELL == 0
  }

  /** The first waiter's request exceeds every free area. */
  ghost predicate HeadWaits(q: seq<Waiter<int>>, sizes: map<int, int>) {
    q != [] ==> NothingFits(sizes, q[0].arg)
  }

  /** The blocks `blks` were given, in order, to the front of the line `q`: each is new,
      large enough, and no block anybody held has changed. */
  ghost predicate Handed(q: seq<Waiter<int>>, blks: seq<int>, live: map<int, int>, live': map<int, int>) {
    && |blks| <= |q| && NoDup(blks)
    && (forall i :: 0 <= i < |blks| ==> blks[i] !in live && blks[i] in live'
                                        && CELL * (live'[blks[i]] - blks[i]) >= q[i].arg)
    && (forall x :: x in live ==> x in live' && live'[x] == live[x])
    && (forall x :: x in live' ==> x in live || x in blks)
  }

  lemma HandedMore(q: seq<Waiter<int>>, blks: seq<int>, live: map<int, int>, live1: map<int, int>, live2: map<int, int>,
                   b: int)
    requires Handed(q, blks, live, live1) && |blks| < |q|
    requires b !in live1 && b in live2 && live2 == live1[b := live2[b]] && CELL * (live2[b] - b) >= q[|blks|].arg
    ensures Handed(q, blks + [b], live, live2)
  {
    var r := blks + [b];
    forall i, j | Before(r, i, j) ensures r[i] != r[j] {
      if j < |blks| { NoDupAt(blks, i, j); } else { assert blks[i] in live1; }
    }
    forall x | x in live2 ensures x in live || x in r {
      if x != b { assert x in live1; } else { assert r[|blks|] == b; }
      if x in blks { var i :| 0 <= i < |blks| && blks[i] == x; assert r[i] == x; }
    }
    assert forall x :: x in live ==> x in live1;
    forall i | 0 <= i < |r| ensures r[i] !in live && r[i] in live2 && CELL * (live2[r[i]] - r[i]) >= q[i].arg { }
  }

  /** The front of the line `q0` has left with the blocks `blks`; `q` is the rest. */
  ghost predicate Passed(q0: seq<Waiter<int>>, q: seq<Waiter<int>>, blks: seq<int>, freed: seq<(TaskId, int)>,
                         live0: map<int, int>, live: map<int, int>) {
    && |freed| == |blks| <= |q0| && q == q0[|freed|..] && Handed(q0, blks, live0, live)
    && forall i :: 0 <= i < |freed| ==> freed[i] == (q0[i].tid, blks[i])
  }

  lemma PassedMore(q0: seq<Waiter<int>>, q: seq<Waiter<int>>, blks: seq<int>, freed: seq<(TaskId, int)>,
                   live0: map<int, int>, live1: map<int, int>, live2: map<int, int>, b: int)
    requires Passed(q0, q, blks, freed, live0, live1) && q != []
    requires b !in live1 && b in live2 && live2 == live1[b := live2[b]] && CELL * (live2[b] - b) >= q[0].arg
    ensures Passed(q0, q[1..], blks + [b], freed + [(q[0].tid, b)], live0, live2)
  {
    HandedMore(q0, blks, live0, live1, live2, b);
  }

  // ------------------------------------------------------------ order of arrival

  /** What a call means for a line in order of arrival. */
  datatype Turn =
    /** tk_get_mpl that waits. */
    | Waited(t: TaskId)
    /** tk_get_mpl that gets its block at once. */
    | GotAtOnce(t: TaskId)
    /** A wait is given up, and then these tasks get their blocks. */
    | GaveUp(t: TaskId, ts: seq<TaskId>)
    /** tk_rel_mpl, and then these tasks get their blocks. */
    | Freed(ts: seq<TaskId>)

  ghost predicate LineStep(q: seq<TaskId>, q': seq<TaskId>, turn: Turn) {
    match turn
    case Waited(t) => t !in q && q' == q + [t]
    case GotAtOnce(t) => q == [] && q' == []
    case GaveUp(t, ts) => t in q && Without(q, t) == ts + q'
    case Freed(ts) => q == ts + q'
  }

  function Firsts(freed: seq<(TaskId, int)>): (r: seq<TaskId>)
    ensures |r| == |freed| && forall i :: 0 <= i < |r| ==> r[i] == freed[i].0
  {
    if freed == [] then [] else [freed[0].0] + Firsts(freed[1..])
  }

  lemma PassedTids(q0: seq<Waiter<int>>, q: seq<Waiter<int>>, blks: seq<int>, freed: seq<(TaskId, int)>,
                   live0: map<int, int>, live: map<int, int>)
    requires Passed(q0, q, blks, freed, live0, live)
    ensures Tids(q0) == Firsts(freed) + Tids(q)
  {
    TidsFrom(q0, |freed|);
    assert Firsts(freed) == Tids(q0)[..|freed|];
  }

  ghost function Events(turn: Turn): seq<Event> {
    match turn
    case Waited(t) => [Comes(t)]
    case GotAtOnce(t) => [Comes(t), Serves([t])]
    case GaveUp(t, ts) => [Quits(t), Serves(ts)]
    case Freed(ts) => [Serves(ts)]
  }

  ghost function History(turns: seq<Turn>): seq<Event> {
    if turns == [] then [] else Events(turns[0]) + History(turns[1..])
  }

  lemma TurnLeads(q: seq<TaskId>, q': seq<TaskId>, turn: Turn)
    requires LineStep(q, q', turn)
    ensures Leads(q, Events(turn), q')
  {
    match turn {
      case Waited(t) => LeadsOne(q, Comes(t));
      case GotAtOnce(t) =>
        LeadsOne(q, Comes(t));
        assert [t][1..] == [];
        LeadsOne([t], Serves([t]));
        LeadsJoin(q, [Comes(t)], [t], [Serves([t])], q');
      case GaveUp(t, ts) =>
        var r := Without(q, t);
        assert r[..|ts|] == ts && r[|ts|..] == q';
        LeadsOne(q, Quits(t));
        LeadsOne(r, Serves(ts));
        LeadsJoin(q, [Quits(t)], r, [Serves(ts)], q');
      case Freed(ts) =>
        assert q[..|ts|] == ts && q[|ts|..] == q';
        LeadsOne(q, Serves(ts));
    }
  }

  ghost predicate IsRun(qs: seq<seq<TaskId>>, turns: seq<Turn>) {
    |qs| == |turns| + 1 && forall i :: 0 <= i < |turns| ==> LineStep(qs[i], qs[i + 1], turns[i])
  }

  lemma {:induction false} RunLeads(qs: seq<seq<TaskId>>, turns: seq<Turn>)
    requires IsRun(qs, turns)
    ensures Leads(qs[0], History(turns), qs[|turns|])
    decreases |turns|
  {
    if turns != [] {
      TurnLeads(qs[0], qs[1], turns[0]);
      RunLeads(qs[1..], turns[1..]);
      LeadsJoin(qs[0], Events(turns[0]), qs[1], History(turns[1..]), qs[|turns|]);
    }
  }

  /** In a pool with TA_TFIFO, over every run, tasks get their blocks in the order in which they
      asked, but for those that gave up, however large the blocks are. */
  lemma FirstAskedFirstServed(qs: seq<seq<TaskId>>, turns: seq<Turn>)
    requires IsRun(qs, turns) && NoDup(qs[0])
    ensures Standing(qs[0], History(turns)) == Done(History(turns)) + qs[|turns|]
  {
    RunLeads(qs, turns);
    InOrder([], qs[0], History(turns), qs[|turns|]);
    assert [] + qs[0] == qs[0] && [] + Done(History(turns)) == Done(History(turns));
  }

  class Pool {
    const a: Allocator
    const tpri: bool
    const mplsz: int
    var queue: seq<Waiter<int>>

    ghost predicate Ready()
      reads this, a
    {
      && a.Valid() && a.lay.pool && mplsz == CELL * (a.lay.limit - a.lay.base)
      && Line(tpri, queue) && Requests(queue, mplsz)
    }

    /** What holds between two calls. */
    ghost predicate Valid()
      reads this, a
    {
      Ready() && HeadWaits(queue, a.ix.sizes)
    }

    /** tk_cre_mpl, once the memory of the pool is at hand. */
    constructor (a: Allocator, tpri: bool)
      requires a.Valid() && a.lay.pool
      ensures Valid() && this.a == a && queue == [] && this.tpri == tpri
    {
      this.a, this.tpri, queue := a, tpri, [];
      mplsz := CELL * (a.lay.limit - a.lay.base);
    }

    /** knl_mpl_wakeup: serve the line from its head for as long as memory lasts. */
    method MplWakeup() returns (ghost blks: seq<int>, freed: seq<(TaskId, int)>)
      requires Ready()
      modifies this`queue, a`mem, a`ix, a`R, a`live
      ensures Valid() && Passed(old(queue), queue, blks, freed, old(a.live), a.live)
      ensures Spared(old(a.mem), a.mem, old(a.live))
    {
      blks, freed := [], [];
      while queue != []
        invariant Ready() && Passed(old(queue), queue, blks, freed, old(a.live), a.live)
        invariant Spared(old(a.mem), a.mem, old(a.live))
        decreases |queue|
      {
        var top := queue[0];
        assert top in queue;
        var max := a.MaxFreeSize();
        if top.arg > max { break; }
        ghost var live1, m1 := a.live, a.mem;
        var blk := a.GetBlk(top.arg);
        SparedFewer(m1, a.mem, live1, old(a.live));
        SparedAgain(old(a.mem), m1, a.mem, old(a.live));
        PassedMore(old(queue), queue, blks, freed, old(a.live), live1, a.live, blk);
        RestReady();
        blks := blks + [blk];
        freed := freed + [(top.tid, blk)];
        queue := queue[1..];
      }
    }

    lemma RestReady()
      requires Ready() && queue != []
      ensures Line(tpri, queue[1..]) && Requests(queue[1..], mplsz)
    {
      TailLine(tpri, queue);
      assert forall w :: w in queue[1..] ==> w in queue;
    }

    /** The waiting task `t` is released by timeout or tk_rel_wai, with mpl_rel_wai. */
    method ReleaseWait(t: TaskId) returns (ghost blks: seq<int>, freed: seq<(TaskId, int)>)
      requires Valid() && Waits(queue, t)
      modifies this`queue, a`mem, a`ix, a`R, a`live
      ensures Valid() && Passed(Leave(old(queue), t), queue, blks, freed, old(a.live), a.live)
      ensures Spared(old(a.mem), a.mem, old(a.live))
      ensures LineStep(Tids(old(queue)), Tids(queue), GaveUp(t, Firsts(freed)))
    {
      LeaveLine(tpri, queue, t);
      TidsIn(queue, t);
      TidsLeave(queue, t);
      queue := Leave(queue, t);
      blks, freed := MplWakeup();
      PassedTids(Leave(old(queue), t), queue, blks, freed, old(a.live), a.live);
    }

    /** mpl_chg_pri: the priority of the waiting task `t` became `p`. */
    method MplChgPri(t: TaskId, p: int) returns (ghost blks: seq<int>, freed: seq<(TaskId, int)>)
      requires Valid() && tpri && Waits(queue, t)
      modifies this`queue, a`mem, a`ix, a`R, a`live
      ensures Valid() && Passed(Reorder(old(queue), t, p), queue, blks, freed, old(a.live), a.live)
      ensures Spared(old(a.mem), a.mem, old(a.live))
    {
      ReorderLine(queue, t, p);
      assert Find(queue, t) in queue;
      queue := Reorder(queue, t, p);
      blks, freed := MplWakeup();
    }

    /** tk_get_mpl by task `t` of priority `pri`. */
    method TkGetMpl(t: TaskId, pri: int, blksz: int, poll: bool) returns (r: GetResult)
      requires Valid() && !Waits(queue, t)
      modifies this`queue, a`mem, a`ix, a`R, a`live
      ensures Valid()
      ensures r == Answer(E_PAR) <==> !(0 < blksz <= MAX_ALLOCATE) || Rounded(blksz) > mplsz
      ensures r.Granted? <==> 0 < blksz <= MAX_ALLOCATE && Rounded(blksz) <= mplsz && Top(tpri, old(queue), pri)
                              && !NothingFits(old(a.ix.sizes), Rounded(blksz))
      ensures r.Granted? ==> queue == old(queue) && Served(old(a.ix.sizes), old(a.live), a.live, r.blk, Rounded(blksz))
      ensures r.Answer? ==> r.er in {E_PAR, E_TMOUT} && queue == old(queue) && (r.er == E_TMOUT ==> poll)
      ensures r.Blocked? ==> !poll && queue == Join(tpri, old(queue), Waiter(t, pri, Rounded(blksz)))
      ensures !r.Granted? ==> a.mem == old(a.mem) && a.live == old(a.live)
      ensures !tpri && !r.Answer? ==>
                LineStep(Tids(old(queue)), Tids(queue), if r.Blocked? then Waited(t) else GotAtOnce(t))
      ensures Spared(old(a.mem), a.mem, old(a.live))
    {
      if !(0 < blksz <= MAX_ALLOCATE) { return Answer(E_PAR); }
      RoundedProps(blksz);
      var size := Rounded(blksz);
      if size > mplsz { return Answer(E_PAR); }
      var blk := NULL;
      if Top(tpri, queue, pri) {
        blk := a.GetBlk(size);
      }
      if blk != NULL {
        assert Shrunk(old(a.ix.sizes), a.ix.sizes);
        return Granted(blk);
      }
      if poll { return Answer(E_TMOUT); }
      JoinLine(tpri, queue, Waiter(t, pri, size));
      TidsIn(queue, t);
      TidsJoin(queue, Waiter(t, pri, size));
      queue := Join(tpri, queue, Waiter(t, pri, size));
      return Blocked;
    }

    /** tk_rel_mpl of any pointer that is refused or that is the start of a used block. */
    method TkRelMpl(blk: int) returns (er: Er, ghost blks: seq<int>, freed: seq<(TaskId, int)>)
      requires Valid() && (Refused(a.lay, a.mem, blk) || blk in a.live)
      modifies this`queue, a`mem, a`ix, a`R, a`live
      ensures Valid() && er == if blk in old(a.live) then E_OK else E_PAR
      ensures er != E_OK ==> a.mem == old(a.mem) && a.live == old(a.live) && queue == old(queue)
      ensures er == E_OK ==> Passed(old(queue), queue, blks, freed, old(a.live) - {blk}, a.live)
      ensures Spared(old(a.mem), a.mem, old(a.live) - {blk})
      ensures LineStep(Tids(old(queue)), Tids(queue), Freed(Firsts(freed)))
    {
      blks, freed := [], [];
      if blk in a.live { BlockBounds(a.lay, a.mem, a.R, Header(a.lay, blk)); }
      if blk < a.lay.base || blk > a.lay.limit { return E_PAR, blks, freed; }
      er := a.RelBlk(blk);
      if er != E_OK { return; }
      ghost var m1 := a.mem;
      blks, freed := MplWakeup();
      SparedAgain(old(a.mem), m1, a.mem, old(a.live) - {blk});
      PassedTids(old(queue), queue, blks, freed, old(a.live) - {blk}, a.live);
    }
  }
}
