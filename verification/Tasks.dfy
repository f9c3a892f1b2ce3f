/**
 Task states and the links of the task control blocks (task.c, wait.c, wait.h,
 task_sync.c, task_manage.c): which ring the queue node of every task is in, and
 whether its timer event is queued.  No task holds a kernel object lock.
 */
module Tasks {
  import opened Common
  import opened ReadyQueue

  type ObjId = nat

  datatype TState = Dormant | Ready | Wait | Suspend | WaitSus

  /** What a waiting task waits for (wspec and wid). */
  datatype Why = Sleeping | Delayed | RendezvousEnd | Object(o: ObjId)

  /** Where the queue node `tskque` is linked: in a ready ring, in the wait ring of an
      object, to itself (QueInit), or nowhere: its pointers are those of a ring it left. */
  datatype Link = InReady(p: nat) | InWait(o: ObjId) | Looped | Stale

  /** The same for the timer event block. */
  datatype TimerLink = Queued | TimerLooped | TimerStale

  datatype Tcb = Tcb(state: TState, pri: nat, ipri: nat, suscnt: nat, wupcnt: nat, why: Why, timed: bool, link: Link,
                     tlink: TimerLink)

  type Table = map<TaskId, Tcb>
  type WaitRings = map<ObjId, seq<TaskId>>

  const INT_MAX := 0x7FFF_FFFF

  /** A waiting task is in the ring of its object, or looped if it waits for none, and its
      timer event is queued iff its timeout is finite. */
  predicate WaitFits(c: Tcb) {
    && c.link == (if c.why.Object? then InWait(c.why.o) else Looped)
    && c.tlink == (if c.timed then Queued else TimerLooped)
  }

  /** A task that does not wait is in no wait ring and has no timer event queued. */
  predicate FreeFits(c: Tcb) {
    (c.link == Looped || c.link == Stale) && c.tlink != Queued
  }

  /** State and links of a task agree. */
  predicate TaskFits(c: Tcb) {
    && c.pri < NUM_TSKPRI && c.ipri < NUM_TSKPRI && c.suscnt <= INT_MAX && c.wupcnt <= INT_MAX
    && (c.suscnt > 0 <==> c.state == Suspend || c.state == WaitSus)
    && match c.state
       case Dormant => FreeFits(c) && c.wupcnt == 0
       case Ready => c.link == InReady(c.pri) && c.tlink != Queued
       case Wait => WaitFits(c)
       case Suspend => FreeFits(c)
       case WaitSus => WaitFits(c)
  }

  /** The priority of a task in a wait ring. */
  function Rank(tcb: Table, t: TaskId): nat {
    if t in tcb then tcb[t].pri else 0
  }

  ghost predicate InOrder(tcb: Table, q: seq<TaskId>) {
    forall a, b {:trigger Before(q, a, b)} :: Before(q, a, b) ==> Rank(tcb, q[a]) <= Rank(tcb, q[b])
  }

  /** The wait rings of the objects `tpri` (attribute TA_TPRI) are in order of priority. */
  ghost predicate Ordered(tcb: Table, waitq: WaitRings, tpri: set<ObjId>) {
    forall o {:trigger waitq[o]} :: o in waitq && o in tpri ==> InOrder(tcb, waitq[o])
  }

  /** The rings hold exactly the tasks whose nodes say so, each once, and in order. */
  ghost predicate LinksOk(tcb: Table, rings: Rings, waitq: WaitRings, tpri: set<ObjId>) {
    && RingsOk(rings) && (forall o :: o in waitq ==> NoDup(waitq[o])) && Ordered(tcb, waitq, tpri)
    && (forall p: nat, t {:trigger t in rings[p]} :: p < NUM_TSKPRI ==>
        (t in rings[p] <==> t in tcb && tcb[t].link == InReady(p)))
    && (forall o, t {:trigger t in waitq[o]} :: o in waitq ==>
        (t in waitq[o] <==> t in tcb && tcb[t].link == InWait(o)))
    && (forall t :: t in tcb && tcb[t].link.InWait? ==> tcb[t].link.o in waitq)
    && (forall t :: t in tcb && tcb[t].link.InReady? ==> tcb[t].link.p < NUM_TSKPRI)
  }

  /** All tasks but those in `except` fit. */
  ghost predicate FitBut(tcb: Table, except: set<TaskId>) {
    forall t :: t in tcb && t !in except ==> TaskFits(tcb[t])
  }

  // -------------------------------------------------------- order of wait rings

  /** knl_queue_insert_tpri: the position before the first task of lower priority. */
  function WaitPos(tcb: Table, q: seq<TaskId>, pri: nat): (i: nat)
    ensures i <= |q| && (forall k :: 0 <= k < i ==> Rank(tcb, q[k]) <= pri) && (i < |q| ==> Rank(tcb, q[i]) > pri)
  {
    var keys := seq(|q|, k requires 0 <= k < |q| => Rank(tcb, q[k]));
    assert forall k :: 0 <= k < |q| ==> keys[k] == Rank(tcb, q[k]);
    FirstAbove(keys, pri)
  }

  /** The ring `q` once a task of priority `pri` has joined. */
  function Put(tcb: Table, q: seq<TaskId>, t: TaskId, pri: nat, tpri: bool): seq<TaskId> {
    var i := if tpri then WaitPos(tcb, q, pri) else |q|;
    q[..i] + [t] + q[i..]
  }

  lemma WaitPosSplits(tcb: Table, q: seq<TaskId>, pri: nat, k: nat)
    requires InOrder(tcb, q) && k < |q|
    ensures k < WaitPos(tcb, q, pri) <==> Rank(tcb, q[k]) <= pri
  {
    var i := WaitPos(tcb, q, pri);
    if i < k { assert Before(q, i, k); }
  }

  /** A task that is not in the ring has no part in its order. */
  lemma WaitPosFrame(tcb: Table, q: seq<TaskId>, pri: nat, t: TaskId, c: Tcb)
    requires t !in q
    ensures WaitPos(tcb[t := c], q, pri) == WaitPos(tcb, q, pri)
  {
    forall k | 0 <= k < |q| ensures Rank(tcb[t := c], q[k]) == Rank(tcb, q[k]) { assert q[k] in q; }
    var i, j := WaitPos(tcb, q, pri), WaitPos(tcb[t := c], q, pri);
  }

  /** Where a task joins a wait ring: last in order of arrival, and in order of priority behind
      all tasks of its own or a higher priority and before the others.  Nobody else moves. */
  lemma JoinPlace(tcb: Table, q: seq<TaskId>, t: TaskId, pri: nat, tpri: bool) returns (i: nat)
    requires tpri ==> InOrder(tcb, q)
    ensures i <= |q| && Put(tcb, q, t, pri, tpri) == q[..i] + [t] + q[i..] && (!tpri ==> i == |q|)
    ensures tpri ==> forall k :: 0 <= k < |q| ==> (k < i <==> Rank(tcb, q[k]) <= pri)
  {
    i := if tpri then WaitPos(tcb, q, pri) else |q|;
    if tpri {
      forall k | 0 <= k < |q| ensures k < i <==> Rank(tcb, q[k]) <= pri { WaitPosSplits(tcb, q, pri, k); }
    }
  }

  /** A ring stays in order when a task joins at its place... */
  lemma PutInOrder(tcb: Table, q: seq<TaskId>, t: TaskId)
    requires InOrder(tcb, q)
    ensures InOrder(tcb, Put(tcb, q, t, Rank(tcb, t), true))
  {
    var pri := Rank(tcb, t);
    var i := WaitPos(tcb, q, pri);
    var r := q[..i] + [t] + q[i..];
    forall a, b | Before(r, a, b) ensures Rank(tcb, r[a]) <= Rank(tcb, r[b]) {
      var a', b' := if a < i then a else a - 1, if b < i then b else b - 1;
      if a != i { WaitPosSplits(tcb, q, pri, a'); }
      if b != i { WaitPosSplits(tcb, q, pri, b'); }
      if a != i && b != i { assert Before(q, a', b'); }
    }
  }

  /** ...when one leaves... */
  lemma CutInOrder(tcb: Table, q: seq<TaskId>, t: TaskId)
    requires InOrder(tcb, q)
    ensures InOrder(tcb, Without(q, t))
  {
    if t in q {
      WithoutIs(q, t);
      var k := IndexOf(q, t);
      var r := Without(q, t);
      forall a, b | Before(r, a, b) ensures Rank(tcb, r[a]) <= Rank(tcb, r[b]) {
        assert Before(q, if a < k then a else a + 1, if b < k then b else b + 1);
      }
    }
  }

  /** ...and when a task changes that is elsewhere or keeps its priority. */
  lemma SameOrder(tcb: Table, rings: Rings, waitq: WaitRings, tpri: set<ObjId>, t: TaskId, c: Tcb)
    requires LinksOk(tcb, rings, waitq, tpri) && t in tcb && (c.pri == tcb[t].pri || !tcb[t].link.InWait?)
    ensures Ordered(tcb[t := c], waitq, tpri)
  {
    forall o | o in waitq && o in tpri ensures InOrder(tcb[t := c], waitq[o]) {
      var q := waitq[o];
      forall a, b | Before(q, a, b) ensures Rank(tcb[t := c], q[a]) <= Rank(tcb[t := c], q[b]) {
        assert q[a] in q && q[b] in q;
      }
    }
  }

  // ---------------------------------------------------------- changes of one link

  lemma LeaveReady(tcb: Table, rings: Rings, waitq: WaitRings, tpri: set<ObjId>, t: TaskId)
    requires LinksOk(tcb, rings, waitq, tpri) && t in tcb && tcb[t].link.InReady?
    ensures var p := tcb[t].link.p;
            && p < NUM_TSKPRI && t in rings[p] && (forall q: nat :: q < NUM_TSKPRI && q != p ==> t !in rings[q])
            && LinksOk(tcb[t := tcb[t].(link := Stale)], rings[p := Without(rings[p], t)], waitq, tpri)
  {
    var p := tcb[t].link.p;
    WithoutNoDup(rings[p], t);
    SameOrder(tcb, rings, waitq, tpri, t, tcb[t].(link := Stale));
  }

  lemma EnterReady(tcb: Table, rings: Rings, waitq: WaitRings, tpri: set<ObjId>, t: TaskId, p: nat)
    requires LinksOk(tcb, rings, waitq, tpri) && t in tcb && !tcb[t].link.InReady? && !tcb[t].link.InWait?
             && p < NUM_TSKPRI
    ensures t !in rings[p] && LinksOk(tcb[t := tcb[t].(link := InReady(p))], rings[p := rings[p] + [t]], waitq, tpri)
  {
    SnocNoDup(rings[p], t);
    SameOrder(tcb, rings, waitq, tpri, t, tcb[t].(link := InReady(p)));
  }

  lemma LeaveWait(tcb: Table, rings: Rings, waitq: WaitRings, tpri: set<ObjId>, t: TaskId)
    requires LinksOk(tcb, rings, waitq, tpri) && t in tcb && tcb[t].link.InWait?
    ensures var o := tcb[t].link.o;
            && o in waitq && t in waitq[o]
            && LinksOk(tcb[t := tcb[t].(link := Stale)], rings, waitq[o := Without(waitq[o], t)], tpri)
  {
    var o := tcb[t].link.o;
    var tcb' := tcb[t := tcb[t].(link := Stale)];
    WithoutNoDup(waitq[o], t);
    SameOrder(tcb, rings, waitq, tpri, t, tcb'[t]);
    if o in tpri { CutInOrder(tcb', waitq[o], t); }
    ReplacedOrder(tcb', waitq, tpri, o, Without(waitq[o], t));
  }

  lemma ReplacedOrder(tcb: Table, waitq: WaitRings, tpri: set<ObjId>, o: ObjId, q: seq<TaskId>)
    requires Ordered(tcb, waitq, tpri) && (o in tpri ==> InOrder(tcb, q))
    ensures Ordered(tcb, waitq[o := q], tpri)
  {
  }

  /** `t` joins the ring of `o`. */
  lemma EnterWait(tcb: Table, rings: Rings, waitq: WaitRings, tpri: set<ObjId>, t: TaskId, o: ObjId)
    requires LinksOk(tcb, rings, waitq, tpri) && t in tcb && !tcb[t].link.InReady? && !tcb[t].link.InWait? && o in waitq
    ensures LinksOk(tcb[t := tcb[t].(link := InWait(o))], rings,
                    waitq[o := Put(tcb, waitq[o], t, tcb[t].pri, o in tpri)], tpri)
  {
    var q := waitq[o];
    var r := Put(tcb, q, t, tcb[t].pri, o in tpri);
    var tcb' := tcb[t := tcb[t].(link := InWait(o))];
    assert t !in q;
    SameOrder(tcb, rings, waitq, tpri, t, tcb'[t]);
    if o in tpri {
      WaitPosFrame(tcb, q, tcb[t].pri, t, tcb'[t]);
      PutInOrder(tcb', q, t);
    }
    ReplacedOrder(tcb', waitq, tpri, o, r);
    PutMembers(tcb, q, t, tcb[t].pri, o in tpri);
  }

  lemma PutMembers(tcb: Table, q: seq<TaskId>, t: TaskId, pri: nat, tpri: bool)
    requires NoDup(q) && t !in q
    ensures var r := Put(tcb, q, t, pri, tpri); NoDup(r) && (forall u :: u in r <==> u == t || u in q)
  {
    var i := if tpri then WaitPos(tcb, q, pri) else |q|;
    var r := q[..i] + [t] + q[i..];
    forall a, b | Before(r, a, b) ensures r[a] != r[b] {
      if a != i && b != i { NoDupAt(q, if a < i then a else a - 1, if b < i then b else b - 1); }
    }
    forall u ensures u in r <==> u == t || u in q {
      if u in q {
        var k :| 0 <= k < |q| && q[k] == u;
        assert r[if k < i then k else k + 1] == u;
      }
      assert r[i] == t;
    }
  }

  lemma {:induction false} WithoutPut(a: seq<TaskId>, t: TaskId, b: seq<TaskId>)
    requires t !in a
    ensures Without(a + [t] + b, t) == a + b
  {
    if a == [] {
      assert a + [t] + b == [t] + b && a + b == b;
    } else {
      assert (a + [t] + b)[1..] == a[1..] + [t] + b;
      WithoutPut(a[1..], t, b);
    }
  }

  /** A change of one task that leaves its node where it is. */
  lemma SameLinks(tcb: Table, rings: Rings, waitq: WaitRings, tpri: set<ObjId>, t: TaskId, c: Tcb)
    requires LinksOk(tcb, rings, waitq, tpri) && t in tcb && c.link == tcb[t].link
    requires c.pri == tcb[t].pri || !c.link.InWait?
    ensures LinksOk(tcb[t := c], rings, waitq, tpri)
  {
    SameOrder(tcb, rings, waitq, tpri, t, c);
  }

  /** A node in no ring is looped, or stale. */
  lemma FreeLinks(tcb: Table, rings: Rings, waitq: WaitRings, tpri: set<ObjId>, t: TaskId, link: Link)
    requires LinksOk(tcb, rings, waitq, tpri) && t in tcb && !tcb[t].link.InReady? && !tcb[t].link.InWait?
    requires link == Stale || link == Looped
    ensures LinksOk(tcb[t := tcb[t].(link := link)], rings, waitq, tpri)
  {
    SameOrder(tcb, rings, waitq, tpri, t, tcb[t].(link := link));
  }

  /** `t` leaves its wait ring, gets the priority `p` and joins again. */
  lemma Repositioned(tcb: Table, rings: Rings, waitq: WaitRings, tpri: set<ObjId>, t: TaskId, p: nat)
    requires LinksOk(tcb, rings, waitq, tpri) && t in tcb && tcb[t].link.InWait? && tcb[t].link.o in tpri
    ensures var o := tcb[t].link.o;
            && o in waitq
            && var q := Without(waitq[o], t);
               && WaitPos(tcb[t := tcb[t].(pri := p)], q, p) == WaitPos(tcb, q, p)
               && LinksOk(tcb[t := tcb[t].(pri := p)], rings, waitq[o := Put(tcb, q, t, p, true)], tpri)
  {
    var c := tcb[t];
    var o := c.link.o;
    LeaveWait(tcb, rings, waitq, tpri, t);
    var q := Without(waitq[o], t);
    var d := c.(pri := p, link := Stale);
    var tcb1, w1 := tcb[t := c.(link := Stale)], waitq[o := q];
    SameLinks(tcb1, rings, w1, tpri, t, d);
    Overwrite(tcb, t, c.(link := Stale), d);
    var tcb2 := tcb[t := d];
    EnterWait(tcb2, rings, w1, tpri, t, o);
    Overwrite(tcb, t, d, c.(pri := p));
    WithoutNoDup(waitq[o], t);
    WaitPosFrame(tcb, q, p, t, d);
    WaitPosFrame(tcb, q, p, t, c.(pri := p));
    Overwrite(waitq, o, q, Put(tcb, q, t, p, true));
  }

  /** The priority of a task that waits in a ring in order of arrival, or in none. */
  lemma UnorderedLinks(tcb: Table, rings: Rings, waitq: WaitRings, tpri: set<ObjId>, t: TaskId, p: nat)
    requires LinksOk(tcb, rings, waitq, tpri) && t in tcb && (tcb[t].link.InWait? ==> tcb[t].link.o !in tpri)
    ensures LinksOk(tcb[t := tcb[t].(pri := p)], rings, waitq, tpri)
  {
    var tcb' := tcb[t := tcb[t].(pri := p)];
    forall o | o in waitq && o in tpri ensures InOrder(tcb', waitq[o]) {
      var q := waitq[o];
      forall a, b | Before(q, a, b) ensures Rank(tcb', q[a]) <= Rank(tcb', q[b]) {
        assert q[a] in q && q[b] in q;
      }
    }
  }

  lemma WaitingFits(c: Tcb, why: Why, timed: bool)
    requires TaskFits(c) && (c.state == Ready || c.state == Suspend)
    ensures TaskFits(Waiting(c, why, timed)) && (c.link == InReady(c.pri) || FreeFits(c))
  {
  }

  /** A task is in a ready ring iff it is ready, and then in that of its priority only; it
      is in a wait ring iff it waits for that object. */
  lemma StateSaysWhere(tcb: Table, rings: Rings, waitq: WaitRings, tpri: set<ObjId>, t: TaskId, p: nat, o: ObjId)
    requires LinksOk(tcb, rings, waitq, tpri) && FitBut(tcb, {}) && t in tcb && p < NUM_TSKPRI && o in waitq
    ensures t in rings[p] <==> tcb[t].state == Ready && tcb[t].pri == p
    ensures t in waitq[o] <==> (tcb[t].state == Wait || tcb[t].state == WaitSus) && tcb[t].why == Object(o)
  {
    assert TaskFits(tcb[t]);
  }

  /** The task chosen to run is ready and no ready task has a higher priority; none is
      chosen iff none is ready. */
  lemma ChosenRuns(tcb: Table, rings: Rings, waitq: WaitRings, tpri: set<ObjId>, u: TaskId)
    requires LinksOk(tcb, rings, waitq, tpri) && FitBut(tcb, {}) && u in tcb && tcb[u].state == Ready
    ensures Chosen(rings).Some?
    ensures var t := Chosen(rings).value; t in tcb && tcb[t].state == Ready && tcb[t].pri <= tcb[u].pri
  {
    var p := tcb[u].pri;
    assert TaskFits(tcb[u]) && u in rings[p];
    var i :| 0 <= i < |rings[p]| && rings[p][i] == u;
    ChosenIsBest(rings, p, i);
    var q :| 0 <= q <= p && rings[q] != [] && Chosen(rings).value == rings[q][0];
    var t := rings[q][0];
    assert t in rings[q];
    assert t in tcb && tcb[t].link == InReady(q) && TaskFits(tcb[t]);
  }

  function NewTcb(pri: nat): Tcb {
    Tcb(Dormant, pri, pri, 0, 0, Sleeping, false, Stale, TimerStale)
  }

  /** A wait is over: the task is ready, or suspended. */
  function NonWait(c: Tcb): Tcb {
    if c.state == Wait then c.(state := Ready, link := InReady(c.pri)) else c.(state := Suspend)
  }

  /** knl_make_dormant. */
  function MadeDormant(c: Tcb): Tcb {
    c.(state := Dormant, pri := c.ipri, suscnt := 0, wupcnt := 0)
  }

  /** The links of a task whose wait is cancelled. */
  function Detached(c: Tcb): Tcb {
    c.(link := if c.link.InWait? then Stale else c.link, tlink := if c.tlink == Queued then TimerStale else c.tlink)
  }

  /** A task taken out of whatever it is in. */
  function Unlinked(c: Tcb): Tcb {
    if c.state == Ready then c.(link := Stale) else if c.state == Suspend then c else Detached(c)
  }

  /** What becomes of a task `c` that waits for `why`. */
  function Waiting(c: Tcb, why: Why, timed: bool): Tcb {
    c.(state := if c.state == Ready then Wait else WaitSus, why := why, timed := timed,
       link := if why.Object? then InWait(why.o) else Looped, tlink := if timed then Queued else TimerLooped)
  }

  function Suspended(c: Tcb): Tcb {
    c.(suscnt := c.suscnt + 1, link := if c.state == Ready then Stale else c.link,
       state := if c.state == Ready then Suspend else if c.state == Wait then WaitSus else c.state)
  }

  function Resumed(c: Tcb, force: bool): Tcb {
    var d := c.(suscnt := if force || c.suscnt == 0 then 0 else c.suscnt - 1);
    if d.suscnt > 0 then d else if d.state == WaitSus then d.(state := Wait)
       else d.(state := Ready, link := InReady(d.pri))
  }

  /** A task suspended `n` times. */
  function SuspendedTimes(c: Tcb, n: nat): Tcb {
    if n == 0 then c else Suspended(SuspendedTimes(c, n - 1))
  }

  /** Suspensions nest: each resumption takes back one of them, the task stays suspended until
      the last, and a forced one takes back all at once. */
  lemma {:induction false} SuspensionsNest(c: Tcb, n: nat)
    requires TaskFits(c) && (c.state == Ready || c.state == Wait) && 0 < n
    ensures var d := SuspendedTimes(c, n);
            && d.suscnt == n && d.state == (if c.state == Ready then Suspend else WaitSus)
            && Resumed(d, false) == SuspendedTimes(c, n - 1) && Resumed(d, true) == c
  {
    if n > 1 { SuspensionsNest(c, n - 1); }
  }

  function Reprioritized(c: Tcb, p: nat): Tcb {
    c.(pri := p, link := if c.state == Ready then InReady(p) else c.link)
  }

  /** The wait rings once the priority of `t` has become `p`. */
  function Reordered(tcb: Table, waitq: WaitRings, tpri: set<ObjId>, t: TaskId, p: nat): WaitRings {
    if t in tcb && tcb[t].link.InWait? && tcb[t].link.o in tpri && tcb[t].link.o in waitq then
      var o := tcb[t].link.o;
      waitq[o := Put(tcb, Without(waitq[o], t), t, p, true)]
    else waitq
  }

  /** The ready rings once the node of `t` has gone from `was` to `now`: a task that becomes
      ready goes last in its ring. */
  function Moved(rings: Rings, t: TaskId, was: Link, now: Link): Rings {
    if was == now then rings
    else
      var r := if was.InReady? && was.p < |rings| then rings[was.p := Without(rings[was.p], t)] else rings;
      if now.InReady? && now.p < |r| then r[now.p := r[now.p] + [t]] else r
  }

  /** The wait rings once the node of `t` has left `was`. */
  function Left(waitq: WaitRings, t: TaskId, was: Link): WaitRings {
    if was.InWait? && was.o in waitq then waitq[was.o := Without(waitq[was.o], t)] else waitq
  }

  /** The wait rings once `t` waits for `why`. */
  function Joined(tcb: Table, waitq: WaitRings, tpri: set<ObjId>, t: TaskId, why: Why): WaitRings {
    if why.Object? && why.o in waitq then waitq[why.o := Put(tcb, waitq[why.o], t, Rank(tcb, t), why.o in tpri)]
       else waitq
  }

  /** A ready task after a wait: what it waited for is still noted. */
  function Waited(c: Tcb, why: Why, timed: bool): Tcb {
    c.(why := why, timed := timed, tlink := if timed then TimerStale else TimerLooped)
  }

  /** The end of a wait, seen from the task. */
  lemma ReleasedFits(c: Tcb, rings: Rings, t: TaskId)
    requires TaskFits(c) && (c.state == Wait || c.state == WaitSus)
    ensures FreeFits(Detached(c)) && Detached(c).pri == c.pri && TaskFits(NonWait(Detached(c)))
    ensures var n := NonWait(Detached(c)).link; Moved(rings, t, Detached(c).link, n) == Moved(rings, t, c.link, n)
  {
  }

  /** A wait that is over has left its traces in the links and in what was waited for alone; a
      task suspended during it comes out suspended, as if it had been so before. */
  lemma WaitLeavesRest(c: Tcb, why: Why, timed: bool)
    requires c.state == Ready || c.state == Suspend
    ensures var d := NonWait(Detached(Waiting(c, why, timed)));
            && d == c.(why := why, timed := timed, link := d.link, tlink := d.tlink)
            && (c.state == Ready ==> d.link == InReady(c.pri))
    ensures var d := NonWait(Detached(Suspended(Waiting(c, why, timed))));
            d == Suspended(c).(why := why, timed := timed, link := d.link, tlink := d.tlink) && !d.link.InReady?
  {
  }

  /** What else is known of the joining task does not matter. */
  lemma JoinedFrame(tcb: Table, rings: Rings, waitq: WaitRings, tpri: set<ObjId>, t: TaskId, why: Why, c: Tcb)
    requires LinksOk(tcb, rings, waitq, tpri) && t in tcb && !tcb[t].link.InWait? && c.pri == tcb[t].pri
    ensures Joined(tcb[t := c], waitq, tpri, t, why) == Joined(tcb, waitq, tpri, t, why)
  {
    if why.Object? && why.o in waitq {
      WaitPosFrame(tcb, waitq[why.o], c.pri, t, c);
    }
  }

  /** Leaving undoes joining. */
  lemma LeftUndoesJoined(tcb: Table, rings: Rings, waitq: WaitRings, tpri: set<ObjId>, t: TaskId, why: Why)
    requires LinksOk(tcb, rings, waitq, tpri) && t in tcb && !tcb[t].link.InWait?
    ensures Left(Joined(tcb, waitq, tpri, t, why), t, if why.Object? then InWait(why.o) else Looped) == waitq
  {
    if why.Object? && why.o in waitq {
      var q := waitq[why.o];
      var i := if why.o in tpri then WaitPos(tcb, q, tcb[t].pri) else |q|;
      assert t !in q && q[..i] + q[i..] == q;
      WithoutPut(q[..i], t, q[i..]);
      Overwrite(waitq, why.o, q[..i] + [t] + q[i..], q);
      assert waitq[why.o := q] == waitq;
    }
  }

  /** A task that is in no ring comes or goes. */
  lemma NewLinks(tcb: Table, rings: Rings, waitq: WaitRings, tpri: set<ObjId>, t: TaskId, c: Tcb)
    requires LinksOk(tcb, rings, waitq, tpri) && t !in tcb && c.link == Stale
    ensures LinksOk(tcb[t := c], rings, waitq, tpri)
  {
    OtherOrder(tcb, tcb[t := c], rings, waitq, tpri, t);
  }

  lemma GoneLinks(tcb: Table, rings: Rings, waitq: WaitRings, tpri: set<ObjId>, t: TaskId)
    requires LinksOk(tcb, rings, waitq, tpri) && t in tcb && !tcb[t].link.InReady? && !tcb[t].link.InWait?
    ensures LinksOk(tcb - {t}, rings, waitq, tpri)
  {
    OtherOrder(tcb, tcb - {t}, rings, waitq, tpri, t);
  }

  lemma OtherOrder(tcb: Table, tcb': Table, rings: Rings, waitq: WaitRings, tpri: set<ObjId>, t: TaskId)
    requires LinksOk(tcb, rings, waitq, tpri) && (t in tcb ==> !tcb[t].link.InWait?)
    requires forall u :: u != t ==> (u in tcb <==> u in tcb') && (u in tcb ==> tcb'[u] == tcb[u])
    ensures Ordered(tcb', waitq, tpri)
  {
    forall o | o in waitq && o in tpri ensures InOrder(tcb', waitq[o]) {
      var q := waitq[o];
      forall a, b | Before(q, a, b) ensures Rank(tcb', q[a]) <= Rank(tcb', q[b]) {
        assert q[a] in q && q[b] in q;
      }
    }
  }

  class TaskKernel {
    const rq: RdyQue
    var tcb: Table
    var waitq: WaitRings
    const tpri: set<ObjId>

    /** All but the tasks in `except` are in order.  (An equation, so that the verifier hands
        it on as one fact.) */
    ghost predicate ValidBut(except: set<TaskId>)
      reads this, rq
    {
      true == (rq.Valid() && LinksOk(tcb, rq.rings, waitq, tpri) && FitBut(tcb, except))
    }

    ghost predicate Valid()
      reads this, rq
    {
      ValidBut({})
    }

    constructor (objects: set<ObjId>, tpri: set<ObjId>)
      ensures Valid() && tcb == map[] && waitq.Keys == objects && fresh(rq)
    {
      rq := new RdyQue();
      tcb, waitq := map[], map o | o in objects :: [];
      this.tpri := tpri;
      new;
      assert forall p: nat :: p < NUM_TSKPRI ==> NoDup(rq.rings[p]);
    }

    // ---------------------------------------------------------- basic transitions

    /** knl_make_ready. */
    method MakeReady(t: TaskId)
      requires ValidBut({t}) && t in tcb && FreeFits(tcb[t]) && tcb[t].pri < NUM_TSKPRI
      modifies this`tcb, rq
      ensures ValidBut({t}) && tcb == old(tcb)[t := old(tcb[t]).(state := Ready, link := InReady(old(tcb[t].pri)))]
      ensures rq.rings == Moved(old(rq.rings), t, old(tcb[t].link), tcb[t].link)
    {
      var p := tcb[t].pri;
      EnterReady(tcb, rq.rings, waitq, tpri, t, p);
      SameLinks(tcb[t := tcb[t].(link := InReady(p))], rq.rings[p := rq.rings[p] + [t]], waitq, tpri, t,
                tcb[t].(state := Ready, link := InReady(p)));
      tcb := tcb[t := tcb[t].(state := Ready, link := InReady(p))];
      rq.MakeReady(t, p);
    }

    /** knl_make_non_ready: QueRemove of a node that is in the ready ring. */
    method MakeNonReady(t: TaskId)
      requires ValidBut({t}) && t in tcb && tcb[t].link == InReady(tcb[t].pri)
      modifies this`tcb, rq
      ensures ValidBut({t}) && tcb == old(tcb)[t := old(tcb[t]).(link := Stale)]
      ensures rq.rings == Moved(old(rq.rings), t, old(tcb[t].link), Stale)
    {
      LeaveReady(tcb, rq.rings, waitq, tpri, t);
      rq.MakeNonReady(t, tcb[t].pri);
      tcb := tcb[t := tcb[t].(link := Stale)];
    }

    /** QueRemove of a wait node.  It must be linked, to a ring or to itself. */
    method QueRemove(t: TaskId)
      requires ValidBut({t}) && t in tcb && (tcb[t].link.InWait? || tcb[t].link == Looped)
      modifies this`tcb, this`waitq
      ensures ValidBut({t})
      ensures tcb == old(tcb)[t := old(tcb[t]).(link := if old(tcb[t].link.InWait?) then Stale else Looped)]
      ensures waitq == Left(old(waitq), t, old(tcb[t].link))
    {
      if tcb[t].link.InWait? {
        LeaveWait(tcb, rq.rings, waitq, tpri, t);
        var o := tcb[t].link.o;
        waitq := waitq[o := Without(waitq[o], t)];
        tcb := tcb[t := tcb[t].(link := Stale)];
      }
    }

    /** knl_timer_delete: QueRemove of a timer block.  It must be linked too. */
    method TimerDelete(t: TaskId)
      requires ValidBut({t}) && t in tcb && tcb[t].tlink != TimerStale
      modifies this`tcb
      ensures ValidBut({t})
      ensures tcb == old(tcb)[t := old(tcb[t]).(tlink := if old(tcb[t].tlink) == Queued then TimerStale
                                                else TimerLooped)]
    {
      if tcb[t].tlink == Queued {
        SameLinks(tcb, rq.rings, waitq, tpri, t, tcb[t].(tlink := TimerStale));
        tcb := tcb[t := tcb[t].(tlink := TimerStale)];
      }
    }

    /** Change fields of `t` other than its links. */
    method Update(t: TaskId, c: Tcb)
      requires ValidBut({t}) && t in tcb && c.link == tcb[t].link && (c.pri == tcb[t].pri || !c.link.InWait?)
      modifies this`tcb
      ensures ValidBut({t}) && tcb == old(tcb)[t := c]
    {
      SameLinks(tcb, rq.rings, waitq, tpri, t, c);
      tcb := tcb[t := c];
    }

    lemma Fit(t: TaskId)
      requires Valid() && t in tcb
      ensures TaskFits(tcb[t]) && ValidBut({t})
    {
    }

    /** What a wait of a ready task and its end come to. */
    lemma Returns(t: TaskId, why: Why, timed: bool)
      requires Valid() && t in tcb && tcb[t].state == Ready
      ensures var c := tcb[t];
              && c.link == InReady(c.pri) && c.pri < NUM_TSKPRI && RingsOk(rq.rings) && t in rq.rings[c.pri]
              && Waiting(c, why, timed).state == Wait
              && NonWait(Detached(Waiting(c, why, timed))) == Waited(c, why, timed)
              && Left(Joined(tcb, waitq, tpri, t, why), t, Waiting(c, why, timed).link) == waitq
    {
      Fit(t);
      LeftUndoesJoined(tcb, rq.rings, waitq, tpri, t, why);
    }

    lemma Settled(t: TaskId)
      requires ValidBut({t}) && t in tcb && TaskFits(tcb[t])
      ensures Valid()
    {
    }

    /** knl_make_wait or knl_make_wait_reltim by the task `t`, and the linking behind it. */
    method MakeWait(t: TaskId, why: Why, timed: bool)
      requires Valid() && t in tcb && (tcb[t].state == Ready || tcb[t].state == Suspend)
               && (why.Object? ==> why.o in waitq)
      modifies this`tcb, this`waitq, rq
      ensures Valid() && tcb == old(tcb)[t := Waiting(old(tcb[t]), why, timed)]
      ensures waitq == Joined(old(tcb), old(waitq), tpri, t, why)
      ensures rq.rings == Moved(old(rq.rings), t, old(tcb[t].link), tcb[t].link)
    {
      ghost var c := tcb[t];
      Fit(t);
      WaitingFits(c, why, timed);
      ghost var d := Waiting(c, why, timed);
      JoinedFrame(tcb, rq.rings, waitq, tpri, t, why, d.(link := Stale));
      BeginWait(t, why, timed);
      LinkWait(t, why);
      Overwrite(old(tcb), t, d.(link := Stale), d);
      assert tcb[t] == d;
      Settled(t);
    }

    /** What knl_make_wait itself does: change the state, and the timer event. */
    method BeginWait(t: TaskId, why: Why, timed: bool)
      requires ValidBut({t}) && t in tcb && (tcb[t].link == InReady(tcb[t].pri) || FreeFits(tcb[t]))
      modifies this`tcb, rq
      ensures ValidBut({t}) && tcb == old(tcb)[t := Waiting(old(tcb[t]), why, timed).(link := Stale)]
      ensures rq.rings == Moved(old(rq.rings), t, old(tcb[t].link), Stale)
    {
      ghost var c := tcb[t];
      var d := Waiting(tcb[t], why, timed).(link := Stale);
      StopRunning(t);
      Update(t, d);
      Overwrite(old(tcb), t, c.(link := Stale), d);
    }

    /** The switch of knl_make_wait, for the queue; a suspended task is in no ring. */
    method StopRunning(t: TaskId)
      requires ValidBut({t}) && t in tcb && (tcb[t].link == InReady(tcb[t].pri) || FreeFits(tcb[t]))
      modifies this`tcb, rq
      ensures ValidBut({t}) && tcb == old(tcb)[t := old(tcb[t]).(link := Stale)]
      ensures rq.rings == Moved(old(rq.rings), t, old(tcb[t].link), Stale)
    {
      if tcb[t].link.InReady? {
        MakeNonReady(t);
      } else {
        FreeLinks(tcb, rq.rings, waitq, tpri, t, Stale);
        tcb := tcb[t := tcb[t].(link := Stale)];
      }
    }

    /** Link the node of a task that starts to wait. */
    method LinkWait(t: TaskId, why: Why)
      requires ValidBut({t}) && t in tcb && !tcb[t].link.InReady? && !tcb[t].link.InWait?
               && (why.Object? ==> why.o in waitq)
      modifies this`tcb, this`waitq
      ensures ValidBut({t}) && waitq == Joined(old(tcb), old(waitq), tpri, t, why)
      ensures tcb == old(tcb)[t := old(tcb[t]).(link := if why.Object? then InWait(why.o) else Looped)]
    {
      if why.Object? {
        QueInsertWait(t, why.o);
      } else {
        QueInit(t);
      }
    }

    /** The linking of knl_gcb_make_wait: by priority or at the end. */
    method QueInsertWait(t: TaskId, o: ObjId)
      requires ValidBut({t}) && t in tcb && !tcb[t].link.InReady? && !tcb[t].link.InWait? && o in waitq
      modifies this`tcb, this`waitq
      ensures ValidBut({t}) && tcb == old(tcb)[t := old(tcb[t]).(link := InWait(o))]
      ensures waitq == Joined(old(tcb), old(waitq), tpri, t, Object(o))
    {
      var q := waitq[o];
      var i := |q|;
      if o in tpri {
        i := SearchTpri(q, tcb[t].pri);
      }
      EnterWait(tcb, rq.rings, waitq, tpri, t, o);
      waitq := waitq[o := q[..i] + [t] + q[i..]];
      tcb := tcb[t := tcb[t].(link := InWait(o))];
    }

    /** The search of knl_queue_insert_tpri. */
    method SearchTpri(q: seq<TaskId>, pri: nat) returns (i: nat)
      requires forall u :: u in q ==> u in tcb
      ensures i == WaitPos(tcb, q, pri)
    {
      i := 0;
      while i < |q| && tcb[q[i]].pri <= pri
        invariant i <= |q| && forall k :: 0 <= k < i ==> Rank(tcb, q[k]) <= pri
      {
        i := i + 1;
      }
      ghost var j := WaitPos(tcb, q, pri);
    }

    /** knl_gcb_change_priority of a task that waits for an object with attribute TA_TPRI,
        and the change before it. */
    method Reposition(t: TaskId, p: nat)
      requires ValidBut({t}) && t in tcb && tcb[t].link.InWait? && tcb[t].link.o in tpri
      modifies this`tcb, this`waitq
      ensures ValidBut({t}) && tcb == old(tcb)[t := old(tcb[t]).(pri := p)]
      ensures var o := old(tcb[t].link.o);
              o in old(waitq) && waitq == old(waitq)[o := Put(old(tcb), Without(old(waitq)[o], t), t, p, true)]
    {
      var c := tcb[t];
      var o := c.link.o;
      LeaveWait(tcb, rq.rings, waitq, tpri, t);
      ghost var w := waitq[o := Without(waitq[o], t)];
      Repositioned(tcb, rq.rings, waitq, tpri, t, p);
      tcb := tcb[t := c.(pri := p)];
      var q := Without(waitq[o], t);
      var i := SearchTpri(q, p);
      waitq := waitq[o := q[..i] + [t] + q[i..]];
    }

    /** knl_make_non_wait. */
    method MakeNonWait(t: TaskId)
      requires ValidBut({t}) && t in tcb && (tcb[t].state == Wait || tcb[t].state == WaitSus) && FreeFits(tcb[t])
               && tcb[t].pri < NUM_TSKPRI
      modifies this`tcb, rq
      ensures ValidBut({t}) && tcb == old(tcb)[t := NonWait(old(tcb[t]))]
      ensures rq.rings == Moved(old(rq.rings), t, old(tcb[t].link), tcb[t].link)
    {
      if tcb[t].state == Wait {
        MakeReady(t);
      } else {
        Update(t, tcb[t].(state := Suspend));
      }
    }

    /** knl_wait_cancel. */
    method WaitCancel(t: TaskId)
      requires ValidBut({t}) && t in tcb && WaitFits(tcb[t])
      modifies this`tcb, this`waitq
      ensures ValidBut({t}) && tcb == old(tcb)[t := Detached(old(tcb[t]))]
              && waitq == Left(old(waitq), t, old(tcb[t].link))
    {
      TimerDelete(t);
      QueRemove(t);
      assert tcb == old(tcb)[t := tcb[t]];
    }

    /** QueInit of the queue node. */
    method QueInit(t: TaskId)
      requires ValidBut({t}) && t in tcb && !tcb[t].link.InReady? && !tcb[t].link.InWait?
      modifies this`tcb
      ensures ValidBut({t}) && tcb == old(tcb)[t := old(tcb[t]).(link := Looped)]
    {
      FreeLinks(tcb, rq.rings, waitq, tpri, t, Looped);
      tcb := tcb[t := tcb[t].(link := Looped)];
    }

    /** The branch of knl_change_task_priority for a ready task. */
    method MoveReady(t: TaskId, p: nat)
      requires ValidBut({t}) && t in tcb && tcb[t].link == InReady(tcb[t].pri) && p < NUM_TSKPRI
      modifies this`tcb, rq
      ensures ValidBut({t}) && tcb == old(tcb)[t := old(tcb[t]).(pri := p, link := InReady(p))]
      ensures rq.rings == Moved(Moved(old(rq.rings), t, old(tcb[t].link), Stale), t, Stale, InReady(p))
    {
      var c := tcb[t];
      LeaveReady(tcb, rq.rings, waitq, tpri, t);
      ghost var r := rq.rings[c.pri := Without(rq.rings[c.pri], t)];
      EnterReady(tcb[t := c.(link := Stale)], r, waitq, tpri, t, p);
      ghost var tcb1 := tcb[t := c.(link := Stale)][t := c.(link := InReady(p))];
      SameLinks(tcb1, r[p := r[p] + [t]], waitq, tpri, t, c.(pri := p, link := InReady(p)));
      assert tcb1[t := c.(pri := p, link := InReady(p))] == tcb[t := c.(pri := p, link := InReady(p))];
      rq.ChangePriority(t, c.pri, p);
      tcb := tcb[t := c.(pri := p, link := InReady(p))];
    }

    /** knl_wait_release. */
    method WaitRelease(t: TaskId)
      requires Valid() && t in tcb && (tcb[t].state == Wait || tcb[t].state == WaitSus)
      modifies this`tcb, this`waitq, rq
      ensures Valid() && tcb == old(tcb)[t := NonWait(Detached(old(tcb[t])))]
      ensures waitq == Left(old(waitq), t, old(tcb[t].link))
              && rq.rings == Moved(old(rq.rings), t, old(tcb[t].link), tcb[t].link)
    {
      Fit(t);
      ReleasedFits(tcb[t], rq.rings, t);
      WaitCancel(t);
      MakeNonWait(t);
      Overwrite(old(tcb), t, Detached(old(tcb[t])), tcb[t]);
      Settled(t);
    }

    /** The timer handler takes the event of `t` from its queue and calls
        knl_wait_release_tmout. */
    method Timeout(t: TaskId)
      requires Valid() && t in tcb && tcb[t].tlink == Queued
      modifies this`tcb, this`waitq, rq
      ensures Valid() && tcb == old(tcb)[t := NonWait(Detached(old(tcb[t])))]
      ensures waitq == Left(old(waitq), t, old(tcb[t].link))
              && rq.rings == Moved(old(rq.rings), t, old(tcb[t].link), tcb[t].link)
    {
      Fit(t);
      ReleasedFits(tcb[t], rq.rings, t);
      ghost var c := tcb[t].(tlink := TimerStale);
      Update(t, tcb[t].(tlink := TimerStale));
      QueRemove(t);
      Overwrite(old(tcb), t, c, Detached(old(tcb[t])));
      MakeNonWait(t);
      Overwrite(old(tcb), t, Detached(old(tcb[t])), tcb[t]);
      Settled(t);
    }

    // ------------------------------------------------------------- system calls

    /** tk_sus_tsk; `running` tells whether `t` is the running task, which a handler may name,
        `disabled` whether dispatching is disabled. */
    method TkSusTsk(t: TaskId, running: bool, disabled: bool) returns (er: Er)
      requires Valid()
      modifies this`tcb, rq
      ensures Valid()
      ensures er == if t !in old(tcb) then E_NOEXS else if old(tcb[t].state) == Dormant then E_OBJ
                    else if running && disabled then E_CTX
                    else if old(tcb[t].suscnt) == INT_MAX then E_QOVR else E_OK
      ensures er != E_OK ==> tcb == old(tcb) && rq.rings == old(rq.rings)
      ensures er == E_OK ==> tcb == old(tcb)[t := Suspended(old(tcb[t]))]
                             && rq.rings == Moved(old(rq.rings), t, old(tcb[t].link), tcb[t].link)
    {
      if t !in tcb { return E_NOEXS; }
      Fit(t);
      var state := tcb[t].state;
      if state == Dormant { return E_OBJ; }
      if running && disabled { return E_CTX; }
      if tcb[t].suscnt == INT_MAX { return E_QOVR; }
      ghost var c := tcb[t].(suscnt := tcb[t].suscnt + 1);
      Update(t, tcb[t].(suscnt := tcb[t].suscnt + 1));
      if state == Ready {
        MakeNonReady(t);
        Overwrite(old(tcb), t, c, tcb[t]);
        c := tcb[t];
        Update(t, tcb[t].(state := Suspend));
      } else if state == Wait {
        Update(t, tcb[t].(state := WaitSus));
      }
      Overwrite(old(tcb), t, c, tcb[t]);
      Settled(t);
      return E_OK;
    }

    /** tk_rsm_tsk, or tk_frsm_tsk if `force`. */
    method Resume(t: TaskId, force: bool) returns (er: Er)
      requires Valid()
      modifies this`tcb, rq
      ensures Valid()
      ensures er == if t !in old(tcb) then E_NOEXS else if old(tcb[t].suscnt) == 0 then E_OBJ else E_OK
      ensures er != E_OK ==> tcb == old(tcb) && rq.rings == old(rq.rings)
      ensures er == E_OK ==> tcb == old(tcb)[t := Resumed(old(tcb[t]), force)]
                             && rq.rings == Moved(old(rq.rings), t, old(tcb[t].link), tcb[t].link)
    {
      if t !in tcb { return E_NOEXS; }
      Fit(t);
      var state := tcb[t].state;
      if state != Suspend && state != WaitSus { return E_OBJ; }
      Update(t, tcb[t].(suscnt := if force then 0 else tcb[t].suscnt - 1));
      ghost var c := tcb[t];
      if tcb[t].suscnt == 0 {
        if state == Suspend {
          MakeReady(t);
        } else {
          Update(t, tcb[t].(state := Wait));
        }
      }
      Overwrite(old(tcb), t, c, tcb[t]);
      Settled(t);
      return E_OK;
    }

    /** tk_slp_tsk by `t` with timeout `tmout`: 0 is a poll, -1 waits for ever. */
    method TkSlpTsk(t: TaskId, tmout: int) returns (er: Option<Er>)
      requires Valid() && t in tcb && (tcb[t].state == Ready || tcb[t].state == Suspend)
      modifies this`tcb, this`waitq, rq
      ensures Valid() && t in tcb && waitq == old(waitq)
              && rq.rings == Moved(old(rq.rings), t, old(tcb[t].link), tcb[t].link)
      ensures var c := old(tcb[t]);
              if c.wupcnt > 0 then er == Some(E_OK) && tcb == old(tcb)[t := c.(wupcnt := c.wupcnt - 1)]
              else if tmout == 0 then er == Some(E_TMOUT) && tcb == old(tcb)
              else er == None && tcb == old(tcb)[t := Waiting(c, Sleeping, tmout != -1)]
    {
      Fit(t);
      if tcb[t].wupcnt > 0 {
        Update(t, tcb[t].(wupcnt := tcb[t].wupcnt - 1));
        Settled(t);
        return Some(E_OK);
      }
      if tmout == 0 { return Some(E_TMOUT); }
      MakeWait(t, Sleeping, tmout != -1);
      return None;
    }

    method TkWupTsk(t: TaskId) returns (er: Er)
      requires Valid()
      modifies this`tcb, this`waitq, rq
      ensures Valid() && waitq == old(waitq)
      ensures t !in old(tcb) ==> er == E_NOEXS && tcb == old(tcb) && rq.rings == old(rq.rings)
      ensures t in old(tcb) ==> t in tcb && rq.rings == Moved(old(rq.rings), t, old(tcb[t].link), tcb[t].link)
      ensures t in old(tcb) ==>
                var c := old(tcb[t]);
                if c.state == Dormant then er == E_OBJ && tcb == old(tcb)
                else if (c.state == Wait || c.state == WaitSus) && c.why == Sleeping then
                  er == E_OK && tcb == old(tcb)[t := NonWait(Detached(c))]
                else if c.wupcnt == INT_MAX then er == E_QOVR && tcb == old(tcb)
                else er == E_OK && tcb == old(tcb)[t := c.(wupcnt := c.wupcnt + 1)]
    {
      if t !in tcb { return E_NOEXS; }
      Fit(t);
      if tcb[t].state == Dormant { return E_OBJ; }
      if (tcb[t].state == Wait || tcb[t].state == WaitSus) && tcb[t].why == Sleeping {
        WaitRelease(t);
      } else if tcb[t].wupcnt == INT_MAX {
        return E_QOVR;
      } else {
        Update(t, tcb[t].(wupcnt := tcb[t].wupcnt + 1));
        Settled(t);
      }
      return E_OK;
    }

    /** tk_dly_tsk by `t`. */
    method TkDlyTsk(t: TaskId, dlytim: nat)
      requires Valid() && t in tcb && (tcb[t].state == Ready || tcb[t].state == Suspend)
      modifies this`tcb, this`waitq, rq
      ensures Valid() && t in tcb && waitq == old(waitq)
              && rq.rings == Moved(old(rq.rings), t, old(tcb[t].link), tcb[t].link)
      ensures tcb == if dlytim == 0 then old(tcb) else old(tcb)[t := Waiting(old(tcb[t]), Delayed, true)]
    {
      if dlytim > 0 {
        MakeWait(t, Delayed, true);
      }
    }

    method TkRelWai(t: TaskId) returns (er: Er)
      requires Valid()
      modifies this`tcb, this`waitq, rq
      ensures Valid()
      ensures er == if t !in old(tcb) then E_NOEXS
                    else if old(tcb[t].state) == Wait || old(tcb[t].state) == WaitSus then E_OK else E_OBJ
      ensures tcb == if er == E_OK then old(tcb)[t := NonWait(Detached(old(tcb[t])))] else old(tcb)
      ensures er == E_OK ==> waitq == Left(old(waitq), t, old(tcb[t].link))
                             && rq.rings == Moved(old(rq.rings), t, old(tcb[t].link), tcb[t].link)
      ensures er != E_OK ==> waitq == old(waitq) && rq.rings == old(rq.rings)
    {
      if t !in tcb { return E_NOEXS; }
      if tcb[t].state != Wait && tcb[t].state != WaitSus { return E_OBJ; }
      WaitRelease(t);
      return E_OK;
    }

    method TkStaTsk(t: TaskId) returns (er: Er)
      requires Valid()
      modifies this`tcb, rq
      ensures Valid()
      ensures er == if t !in old(tcb) then E_NOEXS else if old(tcb[t].state) == Dormant then E_OK else E_OBJ
      ensures tcb == if er == E_OK then old(tcb)[t := old(tcb[t]).(state := Ready, link := InReady(old(tcb[t].pri)))]
              else old(tcb)
      ensures rq.rings == if er == E_OK then Moved(old(rq.rings), t, old(tcb[t].link), tcb[t].link) else old(rq.rings)
    {
      if t !in tcb { return E_NOEXS; }
      if tcb[t].state != Dormant { return E_OBJ; }
      Fit(t);
      MakeReady(t);
      Settled(t);
      return E_OK;
    }

    /** knl_ter_tsk and knl_make_dormant: what tk_ter_tsk and tk_ext_tsk do to the task. */
    method Terminate(t: TaskId) returns (er: Er)
      requires Valid()
      modifies this`tcb, this`waitq, rq
      ensures Valid()
      ensures er == if t !in old(tcb) then E_NOEXS else if old(tcb[t].state) == Dormant then E_OBJ else E_OK
      ensures er != E_OK ==> tcb == old(tcb) && waitq == old(waitq) && rq.rings == old(rq.rings)
      ensures er == E_OK ==> tcb == old(tcb)[t := MadeDormant(Unlinked(old(tcb[t])))]
      ensures er == E_OK ==> waitq == Left(old(waitq), t, old(tcb[t].link))
                             && rq.rings == Moved(old(rq.rings), t, old(tcb[t].link), Stale)
    {
      if t !in tcb { return E_NOEXS; }
      Fit(t);
      if tcb[t].state == Dormant { return E_OBJ; }
      if tcb[t].state == Ready {
        MakeNonReady(t);
      } else if tcb[t].state == Wait || tcb[t].state == WaitSus {
        WaitCancel(t);
      }
      assert tcb == old(tcb)[t := Unlinked(old(tcb[t]))];
      Update(t, MadeDormant(tcb[t]));
      Overwrite(old(tcb), t, Unlinked(old(tcb[t])), tcb[t]);
      Settled(t);
      return E_OK;
    }

    /** tk_cre_tsk with attributes it accepts; `slot` is the first free control block, if any. */
    method TkCreTsk(slot: Option<TaskId>, pri: nat) returns (er: Er)
      requires Valid() && (slot.Some? ==> slot.value !in tcb) && pri < NUM_TSKPRI
      modifies this`tcb
      ensures Valid() && er == if slot.None? then E_LIMIT else E_OK
      ensures tcb == if slot.None? then old(tcb) else old(tcb)[slot.value := NewTcb(pri)]
      ensures slot.Some? ==> var c := NewTcb(pri); c.state == Dormant && c.pri == pri == c.ipri
    {
      if slot.None? { return E_LIMIT; }
      NewLinks(tcb, rq.rings, waitq, tpri, slot.value, NewTcb(pri));
      tcb := tcb[slot.value := NewTcb(pri)];
      return E_OK;
    }

    method TkDelTsk(t: TaskId) returns (er: Er)
      requires Valid()
      modifies this`tcb
      ensures Valid() && er == if t !in old(tcb) then E_NOEXS else if old(tcb[t].state) != Dormant then E_OBJ else E_OK
      ensures tcb == if er == E_OK then old(tcb) - {t} else old(tcb)
    {
      if t !in tcb { return E_NOEXS; }
      if tcb[t].state != Dormant { return E_OBJ; }
      Fit(t);
      GoneLinks(tcb, rq.rings, waitq, tpri, t);
      tcb := tcb - {t};
      return E_OK;
    }

    /** knl_change_task_priority, with the reordering of a priority-ordered wait ring. */
    method ChangeTaskPriority(t: TaskId, p: nat)
      requires Valid() && t in tcb && p < NUM_TSKPRI
      modifies this`tcb, this`waitq, rq
      ensures Valid() && tcb == old(tcb)[t := Reprioritized(old(tcb[t]), p)]
      ensures rq.rings == if old(tcb[t].state) == Ready
              then Moved(Moved(old(rq.rings), t, old(tcb[t].link), Stale), t, Stale, InReady(p)) else old(rq.rings)
      ensures waitq == Reordered(old(tcb), old(waitq), tpri, t, p)
    {
      Fit(t);
      if tcb[t].state == Ready {
        MoveReady(t, p);
      } else if tcb[t].link.InWait? && tcb[t].link.o in tpri {
        Reposition(t, p);
      } else {
        ChangeOnly(t, p);
      }
      assert TaskFits(tcb[t]);
      Settled(t);
    }

    /** The change where no ring is in order of priority. */
    method ChangeOnly(t: TaskId, p: nat)
      requires ValidBut({t}) && t in tcb && !tcb[t].link.InReady? && (tcb[t].link.InWait? ==> tcb[t].link.o !in tpri)
      modifies this`tcb
      ensures ValidBut({t}) && tcb == old(tcb)[t := old(tcb[t]).(pri := p)]
    {
      UnorderedLinks(tcb, rq.rings, waitq, tpri, t, p);
      tcb := tcb[t := tcb[t].(pri := p)];
    }
  }

  /** Resuming undoes suspending, in whatever state and however often suspended the task is,
      but for its place in the ready ring: a ready task goes last in it.  So everything is as
      it was exactly if the task was not ready or was last. */
  method ResumeUndoesSuspend(k: TaskKernel, t: TaskId) returns (er: Er)
    requires k.Valid()
    modifies k, k.rq
    ensures k.Valid() && k.tcb == old(k.tcb) && k.waitq == old(k.waitq)
    ensures er == E_OK ==> t in old(k.tcb)
    ensures er == E_OK && old(k.tcb[t].state) == Ready ==>
              var p := old(k.tcb[t].pri);
              && p < NUM_TSKPRI == |old(k.rq.rings)|
              && k.rq.rings == old(k.rq.rings)[p := Without(old(k.rq.rings)[p], t) + [t]]
              && old(k.rq.rings)[p] != [] && (k.rq.rings == old(k.rq.rings) <==>
                                              old(k.rq.rings)[p][|old(k.rq.rings)[p]| - 1] == t)
    ensures er == E_OK && old(k.tcb[t].state) != Ready ==> k.rq.rings == old(k.rq.rings)
    ensures er != E_OK ==> k.rq.rings == old(k.rq.rings)
  {
    er := k.TkSusTsk(t, false, false);
    if er == E_OK {
      ghost var c, c1, r1 := old(k.tcb[t]), k.tcb[t], k.rq.rings;
      WasFit(old(k.tcb), t);
      er := k.Resume(t, false);
      Overwrite(old(k.tcb), t, c1, k.tcb[t]);
      assert k.tcb[t] == c;
      if c.state == Ready {
        LastInRing(old(k.rq.rings), t, c.pri, Stale, r1, k.rq.rings);
      }
    }
  }

  lemma LastInRing(r0: Rings, t: TaskId, p: nat, away: Link, r1: Rings, r2: Rings)
    requires RingsOk(r0) && p < NUM_TSKPRI && t in r0[p] && !away.InReady?
    requires r1 == Moved(r0, t, InReady(p), away) && r2 == Moved(r1, t, away, InReady(p))
    ensures r2 == r0[p := Without(r0[p], t) + [t]] && (r2 == r0 <==> r0[p][|r0[p]| - 1] == t)
  {
    var q := r0[p];
    var n := |q| - 1;
    if q[n] == t {
      assert q == q[..n] + [t];
      assert t !in q[..n] by {
        forall i | 0 <= i < n ensures q[i] != t { NoDupAt(q, i, n); }
      }
      WithoutSnoc(q[..n], t, t);
    } else {
      assert r2[p][n] == t;
    }
  }

  lemma WasFit(tcb: Table, t: TaskId)
    requires FitBut(tcb, {}) && t in tcb
    ensures TaskFits(tcb[t])
  {
  }

  /** A wait of a ready task that is released, whoever else waits there, leaves the wait rings
      as they were and the task last in its ready ring. */
  method ReleaseUndoesWait(k: TaskKernel, t: TaskId, why: Why, timed: bool)
    requires k.Valid() && t in k.tcb && k.tcb[t].state == Ready && (why.Object? ==> why.o in k.waitq)
    modifies k, k.rq
    ensures k.Valid() && k.waitq == old(k.waitq) && k.tcb == old(k.tcb)[t := Waited(old(k.tcb[t]), why, timed)]
    ensures var p := old(k.tcb[t].pri);
            p < NUM_TSKPRI == |old(k.rq.rings)|
              && k.rq.rings == old(k.rq.rings)[p := Without(old(k.rq.rings)[p], t) + [t]]
  {
    ghost var c := k.tcb[t];
    k.Returns(t, why, timed);
    k.MakeWait(t, why, timed);
    ghost var r1 := k.rq.rings;
    k.WaitRelease(t);
    Overwrite(old(k.tcb), t, Waiting(c, why, timed), Waited(c, why, timed));
    LastInRing(old(k.rq.rings), t, c.pri, Waiting(c, why, timed).link, r1, k.rq.rings);
  }

  /** A sleep that is ended by a wakeup leaves the task ready as before but last in its ring,
      and no wakeup pending. */
  method WakeupEndsSleep(k: TaskKernel, t: TaskId)
    requires k.Valid() && t in k.tcb && k.tcb[t].state == Ready && k.tcb[t].wupcnt == 0
    modifies k, k.rq
    ensures k.Valid() && k.waitq == old(k.waitq) && k.tcb == old(k.tcb)[t := Waited(old(k.tcb[t]), Sleeping, false)]
    ensures var p := old(k.tcb[t].pri);
            p < NUM_TSKPRI == |old(k.rq.rings)|
              && k.rq.rings == old(k.rq.rings)[p := Without(old(k.rq.rings)[p], t) + [t]]
  {
    ghost var c := k.tcb[t];
    k.Returns(t, Sleeping, false);
    var r := k.TkSlpTsk(t, -1);
    ghost var r1 := k.rq.rings;
    var er := k.TkWupTsk(t);
    Overwrite(old(k.tcb), t, Waiting(c, Sleeping, false), Waited(c, Sleeping, false));
    LastInRing(old(k.rq.rings), t, c.pri, Looped, r1, k.rq.rings);
  }

  /** A wakeup that comes before the sleep is not lost: the sleep ends at once, and all is as
      before. */
  method WakeupBeforeSleep(k: TaskKernel, t: TaskId, tmout: int) returns (r: Option<Er>)
    requires k.Valid() && t in k.tcb && k.tcb[t].state == Ready && k.tcb[t].wupcnt < INT_MAX
    modifies k, k.rq
    ensures k.Valid() && r == Some(E_OK)
    ensures k.tcb == old(k.tcb) && k.waitq == old(k.waitq) && k.rq.rings == old(k.rq.rings)
  {
    ghost var c := k.tcb[t];
    var er := k.TkWupTsk(t);
    r := k.TkSlpTsk(t, tmout);
    Overwrite(old(k.tcb), t, c.(wupcnt := c.wupcnt + 1), c);
  }

  /** A task that is terminated in whatever state and started again has its initial priority,
      no suspension and no wakeup left from before, waits nowhere and is last in its ready ring. */
  method RestartIsFresh(k: TaskKernel, t: TaskId)
    requires k.Valid() && t in k.tcb && k.tcb[t].state != Dormant
    modifies k, k.rq
    ensures k.Valid() && t in k.tcb && k.tcb == old(k.tcb)[t := k.tcb[t]]
    ensures var c := k.tcb[t];
            && c.state == Ready && c.pri == c.ipri == old(k.tcb[t].ipri) && c.suscnt == 0 && c.wupcnt == 0
            && c.link == InReady(c.ipri) && c.tlink != Queued && c.ipri < |k.rq.rings|
            && k.rq.rings[c.ipri] != [] && k.rq.rings[c.ipri][|k.rq.rings[c.ipri]| - 1] == t
    ensures forall o :: o in k.waitq ==> t !in k.waitq[o]
  {
    ghost var c := k.tcb[t];
    var er := k.Terminate(t);
    ghost var d, r1 := k.tcb[t], k.rq.rings;
    er := k.TkStaTsk(t);
    Overwrite(old(k.tcb), t, d, k.tcb[t]);
    JustStarted(k.tcb, k.rq.rings, k.waitq, k.tpri, t, r1, d.link);
  }

  lemma JustStarted(tcb: Table, rings: Rings, waitq: WaitRings, tpri: set<ObjId>, t: TaskId, r1: Rings, was: Link)
    requires LinksOk(tcb, rings, waitq, tpri) && FitBut(tcb, {}) && t in tcb && tcb[t].state == Ready
    requires rings == Moved(r1, t, was, tcb[t].link) && !was.InReady?
    ensures var c := tcb[t];
            && c.link == InReady(c.pri) && c.tlink != Queued && c.suscnt == 0 && c.pri < |rings|
            && rings[c.pri] != [] && rings[c.pri][|rings[c.pri]| - 1] == t
    ensures forall o :: o in waitq ==> t !in waitq[o]
  {
    assert TaskFits(tcb[t]);
  }
}
