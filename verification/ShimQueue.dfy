/**
 The FreeRTOS-style queue of the shim (shim_queue.c): a ring buffer changed with
 interrupts disabled, and two semaphores that only notify.  Any number of tasks
 and interrupt handlers send, overwrite, receive and peek, in any interleaving of
 their atomic steps; the semaphores are those of module Semaphore.
 */
module ShimQueue {
  import opened Common
  import opened WaitQueue
  import opened Semaphore
  import opened ShimRing

  /** The two notifications: `nonempty` tells of items, `nonfull` of room. */
  datatype Side = Items | Room

  /** The copy position of a send. */
  datatype Position = ToBack | ToFront | Over

  datatype Op<T> = Receive | Peek | Send(x: T, pos: Position)

  /** An attempt that never blocks, a first attempt of a call that may block, and an
      attempt after a notification was consumed for it. */
  datatype How = Once | Fresh | Woken

  /** Where a thread is: outside, about to try its operation on the ring, about to
      wait, blocked, about to signal. */
  datatype Place<T> =
    | Idle
    | Try(op: Op<T>, how: How)
    | Ask(op: Op<T>)
    | Sleep(op: Op<T>)
    | Tell(side: Side)

  type Places<T> = map<TaskId, Place<T>>

  function WaitsFor<T>(op: Op<T>): Side { if op.Send? then Room else Items }

  predicate Sleeps<T>(side: Side, p: Place<T>) { p.Sleep? && WaitsFor(p.op) == side }
  predicate Released<T>(side: Side, p: Place<T>) { p.Try? && p.how == Woken && WaitsFor(p.op) == side }
  predicate Tells<T>(side: Side, p: Place<T>) { p == Tell(side) }

  /** `accepted` and `gone` log the items accepted and the items received or dropped. */
  datatype Queue<T> = Queue(ring: Ring<T>, items: Sem, room: Sem, pc: Places<T>, accepted: seq<T>, gone: seq<T>)

  /** queue_init for a queue of length `len`. */
  ghost function Created<T>(data: seq<T>, threads: set<TaskId>): Queue<T> {
    var len := |data|;
    Queue(Ring(data, 0, 0), Sem(0, len, false, false, []), Sem(len, len, false, false, []),
          map t | t in threads :: Idle, [], [])
  }

  datatype Step<T> =
    | Begin(t: TaskId, op: Op<T>, block: bool)
    | Attempt(t: TaskId)
    | WaitSem(t: TaskId, pri: int, poll: bool)
    | GiveUp(t: TaskId)
    | Notify(t: TaskId)

  /** Interrupt handlers are threads that never block; overwriting never blocks. */
  ghost predicate Enabled<T(!new)>(s: Queue<T>, a: Step<T>) {
    && a.t in s.pc
    && match a
       case Begin(t, op, block) => s.pc[t] == Idle && (op.Send? && op.pos == Over ==> !block)
       case Attempt(t) => s.pc[t].Try? && RingOk(s.ring)
       case WaitSem(t, _, _) => s.pc[t].Ask?
       case GiveUp(t) => s.pc[t].Sleep?
       case Notify(t) => s.pc[t].Tell?
  }

  /** A released task goes round its loop. */
  ghost function Wake<T>(pc: Places<T>, freed: Asks): Places<T>
    decreases |freed|
  {
    if freed == [] then pc
    else
      var t := freed[0].tid;
      Wake(if t in pc && pc[t].Sleep? then pc[t := Try(pc[t].op, Woken)] else pc, freed[1..])
  }

  ghost function SemOf<T>(s: Queue<T>, side: Side): Sem {
    if side == Items then s.items else s.room
  }

  ghost function WithSem<T>(s: Queue<T>, side: Side, sem: Sem): Queue<T> {
    if side == Items then s.(items := sem) else s.(room := sem)
  }

  ghost function Next<T(!new)>(s: Queue<T>, a: Step<T>): Queue<T>
    requires Enabled(s, a)
  {
    match a
    case Begin(t, op, block) => s.(pc := s.pc[t := Try(op, if block then Fresh else Once)])
    case Attempt(t) => Tried(s, t)
    case WaitSem(t, pri, poll) =>
      var op := s.pc[t].op;
      var r := Wait(SemOf(s, WaitsFor(op)), t, pri, 1, poll);
      WithSem(s, WaitsFor(op), r.1).(pc := s.pc[t := if r.0.Blocked? then Sleep(op)
                                                     else if r.0.er == E_OK then Try(op, Woken) else Idle])
    case GiveUp(t) =>
      var side := WaitsFor(s.pc[t].op);
      var r := Cancel(SemOf(s, side), t);
      WithSem(s, side, r.0).(pc := Wake(s.pc[t := Idle], r.1))
    case Notify(t) =>
      var side := s.pc[t].side;
      var r := Signal(SemOf(s, side), 1);
      WithSem(s, side, r.1).(pc := Wake(s.pc[t := Idle], r.2))
  }

  /** One pass through the atomic part of the operation `t` is about to try. */
  ghost function Tried<T>(s: Queue<T>, t: TaskId): Queue<T>
    requires t in s.pc && s.pc[t].Try? && RingOk(s.ring)
  {
    var p := s.pc[t];
    var failed := s.(pc := s.pc[t := if p.how != Once then Ask(p.op) else Idle]);
    match p.op
    case Receive =>
      if s.ring.head == s.ring.tail then failed
      else s.(ring := Pop(s.ring), gone := s.gone + [s.ring.data[s.ring.head]], pc := s.pc[t := Tell(Room)])
    case Peek =>
      if s.ring.head == s.ring.tail then failed
      else s.(pc := s.pc[t := if p.how != Once then Tell(Items) else Idle])
    case Send(x, pos) =>
      var r := Push(s.ring, x, pos == Over);
      if !r.0 then failed
      else s.(ring := r.1, accepted := s.accepted + [x], gone := s.gone + Dropped(s.ring, x),
              pc := s.pc[t := Tell(Items)])
  }

  /** What an accepted push of `x` drops. */
  ghost function Dropped<T>(r: Ring<T>, x: T): seq<T>
    requires RingOk(r)
  {
    if |Contents(r)| == |r.data| - 1 then [(Contents(r) + [x])[0]] else []
  }

  // ------------------------------------------------------- one notification side

  ghost function Held<T>(pc: Places<T>, side: Side): nat { Many(pc, p => Released(side, p)) }
  ghost function Coming<T>(pc: Places<T>, side: Side): nat { Many(pc, p => Tells(side, p)) }

  /** The blocked threads of this side, and: what there is to tell about never exceeds
      the count, the released threads that have not looked yet, and the signals to come. */
  ghost predicate SideOk<T(!new)>(sem: Sem, pc: Places<T>, side: Side, due: int, cap: int) {
    && Unit(sem) && !sem.tpri && sem.max == cap
    && (forall t :: Waits(sem.queue, t) <==> t in pc && Sleeps(side, pc[t]))
    && due <= sem.cnt + Held(pc, side) + Coming(pc, side)
  }

  lemma CountMove<T>(pc: Places<T>, side: Side, t: TaskId, p: Place<T>)
    requires t in pc
    ensures Held(pc[t := p], side) == Held(pc, side) - One(Released(side, pc[t])) + One(Released(side, p))
    ensures Coming(pc[t := p], side) == Coming(pc, side) - One(Tells(side, pc[t])) + One(Tells(side, p))
  {
    Moves(pc, q => Released(side, q), t, p);
    Moves(pc, q => Tells(side, q), t, p);
  }

  /** A step of `t` that leaves the semaphore alone. */
  lemma SideMove<T(!new)>(sem: Sem, pc: Places<T>, side: Side, due: int, cap: int, t: TaskId, p: Place<T>, due': int)
    requires SideOk(sem, pc, side, due, cap) && t in pc && !Sleeps(side, pc[t]) && !Sleeps(side, p)
    requires due' <= 0 || due' + One(Released(side, pc[t])) + One(Tells(side, pc[t]))
                          <= due + One(Released(side, p)) + One(Tells(side, p))
    ensures SideOk(sem, pc[t := p], side, due', cap)
  {
    CountMove(pc, side, t, p);
  }

  /** tk_wai_sem on this side. */
  lemma SideWait<T(!new)>(sem: Sem, pc: Places<T>, side: Side, due: int, cap: int, t: TaskId, pri: int, poll: bool)
    requires SideOk(sem, pc, side, due, cap) && t in pc && pc[t].Ask? && WaitsFor(pc[t].op) == side && 1 <= cap
    ensures var r := Wait(sem, t, pri, 1, poll);
            SideOk(r.1, pc[t := if r.0.Blocked? then Sleep(pc[t].op) else if r.0.er == E_OK then Try(pc[t].op, Woken)
                           else Idle],
                   side, due, cap)
  {
    WaitUnit(sem, t, pri, poll);
    var r := Wait(sem, t, pri, 1, poll);
    CountMove(pc, side, t, if r.0.Blocked? then Sleep(pc[t].op) else if r.0.er == E_OK then Try(pc[t].op, Woken)
              else Idle);
  }

  /** Timeout or forced release on this side. */
  lemma SideCancel<T(!new)>(sem: Sem, pc: Places<T>, side: Side, due: int, cap: int, t: TaskId)
    requires SideOk(sem, pc, side, due, cap) && t in pc && Sleeps(side, pc[t])
    ensures Cancel(sem, t).1 == [] && SideOk(Cancel(sem, t).0, pc[t := Idle], side, due, cap)
  {
    CancelUnit(sem, t);
    LeaveLine(sem.tpri, sem.queue, t);
    CountMove(pc, side, t, Idle);
    var q := Leave(sem.queue, t);
    forall u | Waits(sem.queue, u) && u != t ensures Waits(q, u) {
      var w :| w in sem.queue && w.tid == u;
      assert w in q;
    }
  }

  lemma WakeOne<T>(pc: Places<T>, w: Waiter<int>)
    requires w.tid in pc && pc[w.tid].Sleep?
    ensures Wake(pc, [w]) == pc[w.tid := Try(pc[w.tid].op, Woken)]
  {
    assert [w][1..] == [];
  }

  /** tk_sig_sem on this side.  An overflow is harmless: the count is then at least
      as large as anything there is to tell about. */
  lemma SideSignal<T(!new)>(sem: Sem, pc: Places<T>, side: Side, due: int, cap: int, t: TaskId)
    requires SideOk(sem, pc, side, due, cap) && t in pc && pc[t] == Tell(side) && due < cap
    ensures var r := Signal(sem, 1);
            && SideOk(r.1, Wake(pc[t := Idle], r.2), side, due, cap)
            && (r.2 == [] || (r.2 == [r.2[0]] && r.2[0].tid in pc && Sleeps(side, pc[r.2[0].tid]) && r.2[0].tid != t))
  {
    SignalUnit(sem);
    CountMove(pc, side, t, Idle);
    var pc1 := pc[t := Idle];
    var q := sem.queue;
    if q != [] {
      assert q[0] in q && Waits(q, q[0].tid);
      WakeOne(pc1, q[0]);
      CountMove(pc1, side, q[0].tid, Try(pc1[q[0].tid].op, Woken));
      FirstLeaves(sem.tpri, q);
    }
  }

  // ------------------------------------------------------------------ the whole

  ghost function Due<T>(r: Ring<T>, side: Side): int
    requires RingOk(r)
  {
    if side == Items then |Contents(r)| else |r.data| - 1 - |Contents(r)|
  }

  function Other(side: Side): Side { if side == Items then Room else Items }

  ghost predicate Inv<T(!new)>(s: Queue<T>) {
    && RingOk(s.ring)
    && s.accepted == s.gone + Contents(s.ring)
    && SideOk(s.items, s.pc, Items, Due(s.ring, Items), |s.ring.data|)
    && SideOk(s.room, s.pc, Room, Due(s.ring, Room), |s.ring.data|)
  }

  lemma CreatedInv<T(!new)>(data: seq<T>, threads: set<TaskId>)
    requires data != []
    ensures Inv(Created(data, threads))
  {
    var pc := Created(data, threads).pc;
    forall t ensures !Waits(Created(data, threads).items.queue, t)
      && !(t in pc && (Sleeps(Items, pc[t]) || Sleeps(Room, pc[t]))) {}
  }

  lemma BeginKeeps<T(!new)>(s: Queue<T>, t: TaskId, op: Op<T>, block: bool)
    requires Inv(s) && Enabled(s, Begin(t, op, block))
    ensures Inv(Next(s, Begin(t, op, block)))
  {
    var cap := |s.ring.data|;
    SideMove(s.items, s.pc, Items, Due(s.ring, Items), cap, t, Try(op, if block then Fresh else Once),
             Due(s.ring, Items));
    SideMove(s.room, s.pc, Room, Due(s.ring, Room), cap, t, Try(op, if block then Fresh else Once), Due(s.ring, Room));
  }

  /** A step of `t` that leaves both semaphores alone and takes the ring to `r`. */
  lemma MoveBoth<T(!new)>(s: Queue<T>, t: TaskId, p: Place<T>, r: Ring<T>)
    requires Inv(s) && t in s.pc && s.pc[t].Try? && !p.Sleep? && !p.Try? && RingOk(r) && |r.data| == |s.ring.data|
    requires var n, n' := |Contents(s.ring)|, |Contents(r)|;
             && (n' == 0 || n' + One(!s.pc[t].op.Send? && s.pc[t].how == Woken) <= n + One(p == Tell(Items)))
             && (n' == |r.data| - 1 || n + One(s.pc[t].op.Send? && s.pc[t].how == Woken) <= n' + One(p == Tell(Room)))
    ensures SideOk(s.items, s.pc[t := p], Items, Due(r, Items), |r.data|)
    ensures SideOk(s.room, s.pc[t := p], Room, Due(r, Room), |r.data|)
  {
    SideMove(s.items, s.pc, Items, Due(s.ring, Items), |r.data|, t, p, Due(r, Items));
    SideMove(s.room, s.pc, Room, Due(s.ring, Room), |r.data|, t, p, Due(r, Room));
  }

  lemma AttemptKeeps<T(!new)>(s: Queue<T>, t: TaskId)
    requires Inv(s) && Enabled(s, Attempt(t))
    ensures Inv(Next(s, Attempt(t))) && |Next(s, Attempt(t)).ring.data| == |s.ring.data|
  {
    if s.pc[t].op.Send? {
      SendKeeps(s, t);
    } else if s.ring.head != s.ring.tail {
      TakeKeeps(s, t);
    } else {
      EmptyContents(s.ring);
      MoveBoth(s, t, Tried(s, t).pc[t], s.ring);
    }
  }

  lemma SendFifo<T>(r: Ring<T>, x: T, over: bool, accepted: seq<T>, gone: seq<T>)
    requires RingOk(r) && accepted == gone + Contents(r)
    ensures var p := Push(r, x, over);
            if p.0 then
              && accepted + [x] == gone + Dropped(r, x) + Contents(p.1)
              && |Contents(p.1)| == if |Contents(r)| == |r.data| - 1 then |Contents(r)| else |Contents(r)| + 1
            else p.1 == r && |Contents(r)| == |r.data| - 1
  {
    PushContents(r, x, over);
    var c, d, c' := Contents(r) + [x], Dropped(r, x), Contents(Push(r, x, over).1);
    assert accepted + [x] == gone + c;
    if Push(r, x, over).0 {
      assert c == d + c';
      assert gone + (d + c') == gone + d + c';
    }
  }

  lemma SendKeeps<T(!new)>(s: Queue<T>, t: TaskId)
    requires Inv(s) && Enabled(s, Attempt(t)) && s.pc[t].op.Send?
    ensures Inv(Tried(s, t)) && |Tried(s, t).ring.data| == |s.ring.data|
  {
    var s' := Tried(s, t);
    var x, over := s.pc[t].op.x, s.pc[t].op.pos == Over;
    SendFifo(s.ring, x, over, s.accepted, s.gone);
    MoveBoth(s, t, s'.pc[t], s'.ring);
  }

  lemma TakeKeeps<T(!new)>(s: Queue<T>, t: TaskId)
    requires Inv(s) && Enabled(s, Attempt(t)) && !s.pc[t].op.Send? && s.ring.head != s.ring.tail
    ensures Inv(Tried(s, t)) && |Tried(s, t).ring.data| == |s.ring.data|
  {
    var s' := Tried(s, t);
    EmptyContents(s.ring);
    PopContents(s.ring);
    MoveBoth(s, t, s'.pc[t], s'.ring);
    var x := s.ring.data[s.ring.head];
    assert s.gone + ([x] + Contents(Pop(s.ring))) == s.gone + [x] + Contents(Pop(s.ring));
  }

  lemma WaitKeeps<T(!new)>(s: Queue<T>, t: TaskId, pri: int, poll: bool)
    requires Inv(s) && Enabled(s, WaitSem(t, pri, poll))
    ensures Inv(Next(s, WaitSem(t, pri, poll)))
  {
    var side := WaitsFor(s.pc[t].op);
    var s' := Next(s, WaitSem(t, pri, poll));
    var cap := |s.ring.data|;
    SideWait(SemOf(s, side), s.pc, side, Due(s.ring, side), cap, t, pri, poll);
    SideMove(SemOf(s, Other(side)), s.pc, Other(side), Due(s.ring, Other(side)), cap, t, s'.pc[t],
             Due(s.ring, Other(side)));
  }

  lemma GiveUpKeeps<T(!new)>(s: Queue<T>, t: TaskId)
    requires Inv(s) && Enabled(s, GiveUp(t))
    ensures Inv(Next(s, GiveUp(t)))
  {
    var side := WaitsFor(s.pc[t].op);
    var cap := |s.ring.data|;
    SideCancel(SemOf(s, side), s.pc, side, Due(s.ring, side), cap, t);
    SideMove(SemOf(s, Other(side)), s.pc, Other(side), Due(s.ring, Other(side)), cap, t, Idle,
             Due(s.ring, Other(side)));
  }

  lemma NotifyKeeps<T(!new)>(s: Queue<T>, t: TaskId)
    requires Inv(s) && Enabled(s, Notify(t))
    ensures Inv(Next(s, Notify(t)))
  {
    var side := s.pc[t].side;
    var cap := |s.ring.data|;
    var due := Due(s.ring, Other(side));
    SideSignal(SemOf(s, side), s.pc, side, Due(s.ring, side), cap, t);
    var pc1 := s.pc[t := Idle];
    SideMove(SemOf(s, Other(side)), s.pc, Other(side), due, cap, t, Idle, due);
    var freed := Signal(SemOf(s, side), 1).2;
    if freed != [] {
      var u := freed[0].tid;
      WakeOne(pc1, freed[0]);
      SideMove(SemOf(s, Other(side)), pc1, Other(side), due, cap, u, Try(pc1[u].op, Woken), due);
    }
  }

  ghost predicate Reachable<T(!new)>(s: Queue<T>, run: seq<Step<T>>, s': Queue<T>)
    decreases |run|
  {
    if run == [] then s' == s else Enabled(s, run[0]) && Reachable(Next(s, run[0]), run[1..], s')
  }

  lemma StepKeeps<T(!new)>(s: Queue<T>, a: Step<T>)
    requires Inv(s) && Enabled(s, a)
    ensures Inv(Next(s, a)) && |Next(s, a).ring.data| == |s.ring.data|
  {
    match a {
      case Begin(t, op, block) => BeginKeeps(s, t, op, block);
      case Attempt(t) => AttemptKeeps(s, t);
      case WaitSem(t, pri, poll) => WaitKeeps(s, t, pri, poll);
      case GiveUp(t) => GiveUpKeeps(s, t);
      case Notify(t) => NotifyKeeps(s, t);
    }
  }

  lemma {:induction false} RunKeeps<T(!new)>(s: Queue<T>, run: seq<Step<T>>, s': Queue<T>)
    requires Inv(s) && Reachable(s, run, s')
    ensures Inv(s') && |s'.ring.data| == |s.ring.data|
    decreases |run|
  {
    if run != [] {
      StepKeeps(s, run[0]);
      RunKeeps(Next(s, run[0]), run[1..], s');
    }
  }

  // ------------------------------------------------------------ what a call does

  /** An attempt that cannot do its work changes nothing: a call that may block goes on to
      wait, another one is over. */
  ghost predicate Fruitless<T>(s: Queue<T>, t: TaskId, s': Queue<T>)
    requires t in s.pc && s.pc[t].Try?
  {
    s' == s.(pc := s.pc[t := if s.pc[t].how == Once then Idle else Ask(s.pc[t].op)])
  }

  lemma ReceiveExact<T(!new)>(s: Queue<T>, t: TaskId)
    requires Inv(s) && Enabled(s, Attempt(t)) && s.pc[t].op.Receive?
    ensures var c, s' := Contents(s.ring), Next(s, Attempt(t));
            if c == [] then Fruitless(s, t, s')
            else
              && s' == s.(ring := s'.ring, gone := s.gone + [c[0]], pc := s.pc[t := Tell(Room)])
              && RingOk(s'.ring) && Contents(s'.ring) == c[1..]
  {
    EmptyContents(s.ring);
    if s.ring.head != s.ring.tail { PopContents(s.ring); }
  }

  lemma PeekExact<T(!new)>(s: Queue<T>, t: TaskId)
    requires Inv(s) && Enabled(s, Attempt(t)) && s.pc[t].op.Peek?
    ensures var s' := Next(s, Attempt(t));
            if Contents(s.ring) == [] then Fruitless(s, t, s')
            else s' == s.(pc := s.pc[t := if s.pc[t].how == Once then Idle else Tell(Items)])
  {
    EmptyContents(s.ring);
  }

  lemma SendExact<T(!new)>(s: Queue<T>, t: TaskId)
    requires Inv(s) && Enabled(s, Attempt(t)) && s.pc[t].op.Send?
    ensures var c, s' := Contents(s.ring), Next(s, Attempt(t));
            var full, x := |c| == |s.ring.data| - 1, s.pc[t].op.x;
            if full && s.pc[t].op.pos != Over then Fruitless(s, t, s')
            else
              && s' == s.(ring := s'.ring, accepted := s.accepted + [x], gone := s'.gone, pc := s.pc[t := Tell(Items)])
              && s'.gone == s.gone + (if full then [(c + [x])[0]] else [])
              && RingOk(s'.ring) && Contents(s'.ring) == if full then (c + [x])[1..] else c + [x]
  {
    PushContents(s.ring, s.pc[t].op.x, s.pc[t].op.pos == Over);
  }

  /** Whether the attempt of `t` does its work. */
  ghost predicate Works<T>(s: Queue<T>, t: TaskId)
    requires t in s.pc && s.pc[t].Try? && RingOk(s.ring)
  {
    if s.pc[t].op.Send? then s.pc[t].op.pos == Over || |Contents(s.ring)| < |s.ring.data| - 1
    else Contents(s.ring) != []
  }

  ghost predicate Succeeds<T>(s: Queue<T>, a: Step<T>, t: TaskId) {
    a == Attempt(t) && t in s.pc && s.pc[t].Try? && RingOk(s.ring) && Works(s, t)
  }

  /** The semaphore answers the wait of `t` with an error, or `t` is released from it. */
  ghost predicate Refused<T>(s: Queue<T>, a: Step<T>, t: TaskId) {
    || a == GiveUp(t)
    || (a.WaitSem? && a.t == t && t in s.pc && s.pc[t].Ask?
        && Wait(SemOf(s, WaitsFor(s.pc[t].op)), t, a.pri, 1, a.poll).0 !in {Blocked, Answer(E_OK)})
  }

  /** In a call that may block and is not over yet. */
  predicate Pursues<T>(p: Place<T>) {
    (p.Try? && p.how != Once) || p.Ask? || p.Sleep?
  }

  /** Whoever else does what, the call goes on until it succeeds or is refused. */
  lemma PursuesOn<T(!new)>(s: Queue<T>, a: Step<T>, t: TaskId)
    requires Inv(s) && Enabled(s, a) && t in s.pc && Pursues(s.pc[t]) && !Succeeds(s, a, t) && !Refused(s, a, t)
    ensures var s' := Next(s, a); t in s'.pc && Pursues(s'.pc[t]) && s'.pc[t].op == s.pc[t].op
  {
    match a {
      case Begin(u, op, block) =>
      case Attempt(u) =>
        if u == t {
          if s.pc[t].op.Send? { SendExact(s, t); }
          else if s.pc[t].op.Receive? { ReceiveExact(s, t); }
          else { PeekExact(s, t); }
        } else {
          OthersStay(s, u, t);
        }
      case WaitSem(u, pri, poll) =>
      case GiveUp(u) => WakesOn(s.pc[u := Idle], Cancel(SemOf(s, WaitsFor(s.pc[u].op)), u).1, t);
      case Notify(u) => WakesOn(s.pc[u := Idle], Signal(SemOf(s, s.pc[u].side), 1).2, t);
    }
  }

  lemma OthersStay<T(!new)>(s: Queue<T>, u: TaskId, t: TaskId)
    requires Enabled(s, Attempt(u)) && t in s.pc && u != t
    ensures t in Next(s, Attempt(u)).pc && Next(s, Attempt(u)).pc[t] == s.pc[t]
  {
  }

  lemma {:induction false} WakesOn<T>(pc: Places<T>, freed: Asks, t: TaskId)
    requires t in pc && Pursues(pc[t])
    ensures var pc' := Wake(pc, freed); t in pc' && Pursues(pc'[t]) && pc'[t].op == pc[t].op
    decreases |freed|
  {
    if freed != [] {
      var u := freed[0].tid;
      WakesOn(if u in pc && pc[u].Sleep? then pc[u := Try(pc[u].op, Woken)] else pc, freed[1..], t);
    }
  }

  /** The states of a run, first to last. */
  ghost predicate IsTrace<T(!new)>(ss: seq<Queue<T>>, run: seq<Step<T>>) {
    |ss| == |run| + 1 && forall i :: 0 <= i < |run| ==> Enabled(ss[i], run[i]) && ss[i + 1] == Next(ss[i], run[i])
  }

  ghost predicate Decided<T>(s: Queue<T>, a: Step<T>, t: TaskId) {
    Succeeds(s, a, t) || Refused(s, a, t)
  }

  lemma {:induction false} StepsKeep<T(!new)>(ss: seq<Queue<T>>, run: seq<Step<T>>, n: nat)
    requires IsTrace(ss, run) && n < |ss| && Inv(ss[0])
    ensures Inv(ss[n])
  {
    if n > 0 {
      StepsKeep(ss, run, n - 1);
      StepKeeps(ss[n - 1], run[n - 1]);
    }
  }

  lemma {:induction false} PursuesOnAndOn<T(!new)>(ss: seq<Queue<T>>, run: seq<Step<T>>, i: nat, j: nat, t: TaskId,
                                                   op: Op<T>)
    requires IsTrace(ss, run) && Inv(ss[0]) && i <= j < |ss|
    requires t in ss[i].pc && Pursues(ss[i].pc[t]) && ss[i].pc[t].op == op
    requires forall k :: i <= k < j ==> !Decided(ss[k], run[k], t)
    ensures t in ss[j].pc && Pursues(ss[j].pc[t]) && ss[j].pc[t].op == op
    decreases j
  {
    if i < j {
      PursuesOnAndOn(ss, run, i, j - 1, t, op);
      StepsKeep(ss, run, j - 1);
      assert !Decided(ss[j - 1], run[j - 1], t);
      PursuesOn(ss[j - 1], run[j - 1], t);
    }
  }

  /** Over every run: a call that may block is over only after an attempt that did its work, or
      after the semaphore answered with an error or the task was released from its wait. */
  lemma BlocksUntilDecided<T(!new)>(ss: seq<Queue<T>>, run: seq<Step<T>>, i: nat, j: nat, t: TaskId, op: Op<T>)
    requires IsTrace(ss, run) && Inv(ss[0]) && i < j < |ss| && run[i] == Begin(t, op, true)
    requires t in ss[j].pc && ss[j].pc[t] == Idle
    ensures exists k :: i < k < j && Decided(ss[k], run[k], t)
  {
    if forall k :: i < k < j ==> !Decided(ss[k], run[k], t) {
      assert ss[i + 1] == Next(ss[i], run[i]);
      PursuesOnAndOn(ss, run, i + 1, j, t, op);
    }
  }

  // ----------------------------------------------------------------- who waits

  lemma {:induction false} Append<T(!new)>(s: Queue<T>, run: seq<Step<T>>, s1: Queue<T>, more: seq<Step<T>>,
                                           s2: Queue<T>)
    requires Reachable(s, run, s1) && Reachable(s1, more, s2)
    ensures Reachable(s, run + more, s2)
    decreases |run|
  {
    if run == [] {
      assert run + more == more;
    } else {
      assert (run + more)[1..] == run[1..] + more;
      Append(Next(s, run[0]), run[1..], s1, more, s2);
    }
  }

  lemma TwoSteps<T(!new)>(s: Queue<T>, a: Step<T>, b: Step<T>)
    requires Enabled(s, a) && Enabled(Next(s, a), b)
    ensures Reachable(s, [a, b], Next(Next(s, a), b))
  {
    assert [a, b][1..] == [b] && [b][1..] == [];
  }

  /** A task that calls and finds nothing to do is about to wait. */
  lemma AsksNext<T(!new)>(s: Queue<T>, t: TaskId, op: Op<T>) returns (s': Queue<T>)
    requires Inv(s) && t in s.pc && s.pc[t] == Idle && (op.Send? ==> op.pos != Over)
    requires if op.Send? then |Contents(s.ring)| == |s.ring.data| - 1 else Contents(s.ring) == []
    ensures Reachable(s, [Begin(t, op, true), Attempt(t)], s') && s' == s.(pc := s.pc[t := Ask(op)]) && Inv(s')
  {
    var a := Begin(t, op, true);
    var s1 := Next(s, a);
    BeginKeeps(s, t, op, true);
    if op.Send? { SendExact(s1, t); } else if op.Receive? { ReceiveExact(s1, t); } else { PeekExact(s1, t); }
    AttemptKeeps(s1, t);
    s' := Next(s1, Attempt(t));
    TwoSteps(s, a, Attempt(t));
    assert s1.pc[t := Ask(op)] == s.pc[t := Ask(op)];
  }

  /** About to wait with nothing to do, the task takes what the semaphore still tells and then
      sleeps. */
  lemma {:induction false} Sleeper<T(!new)>(s: Queue<T>, t: TaskId) returns (run: seq<Step<T>>, s': Queue<T>)
    requires Inv(s) && t in s.pc && s.pc[t].Ask? && (s.pc[t].op.Send? ==> s.pc[t].op.pos != Over)
    requires if s.pc[t].op.Send? then |Contents(s.ring)| == |s.ring.data| - 1 else Contents(s.ring) == []
    ensures Reachable(s, run, s') && t in s'.pc && s'.pc[t] == Sleep(s.pc[t].op)
    decreases SemOf(s, WaitsFor(s.pc[t].op)).cnt
  {
    var op := s.pc[t].op;
    var sem, a := SemOf(s, WaitsFor(op)), WaitSem(t, 0, false);
    var s1 := Next(s, a);
    assert !Waits(sem.queue, t);
    WaitUnit(sem, t, 0, false);
    WaitKeeps(s, t, 0, false);
    if sem.cnt == 0 {
      run, s' := [a], s1;
      assert [a][1..] == [];
    } else {
      if op.Send? { SendExact(s1, t); } else if op.Receive? { ReceiveExact(s1, t); } else { PeekExact(s1, t); }
      AttemptKeeps(s1, t);
      TwoSteps(s, a, Attempt(t));
      var s2 := Next(s1, Attempt(t));
      run, s' := Sleeper(s2, t);
      Append(s, [a, Attempt(t)], s2, run, s');
      run := [a, Attempt(t)] + run;
    }
  }

  /** Receivers and peekers do come to sleep... */
  lemma ReceiverSleeps<T(!new)>(data: seq<T>, threads: set<TaskId>, t: TaskId, op: Op<T>)
      returns (run: seq<Step<T>>, s: Queue<T>)
    requires data != [] && t in threads && !op.Send?
    ensures Reachable(Created(data, threads), run, s) && t in s.pc && Sleeps(Items, s.pc[t])
  {
    var s0 := Created(data, threads);
    CreatedInv(data, threads);
    var s1 := AsksNext(s0, t, op);
    run, s := Sleeper(s1, t);
    Append(s0, [Begin(t, op, true), Attempt(t)], s1, run, s);
    run := [Begin(t, op, true), Attempt(t)] + run;
  }

  /** One more item, sent by a call that does not block. */
  lemma SendOne<T(!new)>(s: Queue<T>, t: TaskId, x: T) returns (run: seq<Step<T>>, s': Queue<T>)
    requires Inv(s) && t in s.pc && s.pc[t] == Idle && |Contents(s.ring)| < |s.ring.data| - 1
    ensures Reachable(s, run, s') && Inv(s') && t in s'.pc && s'.pc[t] == Idle && |s'.ring.data| == |s.ring.data|
    ensures |Contents(s'.ring)| == |Contents(s.ring)| + 1
  {
    var a, op := Begin(t, Send(x, ToBack), false), Send(x, ToBack);
    var s1 := Next(s, a);
    BeginKeeps(s, t, op, false);
    SendExact(s1, t);
    AttemptKeeps(s1, t);
    TwoSteps(s, a, Attempt(t));
    var s2 := Next(s1, Attempt(t));
    NotifyKeeps(s2, t);
    NotifierIdle(s2, t);
    s' := Next(s2, Notify(t));
    var b: Step<T> := Notify(t);
    assert [b][1..] == [];
    Append(s, [a, Attempt(t)], s2, [b], s');
    run := [a, Attempt(t)] + [b];
  }

  lemma NotifierIdle<T(!new)>(s: Queue<T>, t: TaskId)
    requires Inv(s) && Enabled(s, Notify(t))
    ensures var s' := Next(s, Notify(t)); t in s'.pc && s'.pc[t] == Idle && s'.ring == s.ring
  {
    IdleStays(s.pc[t := Idle], Signal(SemOf(s, s.pc[t].side), 1).2, t);
  }

  lemma {:induction false} IdleStays<T>(pc: Places<T>, freed: Asks, t: TaskId)
    requires t in pc && pc[t] == Idle
    ensures t in Wake(pc, freed) && Wake(pc, freed)[t] == Idle
    decreases |freed|
  {
    if freed != [] {
      var u := freed[0].tid;
      IdleStays(if u in pc && pc[u].Sleep? then pc[u := Try(pc[u].op, Woken)] else pc, freed[1..], t);
    }
  }

  lemma {:induction false} Fill<T(!new)>(s: Queue<T>, t: TaskId, x: T) returns (run: seq<Step<T>>, s': Queue<T>)
    requires Inv(s) && t in s.pc && s.pc[t] == Idle
    ensures Reachable(s, run, s') && Inv(s') && t in s'.pc && s'.pc[t] == Idle
    ensures |Contents(s'.ring)| == |s'.ring.data| - 1
    decreases |s.ring.data| - |Contents(s.ring)|
  {
    if |Contents(s.ring)| == |s.ring.data| - 1 {
      run, s' := [], s;
    } else {
      var r1, s1 := SendOne(s, t, x);
      var r2, s2 := Fill(s1, t, x);
      Append(s, r1, s1, r2, s2);
      run, s' := r1 + r2, s2;
    }
  }

  /** ...and so do senders. */
  lemma SenderSleeps<T(!new)>(data: seq<T>, threads: set<TaskId>, t: TaskId, x: T)
      returns (run: seq<Step<T>>, s: Queue<T>)
    requires data != [] && t in threads
    ensures Reachable(Created(data, threads), run, s) && t in s.pc && Sleeps(Room, s.pc[t])
  {
    var s0, op := Created(data, threads), Send(x, ToBack);
    CreatedInv(data, threads);
    var r1, s1 := Fill(s0, t, x);
    var s2 := AsksNext(s1, t, op);
    var r3, s3 := Sleeper(s2, t);
    Append(s1, [Begin(t, op, true), Attempt(t)], s2, r3, s3);
    Append(s0, r1, s1, [Begin(t, op, true), Attempt(t)] + r3, s3);
    run, s := r1 + ([Begin(t, op, true), Attempt(t)] + r3), s3;
  }

  // ------------------------------------------------------------------ the theorems

  /** In every reachable state the ring is a FIFO of `len - 1` places: what was accepted
      is, in order, what was received or dropped and then what is queued. */
  lemma Fifo<T(!new)>(data: seq<T>, threads: set<TaskId>, run: seq<Step<T>>, s: Queue<T>)
    requires data != [] && Reachable(Created(data, threads), run, s)
    ensures RingOk(s.ring) && s.accepted == s.gone + Contents(s.ring) && |Contents(s.ring)| <= |data| - 1
  {
    CreatedInv(data, threads);
    RunKeeps(Created(data, threads), run, s);
  }

  /** No receiver or peeker stays blocked beside an item unless another has been released
      and has yet to look, or a signal is on its way. */
  lemma NoStuckReceiver<T(!new)>(data: seq<T>, threads: set<TaskId>, run: seq<Step<T>>, s: Queue<T>, t: TaskId)
    requires data != [] && Reachable(Created(data, threads), run, s)
    requires RingOk(s.ring) && Contents(s.ring) != [] && t in s.pc && Sleeps(Items, s.pc[t])
    ensures exists u :: u in s.pc && (Released(Items, s.pc[u]) || Tells(Items, s.pc[u]))
    ensures |Contents(s.ring)| <= Held(s.pc, Items) + Coming(s.pc, Items)
  {
    CreatedInv(data, threads);
    RunKeeps(Created(data, threads), run, s);
    assert Waits(s.items.queue, t);
    SignalUnit(s.items);
    ManySome(s.pc, p => Released(Items, p));
    ManySome(s.pc, p => Tells(Items, p));
  }

  /** The dual for senders and free places. */
  lemma NoStuckSender<T(!new)>(data: seq<T>, threads: set<TaskId>, run: seq<Step<T>>, s: Queue<T>, t: TaskId)
    requires data != [] && Reachable(Created(data, threads), run, s)
    requires RingOk(s.ring) && |Contents(s.ring)| < |data| - 1 && t in s.pc && Sleeps(Room, s.pc[t])
    ensures exists u :: u in s.pc && (Released(Room, s.pc[u]) || Tells(Room, s.pc[u]))
    ensures |data| - 1 - |Contents(s.ring)| <= Held(s.pc, Room) + Coming(s.pc, Room)
  {
    CreatedInv(data, threads);
    RunKeeps(Created(data, threads), run, s);
    assert Waits(s.room.queue, t);
    SignalUnit(s.room);
    ManySome(s.pc, p => Released(Room, p));
    ManySome(s.pc, p => Tells(Room, p));
  }

  /** A send to the front is a send to the back: an accepted item goes last.  It is first,
      as it should be, exactly if all items queued equal it. */
  lemma FrontGoesLast<T(!new)>(s: Queue<T>, t: TaskId)
    requires Inv(s) && t in s.pc && s.pc[t].Try? && s.pc[t].op.Send? && s.pc[t].op.pos == ToFront
    ensures var x, c, c' := s.pc[t].op.x, Contents(s.ring), Contents(Tried(s, t).ring);
            if |c| == |s.ring.data| - 1 then Tried(s, t).ring == s.ring
            else c' == c + [x] && (c' == [x] + c <==> forall y :: y in c ==> y == x)
  {
    PushContents(s.ring, s.pc[t].op.x, false);
    LastIsFirst(Contents(s.ring), s.pc[t].op.x);
  }

  lemma LastIsFirst<T(!new)>(c: seq<T>, x: T)
    ensures c + [x] == [x] + c <==> forall y :: y in c ==> y == x
  {
    if c + [x] == [x] + c {
      AllEqual(c, x);
    }
    if forall y :: y in c ==> y == x {
      forall i | 0 <= i < |c| ensures c[i] == x { assert c[i] in c; }
      assert c + [x] == [x] + c;
    }
  }

  lemma {:induction false} AllEqual<T>(c: seq<T>, x: T)
    requires c + [x] == [x] + c
    ensures forall y :: y in c ==> y == x
  {
    if c != [] {
      assert (c + [x])[0] == x;
      assert (c + [x])[1..] == c[1..] + [x] && ([x] + c)[1..] == c;
      assert c == [x] + c[1..];
      AllEqual(c[1..], x);
    }
  }

  /** A queue created with length 1 never holds an item, not even by overwriting. */
  lemma LengthOneHoldsNothing<T(!new)>(data: seq<T>, threads: set<TaskId>, run: seq<Step<T>>, s: Queue<T>)
    requires |data| == 1 && Reachable(Created(data, threads), run, s)
    ensures RingOk(s.ring) && Contents(s.ring) == []
  {
    Fifo(data, threads, run, s);
  }
}
