/**
 The high-speed multi-lock of libtk (fastmlock.c): 32 independent locks over one
 word of bits, one counter of waiters and one event flag.  Any number of threads
 run MLockTmo and MUnlock on any bits, in any interleaving of their atomic steps;
 the event flag is the one of module EventFlag.
 */
module FastMLock {
  import opened Common
  import opened WaitQueue
  import opened EventFlag

  /** Where a thread is.  In MLockTmo: about to test and set its bit, about to call
      tk_wai_flg, blocked in it, about to decrement the waiter count.  In MUnlock:
      about to read the waiter count, about to call tk_set_flg. */
  datatype Place =
    | Idle
    | Testing(no: Bit)
    | Asking(no: Bit)
    | Sleeping(no: Bit)
    | Leaving
    | Checking(no: Bit)
    | Signalling(no: Bit)

  /** `held` records who has locked which bit; the code itself does not. */
  datatype MLock = MLock(wai: int, flg: Pattern, flag: Flag, pc: map<TaskId, Place>, held: set<(TaskId, Bit)>)

  /** CreateMLock. */
  ghost function Created(threads: set<TaskId>): MLock {
    MLock(0, {}, Flag({}, true, true, []), map t | t in threads :: Idle, {})
  }

  /** What MLockTmo passes to tk_wai_flg: TWF_ORW and TWF_BITCLR on one bit. */
  function Request(no: Bit): Ask {
    Ask({no}, true, true, false)
  }

  datatype Step =
    | Enter(t: TaskId, no: Bit)
    | TestAndSet(t: TaskId)
    | WaitFlag(t: TaskId, pri: int, poll: bool)
    | GiveUp(t: TaskId)
    | Leave(t: TaskId)
    | Reset(t: TaskId, no: Bit)
    | ReadWaiters(t: TaskId)
    | SetFlag(t: TaskId)
    | NewPriority(t: TaskId, p: int)

  /** A thread unlocks only what it has locked.  GiveUp is a timeout or forced release. */
  ghost predicate Enabled(s: MLock, a: Step) {
    && a.t in s.pc
    && match a
       case Enter(t, _) => s.pc[t] == Idle
       case TestAndSet(t) => s.pc[t].Testing?
       case WaitFlag(t, _, _) => s.pc[t].Asking?
       case GiveUp(t) => s.pc[t].Sleeping?
       case Leave(t) => s.pc[t] == Leaving
       case Reset(t, no) => s.pc[t] == Idle && (t, no) in s.held
       case ReadWaiters(t) => s.pc[t].Checking?
       case SetFlag(t) => s.pc[t].Signalling?
       case NewPriority(t, _) => s.pc[t].Sleeping? && Waits(s.flag.queue, t)
  }

  /** Released threads go back to the test. */
  ghost function Wake(pc: map<TaskId, Place>, freed: seq<Told>): map<TaskId, Place>
    decreases |freed|
  {
    if freed == [] then pc
    else
      var t := freed[0].who.tid;
      Wake(if t in pc && pc[t].Sleeping? then pc[t := Testing(pc[t].no)] else pc, freed[1..])
  }

  ghost function Next(s: MLock, a: Step): MLock
    requires Enabled(s, a)
  {
    match a
    case Enter(t, no) => s.(wai := s.wai + 1, pc := s.pc[t := Testing(no)])
    case TestAndSet(t) =>
      var no := s.pc[t].no;
      if no in s.flg then s.(pc := s.pc[t := Asking(no)])
      else s.(flg := s.flg + {no}, held := s.held + {(t, no)}, pc := s.pc[t := Leaving])
    case WaitFlag(t, pri, poll) =>
      var no := s.pc[t].no;
      var r := Wait(s.flag, t, pri, Request(no), poll);
      s.(flag := r.1, pc := s.pc[t := if r.0.Blocked? then Sleeping(no) else if r.0.er == E_OK then Testing(no)
                                 else Leaving])
    case GiveUp(t) => s.(flag := s.flag.(queue := WaitQueue.Leave(s.flag.queue, t)), pc := s.pc[t := Leaving])
    case Leave(t) => s.(wai := s.wai - 1, pc := s.pc[t := Idle])
    case Reset(t, no) => s.(flg := s.flg - {no}, held := s.held - {(t, no)}, pc := s.pc[t := Checking(no)])
    case ReadWaiters(t) => s.(pc := s.pc[t := if s.wai == 0 then Idle else Signalling(s.pc[t].no)])
    case SetFlag(t) =>
      var r := Set(s.flag, {s.pc[t].no});
      s.(flag := r.0, pc := Wake(s.pc[t := Idle], r.1))
    case NewPriority(t, p) => s.(flag := s.flag.(queue := Reorder(s.flag.queue, t, p)))
  }

  predicate InLock(p: Place) {
    p.Testing? || p.Asking? || p.Sleeping? || p.Leaving?
  }

  /** Somebody has yet to look at bit `b`, or to announce it. */
  ghost predicate Attended(pc: map<TaskId, Place>, ptn: Pattern, b: Bit) {
    b in ptn || exists t :: t in pc && (pc[t] == Testing(b) || pc[t] == Checking(b) || pc[t] == Signalling(b))
  }

  ghost predicate Sought(pc: map<TaskId, Place>, b: Bit) {
    exists t :: t in pc && (pc[t] == Asking(b) || pc[t] == Sleeping(b))
  }

  /** The word of bits records exactly the held locks, each by one thread. */
  ghost predicate Owners(flg: Pattern, held: set<(TaskId, Bit)>) {
    && (forall b :: b in flg <==> exists t :: (t, b) in held)
    && (forall t, u, b {:trigger (t, b) in held, (u, b) in held} :: (t, b) in held && (u, b) in held ==> t == u)
  }

  ghost predicate Queued(q: EventFlag.Asks, pc: map<TaskId, Place>) {
    && (forall w :: w in q ==> w.tid in pc && pc[w.tid].Sleeping? && w.arg == Request(pc[w.tid].no))
    && (forall t :: t in pc && pc[t].Sleeping? ==> Waits(q, t))
  }

  ghost predicate Inv(s: MLock) {
    && Owners(s.flg, s.held)
    && FlagOk(s.flag) && s.flag.multi && s.flag.tpri && Queued(s.flag.queue, s.pc)
    && s.wai == Many(s.pc, InLock)
    && (forall b :: b !in s.flg && Sought(s.pc, b) ==> Attended(s.pc, s.flag.ptn, b))
  }

  lemma CreatedInv(threads: set<TaskId>)
    ensures Inv(Created(threads))
  {
    assert Who(Created(threads).pc, InLock) == {};
  }

  /** A step of `t` outside the flag: who sleeps, and who attends, stays. */
  lemma QueuedMove(q: EventFlag.Asks, pc: map<TaskId, Place>, t: TaskId, p: Place)
    requires Queued(q, pc) && t in pc && !pc[t].Sleeping? && !p.Sleeping?
    ensures Queued(q, pc[t := p]) && !Waits(q, t)
  {
  }

  lemma EnterKeeps(s: MLock, t: TaskId, no: Bit)
    requires Inv(s) && Enabled(s, Enter(t, no))
    ensures Inv(Next(s, Enter(t, no)))
  {
    var pc' := s.pc[t := Testing(no)];
    Moves(s.pc, InLock, t, Testing(no));
    QueuedMove(s.flag.queue, s.pc, t, Testing(no));
    forall b | b !in s.flg && Sought(pc', b) ensures Attended(pc', s.flag.ptn, b) {
      StillAttended(s, pc', t, b);
    }
  }

  /** What was attended is so after `t` moved, if `t` itself did not attend it. */
  lemma StillAttended(s: MLock, pc': map<TaskId, Place>, t: TaskId, b: Bit)
    requires Inv(s) && b !in s.flg && t in s.pc && t in pc' && pc' == s.pc[t := pc'[t]]
    requires Sought(s.pc, b)
    requires (s.pc[t] == Testing(b) || s.pc[t] == Checking(b) || s.pc[t] == Signalling(b)) ==>
               pc'[t] == Testing(b) || pc'[t] == Checking(b) || pc'[t] == Signalling(b)
    ensures Attended(pc', s.flag.ptn, b)
  {
    assert Attended(s.pc, s.flag.ptn, b);
    if b !in s.flag.ptn {
      var u :| u in s.pc && (s.pc[u] == Testing(b) || s.pc[u] == Checking(b) || s.pc[u] == Signalling(b));
      assert u in pc' && (pc'[u] == Testing(b) || pc'[u] == Checking(b) || pc'[u] == Signalling(b));
    }
  }

  lemma TestAndSetKeeps(s: MLock, t: TaskId)
    requires Inv(s) && Enabled(s, TestAndSet(t))
    ensures Inv(Next(s, TestAndSet(t)))
  {
    var s' := Next(s, TestAndSet(t));
    var no := s.pc[t].no;
    Moves(s.pc, InLock, t, s'.pc[t]);
    QueuedMove(s.flag.queue, s.pc, t, s'.pc[t]);
    if no !in s.flg {
      assert (t, no) in s'.held;
      assert forall b :: b in s.flg ==> exists u :: (u, b) in s.held && (u, b) in s'.held;
    }
    forall b | b !in s'.flg && Sought(s'.pc, b) ensures Attended(s'.pc, s'.flag.ptn, b) {
      StillAttended(s, s'.pc, t, b);
    }
  }

  lemma ResetKeeps(s: MLock, t: TaskId, no: Bit)
    requires Inv(s) && Enabled(s, Reset(t, no))
    ensures Inv(Next(s, Reset(t, no)))
  {
    var s' := Next(s, Reset(t, no));
    Moves(s.pc, InLock, t, Checking(no));
    QueuedMove(s.flag.queue, s.pc, t, Checking(no));
    assert forall b :: b in s'.flg ==> exists u :: (u, b) in s.held && (u, b) in s'.held;
    forall b | b !in s'.flg && Sought(s'.pc, b) ensures Attended(s'.pc, s'.flag.ptn, b) {
      if b == no {
        assert s'.pc[t] == Checking(b);
      } else {
        StillAttended(s, s'.pc, t, b);
      }
    }
  }

  lemma LeaveKeeps(s: MLock, t: TaskId)
    requires Inv(s) && Enabled(s, Step.Leave(t))
    ensures Inv(Next(s, Step.Leave(t)))
  {
    var pc' := s.pc[t := Idle];
    Moves(s.pc, InLock, t, Idle);
    QueuedMove(s.flag.queue, s.pc, t, Idle);
    forall b | b !in s.flg && Sought(pc', b) ensures Attended(pc', s.flag.ptn, b) {
      StillAttended(s, pc', t, b);
    }
  }

  lemma ReadWaitersKeeps(s: MLock, t: TaskId)
    requires Inv(s) && Enabled(s, ReadWaiters(t))
    ensures Inv(Next(s, ReadWaiters(t)))
  {
    var pc' := Next(s, ReadWaiters(t)).pc;
    Moves(s.pc, InLock, t, pc'[t]);
    ManySome(s.pc, InLock);
    QueuedMove(s.flag.queue, s.pc, t, pc'[t]);
    forall b | b !in s.flg && Sought(pc', b) ensures Attended(pc', s.flag.ptn, b) {
      var u :| u in pc' && (pc'[u] == Asking(b) || pc'[u] == Sleeping(b));
      assert s.wai != 0 by {
        assert u in s.pc && InLock(s.pc[u]);
      }
      StillAttended(s, pc', t, b);
    }
  }

  lemma GiveUpKeeps(s: MLock, t: TaskId)
    requires Inv(s) && Enabled(s, GiveUp(t))
    ensures Inv(Next(s, GiveUp(t)))
  {
    var pc' := s.pc[t := Leaving];
    Moves(s.pc, InLock, t, Leaving);
    LeaveOk(s.flag, t);
    var q := WaitQueue.Leave(s.flag.queue, t);
    forall u | u in pc' && pc'[u].Sleeping? ensures Waits(q, u) {
      var w :| w in s.flag.queue && w.tid == u;
      assert w in q;
    }
    forall b | b !in s.flg && Sought(pc', b) ensures Attended(pc', s.flag.ptn, b) {
      StillAttended(s, pc', t, b);
    }
  }

  lemma WaitFlagKeeps(s: MLock, t: TaskId, pri: int, poll: bool)
    requires Inv(s) && Enabled(s, WaitFlag(t, pri, poll))
    ensures Inv(Next(s, WaitFlag(t, pri, poll)))
  {
    var s' := Next(s, WaitFlag(t, pri, poll));
    var no := s.pc[t].no;
    var a := Request(no);
    QueuedMove(s.flag.queue, s.pc, t, Idle);
    WaitOk(s.flag, t, pri, a, poll);
    Moves(s.pc, InLock, t, s'.pc[t]);
    WaitFlagQueue(s, t, pri, poll);
    forall b | b !in s'.flg && Sought(s'.pc, b) ensures Attended(s'.pc, s'.flag.ptn, b) {
      AskedAttended(s, s'.pc, s'.flag.ptn, t, b);
    }
  }

  /** What is sought after `t` asked for its bit was sought before. */
  lemma AskedAttended(s: MLock, pc': map<TaskId, Place>, ptn': Pattern, t: TaskId, b: Bit)
    requires Inv(s) && b !in s.flg && t in s.pc && s.pc[t].Asking? && t in pc' && pc' == s.pc[t := pc'[t]]
    requires pc'[t].Asking? || pc'[t].Sleeping? ==> pc'[t].no == s.pc[t].no
    requires ptn' == s.flag.ptn || (pc'[t] == Testing(s.pc[t].no) && ptn' == s.flag.ptn - {s.pc[t].no})
    requires Sought(pc', b)
    ensures Attended(pc', ptn', b)
  {
    if pc'[t] != Testing(b) {
      assert Sought(s.pc, b) by {
        var u :| u in pc' && (pc'[u] == Asking(b) || pc'[u] == Sleeping(b));
        assert u in s.pc && (s.pc[u] == Asking(b) || s.pc[u] == Sleeping(b));
      }
      StillAttended(s, pc', t, b);
    }
  }

  lemma WaitFlagQueue(s: MLock, t: TaskId, pri: int, poll: bool)
    requires Inv(s) && Enabled(s, WaitFlag(t, pri, poll)) && !Waits(s.flag.queue, t)
    ensures Queued(Next(s, WaitFlag(t, pri, poll)).flag.queue, Next(s, WaitFlag(t, pri, poll)).pc)
    ensures var s' := Next(s, WaitFlag(t, pri, poll));
            s'.flag.ptn == s.flag.ptn || (s'.pc[t] == Testing(s.pc[t].no) && s'.flag.ptn == s.flag.ptn - {s.pc[t].no})
  {
    var s' := Next(s, WaitFlag(t, pri, poll));
    var w := Waiter(t, pri, Request(s.pc[t].no));
    JoinLine(s.flag.tpri, s.flag.queue, w);
    if s'.pc[t].Sleeping? {
      assert w in s'.flag.queue;
      forall u | u in s'.pc && s'.pc[u].Sleeping? ensures Waits(s'.flag.queue, u) {
        if u != t {
          var v :| v in s.flag.queue && v.tid == u;
          assert v in s'.flag.queue;
        }
      }
    }
  }

  /** Announcing bit `b` releases the first thread that waits for it, which consumes
      the bit; without one the bit stays in the flag. */
  lemma {:induction false} SetOne(ptn: Pattern, q: EventFlag.Asks, b: Bit)
    requires Line(true, q)
    requires forall w :: w in q ==> exists c :: w.arg == Request(c) && c !in ptn
    ensures var r := Sweep(ptn + {b}, q);
            if forall w :: w in q ==> w.arg != Request(b) then r == Result(ptn + {b}, q, [])
            else |r.freed| == 1 && r.freed[0].who in q && r.freed[0].who.arg == Request(b)
                 && r.kept == WaitQueue.Leave(q, r.freed[0].who.tid) && r.ptn == ptn - {b}
  {
    if q != [] {
      var c :| q[0].arg == Request(c) && c !in ptn;
      assert q == [q[0]] + q[1..];
      if c == b {
        assert (ptn + {b}) - {b} == ptn - {b};
        assert Cond(ptn + {b}, q[0].arg) by { assert b in (ptn + {b}) * {b}; }
        SweepNobodyElse(ptn - {b}, q[1..]);
        assert q[0] in q;
      } else {
        assert !Cond(ptn + {b}, q[0].arg) by { assert (ptn + {b}) * {c} == {}; }
        assert {c} != {b} by { assert c in {c}; }
        TailLine(true, q);
        SetOne(ptn, q[1..], b);
      }
    }
  }

  lemma {:induction false} SweepNobodyElse(ptn: Pattern, q: EventFlag.Asks)
    requires forall w :: w in q ==> exists c :: w.arg == Request(c) && c !in ptn
    ensures Sweep(ptn, q) == Result(ptn, q, [])
  {
    forall w | w in q ensures !Cond(ptn, w.arg) {
      var c :| w.arg == Request(c) && c !in ptn;
      assert ptn * {c} == {};
    }
    SweepNobody(ptn, q);
  }

  lemma SetFlagKeeps(s: MLock, t: TaskId)
    requires Inv(s) && Enabled(s, SetFlag(t))
    ensures Inv(Next(s, SetFlag(t)))
  {
    var b := s.pc[t].no;
    var q := s.flag.queue;
    SetOk(s.flag, {b});
    forall w | w in q ensures exists c :: w.arg == Request(c) && c !in s.flag.ptn {
      var c := s.pc[w.tid].no;
      assert !Cond(s.flag.ptn, w.arg);
      assert c in s.flag.ptn ==> c in s.flag.ptn * w.arg.bits;
    }
    SetOne(s.flag.ptn, q, b);
    if Set(s.flag, {b}).1 != [] {
      SetFlagWakes(s, t);
    } else {
      SetFlagStays(s, t);
    }
  }

  lemma SetFlagStays(s: MLock, t: TaskId)
    requires Inv(s) && Enabled(s, SetFlag(t)) && FlagOk(Next(s, SetFlag(t)).flag)
    requires Set(s.flag, {s.pc[t].no}) == (s.flag.(ptn := s.flag.ptn + {s.pc[t].no}), [])
    ensures Inv(Next(s, SetFlag(t)))
  {
    var s' := Next(s, SetFlag(t));
    Moves(s.pc, InLock, t, Idle);
    QueuedMove(s.flag.queue, s.pc, t, Idle);
    forall c | c !in s'.flg && Sought(s'.pc, c) ensures Attended(s'.pc, s'.flag.ptn, c) {
      if c != s.pc[t].no { AttendedAfter(s, s'.pc, s'.flag.ptn, t, c); }
    }
  }

  /** `t` attended `b` only; another bit is attended as before. */
  lemma AttendedAfter(s: MLock, pc': map<TaskId, Place>, ptn': Pattern, t: TaskId, c: Bit)
    requires Inv(s) && c !in s.flg && Sought(s.pc, c)
    requires c in s.flag.ptn ==> c in ptn'
    requires forall u :: u in s.pc && (s.pc[u] == Testing(c) || s.pc[u] == Checking(c) || s.pc[u] == Signalling(c)) ==>
               u in pc' && pc'[u] == s.pc[u]
    ensures Attended(pc', ptn', c)
  {
    assert Attended(s.pc, s.flag.ptn, c);
    if c !in s.flag.ptn {
      var u :| u in s.pc && (s.pc[u] == Testing(c) || s.pc[u] == Checking(c) || s.pc[u] == Signalling(c));
      assert u in pc' && pc'[u] == s.pc[u];
    }
  }

  /** The released thread `u` leaves the ring and goes back to the test. */
  lemma WakeQueued(q: EventFlag.Asks, pc: map<TaskId, Place>, t: TaskId, u: TaskId, b: Bit)
    requires Queued(q, pc) && Line(true, q) && t in pc && pc[t].Signalling? && u in pc && pc[u] == Sleeping(b)
    ensures Queued(WaitQueue.Leave(q, u), pc[t := Idle][u := Testing(b)])
    ensures Many(pc[t := Idle][u := Testing(b)], InLock) == Many(pc, InLock)
  {
    var q' := WaitQueue.Leave(q, u);
    var pc' := pc[t := Idle][u := Testing(b)];
    Moves(pc, InLock, t, Idle);
    Moves(pc[t := Idle], InLock, u, Testing(b));
    LeaveLine(true, q, u);
    forall w | w in q' ensures w.tid in pc' && pc'[w.tid].Sleeping? && w.arg == Request(pc'[w.tid].no) {
      assert w in q && w.tid != t && w.tid != u;
    }
    forall v | v in pc' && pc'[v].Sleeping? ensures Waits(q', v) {
      var w :| w in q && w.tid == v;
      assert w in q';
    }
  }

  lemma WakeOne(pc: map<TaskId, Place>, x: Told, b: Bit)
    requires x.who.tid in pc && pc[x.who.tid] == Sleeping(b)
    ensures Wake(pc, [x]) == pc[x.who.tid := Testing(b)]
  {
    assert [x][1..] == [];
  }

  lemma SetFlagWakes(s: MLock, t: TaskId)
    requires Inv(s) && Enabled(s, SetFlag(t)) && FlagOk(Next(s, SetFlag(t)).flag)
    requires var b := s.pc[t].no; var r := Set(s.flag, {b});
             |r.1| == 1 && r.1[0].who in s.flag.queue && r.1[0].who.arg == Request(b)
             && r.0.queue == WaitQueue.Leave(s.flag.queue, r.1[0].who.tid) && r.0.ptn == s.flag.ptn - {b}
    ensures Inv(Next(s, SetFlag(t)))
  {
    var b := s.pc[t].no;
    var s' := Next(s, SetFlag(t));
    var freed := Set(s.flag, {b}).1;
    var u := freed[0].who.tid;
    assert s.pc[u] == Sleeping(b) by { assert {s.pc[u].no} == {b}; assert b in {s.pc[u].no}; }
    var pc1 := s.pc[t := Idle];
    assert u in pc1 && pc1[u] == Sleeping(b);
    WakeOne(pc1, freed[0], b);
    assert freed == [freed[0]];
    Woken(s, s', t, u, b);
  }

  /** `t` has announced `b`, and `u` took it. */
  lemma Woken(s: MLock, s': MLock, t: TaskId, u: TaskId, b: Bit)
    requires Inv(s) && t in s.pc && s.pc[t] == Signalling(b) && u in s.pc && s.pc[u] == Sleeping(b)
    requires s' == s.(flag := s'.flag, pc := s.pc[t := Idle][u := Testing(b)]) && FlagOk(s'.flag)
    requires s'.flag == s.flag.(queue := WaitQueue.Leave(s.flag.queue, u), ptn := s.flag.ptn - {b})
    ensures Inv(s')
  {
    WakeQueued(s.flag.queue, s.pc, t, u, b);
    forall c | c !in s'.flg && Sought(s'.pc, c) ensures Attended(s'.pc, s'.flag.ptn, c) {
      WokenAttended(s, t, u, b, c);
    }
  }

  lemma WokenAttended(s: MLock, t: TaskId, u: TaskId, b: Bit, c: Bit)
    requires Inv(s) && t in s.pc && s.pc[t] == Signalling(b) && u in s.pc && s.pc[u] == Sleeping(b) && c !in s.flg
    requires Sought(s.pc[t := Idle][u := Testing(b)], c)
    ensures Attended(s.pc[t := Idle][u := Testing(b)], s.flag.ptn - {b}, c)
  {
    var pc' := s.pc[t := Idle][u := Testing(b)];
    if c == b {
      assert pc'[u] == Testing(b);
    } else {
      var v :| v in pc' && (pc'[v] == Asking(c) || pc'[v] == Sleeping(c));
      assert v in s.pc && s.pc[v] == pc'[v];
      AttendedAfter(s, pc', s.flag.ptn - {b}, t, c);
    }
  }

  lemma NewPriorityKeeps(s: MLock, t: TaskId, p: int)
    requires Inv(s) && Enabled(s, NewPriority(t, p))
    ensures Inv(Next(s, NewPriority(t, p)))
  {
    var q := Reorder(s.flag.queue, t, p);
    ReorderOk(s.flag, t, p);
    ReorderLine(s.flag.queue, t, p);
    assert Find(s.flag.queue, t) in s.flag.queue;
    forall u | u in s.pc && s.pc[u].Sleeping? ensures Waits(q, u) {
      if u != t {
        var w :| w in s.flag.queue && w.tid == u;
        assert w in q;
      }
    }
  }

  ghost predicate Reachable(s: MLock, run: seq<Step>, s': MLock)
    decreases |run|
  {
    if run == [] then s' == s else Enabled(s, run[0]) && Reachable(Next(s, run[0]), run[1..], s')
  }

  lemma {:induction false} RunKeeps(s: MLock, run: seq<Step>, s': MLock)
    requires Inv(s) && Reachable(s, run, s')
    ensures Inv(s')
    decreases |run|
  {
    if run != [] {
      match run[0] {
        case Enter(t, no) => EnterKeeps(s, t, no);
        case TestAndSet(t) => TestAndSetKeeps(s, t);
        case WaitFlag(t, pri, poll) => WaitFlagKeeps(s, t, pri, poll);
        case GiveUp(t) => GiveUpKeeps(s, t);
        case Leave(t) => LeaveKeeps(s, t);
        case Reset(t, no) => ResetKeeps(s, t, no);
        case ReadWaiters(t) => ReadWaitersKeeps(s, t);
        case SetFlag(t) => SetFlagKeeps(s, t);
        case NewPriority(t, p) => NewPriorityKeeps(s, t, p);
      }
      RunKeeps(Next(s, run[0]), run[1..], s');
    }
  }

  /** In every reachable state each bit is held by one thread at most. */
  lemma MutualExclusion(threads: set<TaskId>, run: seq<Step>, s: MLock, t: TaskId, u: TaskId, b: Bit)
    requires Reachable(Created(threads), run, s) && (t, b) in s.held && (u, b) in s.held
    ensures t == u && b in s.flg
  {
    CreatedInv(threads);
    RunKeeps(Created(threads), run, s);
  }

  /** A clear bit with a blocked waiter: some thread is about to test the bit, or some
      unlocker has yet to announce it.  (The flag itself never holds the bit then.) */
  lemma NoLostWakeup(threads: set<TaskId>, run: seq<Step>, s: MLock, u: TaskId, b: Bit)
    requires Reachable(Created(threads), run, s) && u in s.pc && s.pc[u] == Sleeping(b) && b !in s.flg
    ensures exists t :: t in s.pc && (s.pc[t] == Testing(b) || s.pc[t] == Checking(b) || s.pc[t] == Signalling(b))
  {
    CreatedInv(threads);
    RunKeeps(Created(threads), run, s);
    assert Sought(s.pc, b);
    var w :| w in s.flag.queue && w.tid == u;
    assert !Cond(s.flag.ptn, w.arg);
    assert b in s.flag.ptn ==> b in s.flag.ptn * w.arg.bits;
    assert Attended(s.pc, s.flag.ptn, b);
  }

  /** An unlocker that reads zero waiters leaves nobody behind. */
  lemma ZeroMeansNobody(threads: set<TaskId>, run: seq<Step>, s: MLock, u: TaskId)
    requires Reachable(Created(threads), run, s) && s.wai == 0 && u in s.pc
    ensures !InLock(s.pc[u]) && s.flag.queue == []
  {
    CreatedInv(threads);
    RunKeeps(Created(threads), run, s);
    ManySome(s.pc, InLock);
    if s.flag.queue != [] {
      assert s.flag.queue[0] in s.flag.queue;
      assert InLock(s.pc[s.flag.queue[0].tid]);
    }
  }

  // --------------------------------------------------------- how a call comes to an end

  /** In MLockTmo for the bit `no`, before its end. */
  predicate Seeks(p: Place, no: Bit) {
    p == Testing(no) || p == Asking(no) || p == Sleeping(no)
  }

  /** The thread finds its bit clear. */
  ghost predicate Gets(s: MLock, a: Step, t: TaskId) {
    a == TestAndSet(t) && t in s.pc && s.pc[t].Testing? && s.pc[t].no !in s.flg
  }

  /** tk_wai_flg answers the thread with an error, or its wait is ended by timeout or force. */
  ghost predicate Fails(s: MLock, a: Step, t: TaskId) {
    && a.t == t && t in s.pc
    && (a.GiveUp? || (a.WaitFlag? && s.pc[t].Asking?
                      && var r := Wait(s.flag, t, a.pri, Request(s.pc[t].no), a.poll).0; r.Answer? && r.er != E_OK))
  }

  lemma {:induction false} WakeSeeks(pc: map<TaskId, Place>, freed: seq<Told>, t: TaskId, no: Bit)
    requires t in pc && Seeks(pc[t], no)
    ensures t in Wake(pc, freed) && Seeks(Wake(pc, freed)[t], no)
    decreases |freed|
  {
    if freed != [] {
      var u := freed[0].who.tid;
      WakeSeeks(if u in pc && pc[u].Sleeping? then pc[u := Testing(pc[u].no)] else pc, freed[1..], t, no);
    }
  }

  /** A seeker goes on seeking until it gets its bit or fails; with the bit it has the lock,
      and without it nothing has changed hands.  A thread that finds its bit set asks the
      flag, and one that the flag does not satisfy sleeps, unless it polls. */
  lemma SeeksOn(s: MLock, a: Step, t: TaskId, no: Bit)
    requires Inv(s) && Enabled(s, a) && t in s.pc && Seeks(s.pc[t], no)
    ensures var s' := Next(s, a);
            && t in s'.pc
            && (if Gets(s, a, t) then s' == s.(flg := s.flg + {no}, held := s.held + {(t, no)},
                                               pc := s.pc[t := Leaving])
                else if Fails(s, a, t) then s'.pc[t] == Leaving && s'.held == s.held && s'.flg == s.flg
                else Seeks(s'.pc[t], no) && ((t, no) in s'.held <==> (t, no) in s.held))
    ensures a == TestAndSet(t) && no in s.flg ==> Next(s, a) == s.(pc := s.pc[t := Asking(no)])
    ensures a.WaitFlag? && a.t == t && !a.poll ==>
              !Fails(s, a, t) && Next(s, a).pc[t] == (if no in s.flag.ptn then Testing(no) else Sleeping(no))
  {
    match a {
      case SetFlag(u) => WakeSeeks(s.pc[u := Idle], Set(s.flag, {s.pc[u].no}).1, t, no);
      case WaitFlag(u, pri, poll) =>
        if u == t {
          assert no in Request(no).bits;
          WaitExact(s.flag, t, pri, Request(no), poll);
        }
      case _ =>
    }
  }

  /** The thread gets its bit or fails somewhere in the run. */
  ghost predicate Ends(s: MLock, run: seq<Step>, t: TaskId)
    decreases |run|
  {
    run != [] && Enabled(s, run[0])
    && (Gets(s, run[0], t) || Fails(s, run[0], t) || Ends(Next(s, run[0]), run[1..], t))
  }

  /** Over every run, MLockTmo comes to an end only with the lock, with an error of
      tk_wai_flg, or by timeout or forced release. */
  lemma {:induction false} SeeksUntilDecided(s: MLock, run: seq<Step>, s': MLock, t: TaskId, no: Bit)
    requires Inv(s) && Reachable(s, run, s') && t in s.pc && Seeks(s.pc[t], no) && !Ends(s, run, t)
    ensures t in s'.pc && Seeks(s'.pc[t], no)
    decreases |run|
  {
    if run != [] {
      SeeksOn(s, run[0], t, no);
      assert [run[0]][1..] == [];
      RunKeeps(s, [run[0]], Next(s, run[0]));
      SeeksUntilDecided(Next(s, run[0]), run[1..], s', t, no);
    }
  }

  /** The waiting is real: while one thread holds a bit, another that asks for it sleeps. */
  lemma SleeperReached(threads: set<TaskId>, t: TaskId, u: TaskId, no: Bit, pri: int) returns (run: seq<Step>, s: MLock)
    requires t in threads && u in threads && t != u
    ensures Reachable(Created(threads), run, s) && (t, no) in s.held && u in s.pc && s.pc[u] == Sleeping(no)
  {
    var s0 := Created(threads);
    run := [Enter(t, no), TestAndSet(t), Step.Leave(t), Enter(u, no), TestAndSet(u), WaitFlag(u, pri, false)];
    var s1 := Next(s0, run[0]);
    var s2 := Next(s1, run[1]);
    var s3 := Next(s2, run[2]);
    var s4 := Next(s3, run[3]);
    var s5 := Next(s4, run[4]);
    assert no in Request(no).bits;
    WaitExact(s5.flag, u, pri, Request(no), false);
    s := Next(s5, run[5]);
    assert Reachable(s5, run[5..], s) by { assert run[5..][1..] == []; }
    assert Reachable(s4, run[4..], s) by { assert run[4..][1..] == run[5..]; }
    assert Reachable(s3, run[3..], s) by { assert run[3..][1..] == run[4..]; }
    assert Reachable(s2, run[2..], s) by { assert run[2..][1..] == run[3..]; }
    assert Reachable(s1, run[1..], s) by { assert run[1..][1..] == run[2..]; }
  }
}
