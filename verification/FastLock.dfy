/**
 The high-speed lock of libtk (fastlock.c): a counter changed under disabled
 interrupts beside a semaphore.  Any number of threads run Lock and Unlock in any
 interleaving of their atomic steps; the semaphore is the one of module Semaphore.
 */
module FastLock {
  import opened Common
  import opened WaitQueue
  import opened Semaphore

  /** Where a thread is: outside, about to call tk_wai_sem, blocked in it, in the
      critical section, or about to call tk_sig_sem. */
  datatype Place = Idle | Wanting | Sleeping | Holding | Signalling

  datatype Lock = Lock(cnt: int, sem: Sem, pc: map<TaskId, Place>)

  /** CreateLock. */
  function Created(threads: set<TaskId>): Lock {
    Lock(-1, Sem(0, 1, true, false, []), map t | t in threads :: Idle)
  }

  /** The last is tk_rel_wai on a blocked thread by somebody else. */
  datatype Step =
    | Increment(t: TaskId)
    | WaitSem(t: TaskId, pri: int)
    | Decrement(t: TaskId)
    | SignalSem(t: TaskId)
    | NewPriority(t: TaskId, p: int)
    | Force(t: TaskId)

  ghost predicate Enabled(s: Lock, a: Step) {
    && a.t in s.pc
    && match a
       case Increment(t) => s.pc[t] == Idle
       case WaitSem(t, _) => s.pc[t] == Wanting
       case Decrement(t) => s.pc[t] == Holding
       case SignalSem(t) => s.pc[t] == Signalling
       case NewPriority(t, _) => s.pc[t] == Sleeping && s.sem.tpri && Waits(s.sem.queue, t)
       case Force(t) => s.pc[t] == Sleeping
  }

  /** Released tasks return from tk_wai_sem into the critical section. */
  function Wake(pc: map<TaskId, Place>, freed: Asks): map<TaskId, Place>
    decreases |freed|
  {
    if freed == [] then pc else Wake(pc[freed[0].tid := Holding], freed[1..])
  }

  /** Lock ignores what tk_wai_sem answers, so a thread released by force goes on, too. */
  ghost function Next(s: Lock, a: Step): Lock
    requires Enabled(s, a)
  {
    match a
    case Increment(t) =>
      Lock(s.cnt + 1, s.sem, s.pc[t := if s.cnt + 1 > 0 then Wanting else Holding])
    case WaitSem(t, pri) =>
      var r := Wait(s.sem, t, pri, 1, false);
      Lock(s.cnt, r.1, s.pc[t := if r.0.Blocked? then Sleeping else Holding])
    case Decrement(t) =>
      Lock(s.cnt - 1, s.sem, s.pc[t := if s.cnt > 0 then Signalling else Idle])
    case SignalSem(t) =>
      var r := Signal(s.sem, 1);
      Lock(s.cnt, r.1, Wake(s.pc[t := Idle], r.2))
    case NewPriority(t, p) =>
      var r := ChangePriority(s.sem, t, p);
      Lock(s.cnt, r.0, Wake(s.pc, r.1))
    case Force(t) =>
      var r := Cancel(s.sem, t);
      Lock(s.cnt, r.0, Wake(s.pc[t := Holding], r.1))
  }

  ghost function Holders(pc: map<TaskId, Place>): nat { Many(pc, p => p == Holding) }
  ghost function Signallers(pc: map<TaskId, Place>): nat { Many(pc, p => p == Signalling) }
  ghost function Inside(pc: map<TaskId, Place>): nat {
    Many(pc, (p: Place) => p.Wanting? || p.Sleeping? || p.Holding?)
  }

  /** A token is a holder, a signaller or a count of the semaphore.  One is due while
      anybody is inside; the surplus is what there is beyond that. */
  ghost function Surplus(s: Lock): int {
    Holders(s.pc) + Signallers(s.pc) + s.sem.cnt - (if Inside(s.pc) > 0 then 1 else 0)
  }

  /** What every step keeps, forced releases included: the counter counts those inside. */
  ghost predicate Orderly(s: Lock) {
    && Unit(s.sem) && s.sem.max == 1 && s.sem.tpri
    && (forall t :: Waits(s.sem.queue, t) <==> t in s.pc && s.pc[t] == Sleeping)
    && s.cnt + 1 == Inside(s.pc) && Surplus(s) >= 0
  }

  /** What every step but a forced release keeps: there is no token too many. */
  ghost predicate Inv(s: Lock) {
    Orderly(s) && Surplus(s) == 0
  }

  lemma CreatedInv(threads: set<TaskId>)
    ensures Inv(Created(threads))
  {
    var pc := Created(threads).pc;
    assert Who(pc, p => p == Holding) == {};
    assert Who(pc, p => p == Signalling) == {};
    assert Who(pc, (p: Place) => p.Wanting? || p.Sleeping? || p.Holding?) == {};
  }

  /** How the three counts change when `t` moves to `q`. */
  lemma CountMove(pc: map<TaskId, Place>, t: TaskId, q: Place)
    requires t in pc
    ensures Holders(pc[t := q]) == Holders(pc) - (if pc[t].Holding? then 1 else 0) + (if q.Holding? then 1 else 0)
    ensures Signallers(pc[t := q]) == Signallers(pc) - (if pc[t].Signalling? then 1 else 0)
                                      + (if q.Signalling? then 1 else 0)
    ensures Inside(pc[t := q]) == Inside(pc) - (if pc[t].Wanting? || pc[t].Sleeping? || pc[t].Holding? then 1 else 0)
                                  + (if q.Wanting? || q.Sleeping? || q.Holding? then 1 else 0)
  {
    Moves(pc, p => p == Holding, t, q);
    Moves(pc, p => p == Signalling, t, q);
    Moves(pc, (p: Place) => p.Wanting? || p.Sleeping? || p.Holding?, t, q);
  }

  lemma HolderInside(pc: map<TaskId, Place>)
    ensures Holders(pc) <= Inside(pc)
    ensures (exists t :: t in pc && pc[t].Sleeping?) ==> Inside(pc) > Holders(pc)
    ensures (exists t :: t in pc && pc[t].Wanting?) ==> Inside(pc) > Holders(pc)
    ensures (exists t :: t in pc && pc[t].Holding?) <==> Holders(pc) > 0
    ensures (exists t :: t in pc && pc[t].Signalling?) <==> Signallers(pc) > 0
  {
    var h, i := Who(pc, p => p == Holding), Who(pc, (p: Place) => p.Wanting? || p.Sleeping? || p.Holding?);
    SubsetSize(h, i);
    if t :| t in pc && (pc[t].Sleeping? || pc[t].Wanting?) {
      assert t in i && t !in h;
      SubsetSize(h + {t}, i);
    }
    ManySome(pc, p => p == Holding);
    ManySome(pc, p => p == Signalling);
  }

  // ------------------------------------------------------------------ the steps

  /** A signal finds the count at its maximum: tk_sig_sem answers E_QOVR. */
  predicate Lost(s: Lock, a: Step) {
    a.SignalSem? && s.sem.cnt == s.sem.max
  }

  /** What a step leaves in order, and what it does to the surplus. */
  ghost predicate Kept(s: Lock, a: Step, s': Lock) {
    Orderly(s') && s'.pc.Keys == s.pc.Keys && Surplus(s') == Surplus(s) + One(a.Force?) - One(Lost(s, a))
  }

  lemma MoveKeeps(s: Lock, a: Step)
    requires Orderly(s) && Enabled(s, a) && (a.Increment? || a.Decrement?)
    ensures Kept(s, a, Next(s, a))
  {
    CountMove(s.pc, a.t, Next(s, a).pc[a.t]);
    HolderInside(s.pc);
  }

  lemma WaitSemKeeps(s: Lock, t: TaskId, pri: int)
    requires Orderly(s) && Enabled(s, WaitSem(t, pri))
    ensures Kept(s, WaitSem(t, pri), Next(s, WaitSem(t, pri)))
    ensures s.sem.cnt > 0 ==> Next(s, WaitSem(t, pri)).pc == s.pc[t := Holding]
  {
    WaitUnit(s.sem, t, pri, false);
    HolderInside(s.pc);
    CountMove(s.pc, t, Next(s, WaitSem(t, pri)).pc[t]);
  }

  /** tk_sig_sem hands the lock to the first sleeper, or counts, or loses the token. */
  lemma SignalEffect(s: Lock, t: TaskId)
    requires Orderly(s) && Enabled(s, SignalSem(t))
    ensures var s' := Next(s, SignalSem(t));
            if s.sem.queue == [] then s' == Lock(s.cnt, s.sem.(cnt := 1), s.pc[t := Idle])
            else
              var u := s.sem.queue[0].tid;
              && s.sem.cnt == 0 && u in s.pc && s.pc[u] == Sleeping
              && s' == Lock(s.cnt, s.sem.(queue := s.sem.queue[1..]), s.pc[t := Idle][u := Holding])
  {
    SignalUnit(s.sem);
    var q := s.sem.queue;
    if q != [] {
      assert q[0] in q && Waits(q, q[0].tid);
      assert [q[0]][1..] == [];
      assert Wake(s.pc[t := Idle], [q[0]]) == s.pc[t := Idle][q[0].tid := Holding];
    }
  }

  lemma SignalSemKeeps(s: Lock, t: TaskId)
    requires Orderly(s) && Enabled(s, SignalSem(t))
    ensures Kept(s, SignalSem(t), Next(s, SignalSem(t)))
  {
    SignalEffect(s, t);
    SignalUnit(s.sem);
    HolderInside(s.pc);
    CountMove(s.pc, t, Idle);
    if s.sem.queue != [] {
      CountMove(s.pc[t := Idle], s.sem.queue[0].tid, Holding);
      FirstLeaves(s.sem.tpri, s.sem.queue);
    }
  }

  lemma NewPriorityKeeps(s: Lock, t: TaskId, p: int)
    requires Orderly(s) && Enabled(s, NewPriority(t, p))
    ensures Kept(s, NewPriority(t, p), Next(s, NewPriority(t, p)))
  {
    var q := Reorder(s.sem.queue, t, p);
    ReprioritiseNone(s, t, p);
    ChangePriorityOk(s.sem, t, p);
    ReorderLine(s.sem.queue, t, p);
    forall u | Waits(s.sem.queue, u) && u != t ensures Waits(q, u) {
      var w :| w in s.sem.queue && w.tid == u;
      assert w in q;
    }
    assert Find(s.sem.queue, t) in s.sem.queue;
  }

  /** A blocked task's priority change serves nobody. */
  lemma ReprioritiseNone(s: Lock, t: TaskId, p: int)
    requires Orderly(s) && Enabled(s, NewPriority(t, p))
    ensures ChangePriority(s.sem, t, p) == (s.sem.(queue := Reorder(s.sem.queue, t, p)), [])
  {
    assert s.sem.queue[0] in s.sem.queue;
    ReorderLine(s.sem.queue, t, p);
    var q := Reorder(s.sem.queue, t, p);
    assert Find(s.sem.queue, t) in s.sem.queue;
    assert q != [] ==> q[0] in q;
  }

  lemma ForceKeeps(s: Lock, t: TaskId)
    requires Orderly(s) && Enabled(s, Force(t))
    ensures Kept(s, Force(t), Next(s, Force(t)))
  {
    var q := Leave(s.sem.queue, t);
    CancelUnit(s.sem, t);
    LeaveLine(s.sem.tpri, s.sem.queue, t);
    HolderInside(s.pc);
    CountMove(s.pc, t, Holding);
    forall u | Waits(s.sem.queue, u) && u != t ensures Waits(q, u) {
      var w :| w in s.sem.queue && w.tid == u;
      assert w in q;
    }
  }

  lemma StepKeeps(s: Lock, a: Step)
    requires Orderly(s) && Enabled(s, a)
    ensures Kept(s, a, Next(s, a))
  {
    match a {
      case Increment(t) => MoveKeeps(s, a);
      case WaitSem(t, pri) => WaitSemKeeps(s, t, pri);
      case Decrement(t) => MoveKeeps(s, a);
      case SignalSem(t) => SignalSemKeeps(s, t);
      case NewPriority(t, p) => NewPriorityKeeps(s, t, p);
      case Force(t) => ForceKeeps(s, t);
    }
  }

  // ----------------------------------------------------------------------- runs

  ghost predicate Reachable(s: Lock, run: seq<Step>, s': Lock)
    decreases |run|
  {
    if run == [] then s' == s else Enabled(s, run[0]) && Reachable(Next(s, run[0]), run[1..], s')
  }

  /** Nobody is released by force. */
  predicate Unforced(run: seq<Step>) {
    forall i :: 0 <= i < |run| ==> !run[i].Force?
  }

  /** Forced releases less lost signals. */
  ghost function Balance(s: Lock, run: seq<Step>): int
    decreases |run|
  {
    if run == [] || !Enabled(s, run[0]) then 0
    else One(run[0].Force?) - One(Lost(s, run[0])) + Balance(Next(s, run[0]), run[1..])
  }

  /** Over every run the surplus is the number of forced releases less the signals lost. */
  lemma {:induction false} RunKeeps(s: Lock, run: seq<Step>, s': Lock)
    requires Orderly(s) && Reachable(s, run, s')
    ensures Orderly(s') && s'.pc.Keys == s.pc.Keys && Surplus(s') == Surplus(s) + Balance(s, run)
    decreases |run|
  {
    if run != [] {
      StepKeeps(s, run[0]);
      RunKeeps(Next(s, run[0]), run[1..], s');
    }
  }

  /** Without forced releases no signal is lost and no token is too many. */
  lemma {:induction false} UnforcedKeeps(s: Lock, run: seq<Step>, s': Lock)
    requires Inv(s) && Reachable(s, run, s') && Unforced(run)
    ensures Inv(s') && Balance(s, run) == 0
    decreases |run|
  {
    if run != [] {
      StepKeeps(s, run[0]);
      assert !run[0].Force?;
      UnforcedKeeps(Next(s, run[0]), run[1..], s');
    }
  }

  /** Without forced releases: in every reachable state one thread at most is in the
      critical section... */
  lemma MutualExclusion(threads: set<TaskId>, run: seq<Step>, s: Lock, t: TaskId, u: TaskId)
    requires Reachable(Created(threads), run, s) && Unforced(run)
    requires t in s.pc && u in s.pc && s.pc[t] == Holding && s.pc[u] == Holding
    ensures t == u
  {
    CreatedInv(threads);
    UnforcedKeeps(Created(threads), run, s);
    ManyOne(s.pc, p => p == Holding, t, u);
  }

  /** ...a signal never overflows the semaphore, whose maximum is 1... */
  lemma NeverOverflows(threads: set<TaskId>, run: seq<Step>, s: Lock, t: TaskId)
    requires Reachable(Created(threads), run, s) && Unforced(run) && Enabled(s, SignalSem(t))
    ensures Signal(s.sem, 1).0 == E_OK
  {
    CreatedInv(threads);
    UnforcedKeeps(Created(threads), run, s);
    SignalUnit(s.sem);
    HolderInside(s.pc);
  }

  /** ...and when all have left, the lock is as it was created. */
  lemma Quiescent(threads: set<TaskId>, run: seq<Step>, s: Lock)
    requires Reachable(Created(threads), run, s) && Unforced(run) && forall t :: t in s.pc ==> s.pc[t] == Idle
    ensures s.cnt == -1 && s.sem == Created(threads).sem
  {
    CreatedInv(threads);
    UnforcedKeeps(Created(threads), run, s);
    assert Who(s.pc, (p: Place) => p.Wanting? || p.Sleeping? || p.Holding?) == {};
    if s.sem.queue != [] {
      assert s.sem.queue[0] in s.sem.queue;
      assert Waits(s.sem.queue, s.sem.queue[0].tid);
    }
    SemConstants(Created(threads), run, s);
  }

  lemma {:induction false} SemConstants(s: Lock, run: seq<Step>, s': Lock)
    requires Reachable(s, run, s')
    ensures s'.sem.max == s.sem.max && s'.sem.tpri == s.sem.tpri && s'.sem.byCount == s.sem.byCount
    decreases |run|
  {
    if run != [] { SemConstants(Next(s, run[0]), run[1..], s'); }
  }

  /** With forced releases or without: nobody stays blocked unless a thread holds the lock
      or is about to signal. */
  lemma NoLostWakeup(threads: set<TaskId>, run: seq<Step>, s: Lock, t: TaskId)
    requires Reachable(Created(threads), run, s) && t in s.pc && s.pc[t] == Sleeping
    ensures s.sem.cnt == 0 && exists u :: u in s.pc && (s.pc[u] == Holding || s.pc[u] == Signalling)
  {
    CreatedInv(threads);
    RunKeeps(Created(threads), run, s);
    assert Waits(s.sem.queue, t);
    SignalUnit(s.sem);
    HolderInside(s.pc);
  }

  // --------------------------------------------------------- how Lock comes to an end

  /** In Lock, before its end. */
  predicate Seeks(p: Place) {
    p == Wanting || p == Sleeping
  }

  /** The thread is in the critical section somewhere in the run. */
  ghost predicate Enters(s: Lock, run: seq<Step>, t: TaskId)
    decreases |run|
  {
    (t in s.pc && s.pc[t] == Holding)
    || (run != [] && Enabled(s, run[0]) && Enters(Next(s, run[0]), run[1..], t))
  }

  lemma {:induction false} WakeSeeks(pc: map<TaskId, Place>, freed: Asks, t: TaskId)
    requires t in pc && (Seeks(pc[t]) || pc[t] == Holding)
    ensures t in Wake(pc, freed) && (Seeks(Wake(pc, freed)[t]) || Wake(pc, freed)[t] == Holding)
    decreases |freed|
  {
    if freed != [] { WakeSeeks(pc[freed[0].tid := Holding], freed[1..], t); }
  }

  /** Over every run, a thread that has to wait in Lock leaves it for the critical section only. */
  lemma {:induction false} SeeksUntilInside(s: Lock, run: seq<Step>, s': Lock, t: TaskId)
    requires Reachable(s, run, s') && t in s.pc && Seeks(s.pc[t]) && !Enters(s, run, t)
    ensures t in s'.pc && Seeks(s'.pc[t])
    decreases |run|
  {
    if run != [] {
      var s1 := Next(s, run[0]);
      match run[0] {
        case SignalSem(u) => WakeSeeks(s.pc[u := Idle], Signal(s.sem, 1).2, t);
        case NewPriority(u, p) => WakeSeeks(s.pc, ChangePriority(s.sem, u, p).1, t);
        case Force(u) => WakeSeeks(s.pc[u := Holding], Cancel(s.sem, u).1, t);
        case _ =>
      }
      assert !Enters(s1, run[1..], t);
      SeeksUntilInside(s1, run[1..], s', t);
    }
  }

  /** The waiting is real: while one thread is in the critical section, another that calls
      Lock sleeps. */
  lemma SleeperReached(threads: set<TaskId>, t: TaskId, u: TaskId, pri: int) returns (run: seq<Step>, s: Lock)
    requires t in threads && u in threads && t != u
    ensures Reachable(Created(threads), run, s) && t in s.pc && u in s.pc && s.pc[t] == Holding && s.pc[u] == Sleeping
  {
    var s0 := Created(threads);
    run := [Increment(t), Increment(u), WaitSem(u, pri)];
    var s1 := Next(s0, run[0]);
    var s2 := Next(s1, run[1]);
    CreatedInv(threads);
    StepKeeps(s0, run[0]);
    StepKeeps(s1, run[1]);
    WaitUnit(s2.sem, u, pri, false);
    s := Next(s2, run[2]);
    assert Reachable(s2, run[2..], s) by { assert run[2..][1..] == []; }
    assert Reachable(s1, run[1..], s) by { assert run[1..][1..] == run[2..]; }
  }

  // ------------------------------------------------- when exclusion is guaranteed

  /** From here on, whatever the threads do, exclusion holds as long as nobody is (again)
      released by force. */
  ghost predicate Exclusive(s: Lock) {
    forall run, s' {:trigger Reachable(s, run, s')} :: Reachable(s, run, s') && Unforced(run) ==> Holders(s'.pc) <= 1
  }

  lemma {:induction false} Extend(s: Lock, run: seq<Step>, s1: Lock, a: Step)
    requires Reachable(s, run, s1) && Unforced(run) && Enabled(s1, a) && !a.Force?
    ensures Reachable(s, run + [a], Next(s1, a)) && Unforced(run + [a])
    decreases |run|
  {
    var r := run + [a];
    if run == [] {
      assert r[1..] == [];
    } else {
      assert r[0] == run[0] && r[1..] == run[1..] + [a];
      Extend(Next(s, run[0]), run[1..], s1, a);
    }
  }

  lemma {:induction false} Append(s: Lock, run: seq<Step>, s1: Lock, more: seq<Step>, s2: Lock)
    requires Reachable(s, run, s1) && Reachable(s1, more, s2)
    ensures Reachable(s, run + more, s2)
    decreases |run|
  {
    var r := run + more;
    if run == [] {
      assert r == more;
    } else {
      assert r[0] == run[0] && r[1..] == run[1..] + more;
      Append(Next(s, run[0]), run[1..], s1, more, s2);
    }
  }

  /** A thread that is neither inside nor blocked can take the semaphore's count. */
  lemma TakesCount(s: Lock, x: TaskId) returns (run: seq<Step>, s': Lock)
    requires Orderly(s) && s.sem.cnt == 1 && Holders(s.pc) > 0 && x in s.pc
    requires s.pc[x] == Idle || s.pc[x] == Wanting || s.pc[x] == Signalling
    ensures Reachable(s, run, s') && Unforced(run) && Holders(s'.pc) == Holders(s.pc) + 1
  {
    run, s' := [], s;
    if s.pc[x] == Signalling {
      SignalUnit(s.sem);
      SignalEffect(s, x);
      StepKeeps(s, SignalSem(x));
      CountMove(s.pc, x, Idle);
      Extend(s, run, s', SignalSem(x));
      run, s' := run + [SignalSem(x)], Next(s, SignalSem(x));
    }
    if s'.pc[x] == Idle {
      HolderInside(s'.pc);
      StepKeeps(s', Increment(x));
      CountMove(s'.pc, x, Wanting);
      Extend(s, run, s', Increment(x));
      run, s' := run + [Increment(x)], Next(s', Increment(x));
    }
    WaitSemKeeps(s', x, 0);
    CountMove(s'.pc, x, Holding);
    Extend(s, run, s', WaitSem(x, 0));
    run, s' := run + [WaitSem(x, 0)], Next(s', WaitSem(x, 0));
  }

  /** A token too many beside a holder lets a second thread in. */
  lemma SecondHolder(s: Lock) returns (run: seq<Step>, s': Lock)
    requires Orderly(s) && Surplus(s) >= 1 && Holders(s.pc) == 1 && |s.pc.Keys| >= 2
    ensures Reachable(s, run, s') && Unforced(run) && Holders(s'.pc) == 2
  {
    HolderInside(s.pc);
    SignalUnit(s.sem);
    if s.sem.cnt == 1 {
      var x := NoHolder(s.pc);
      assert s.pc[x] == Sleeping ==> Waits(s.sem.queue, x);
      run, s' := TakesCount(s, x);
    } else {
      var u :| u in s.pc && s.pc[u].Signalling?;
      SignalEffect(s, u);
      StepKeeps(s, SignalSem(u));
      CountMove(s.pc, u, Idle);
      Extend(s, [], s, SignalSem(u));
      var s1 := Next(s, SignalSem(u));
      if s.sem.queue != [] {
        CountMove(s.pc[u := Idle], s.sem.queue[0].tid, Holding);
        run, s' := [] + [SignalSem(u)], s1;
      } else {
        var more;
        more, s' := TakesCount(s1, u);
        run := [SignalSem(u)] + more;
        assert [] + [SignalSem(u)] == [SignalSem(u)];
        Append(s, [SignalSem(u)], s1, more, s');
      }
    }
  }

  lemma NoHolder(pc: map<TaskId, Place>) returns (x: TaskId)
    requires Holders(pc) <= 1 && |pc.Keys| >= 2
    ensures x in pc && pc[x] != Holding
  {
    var h := Who(pc, p => p == Holding);
    assert pc.Keys == h + (pc.Keys - h);
    x :| x in pc.Keys - h;
  }

  /** With a token too many somebody can become a holder and leave it so. */
  lemma FirstHolder(s: Lock) returns (run: seq<Step>, s': Lock)
    requires Orderly(s) && Surplus(s) >= 1 && Holders(s.pc) == 0 && |s.pc.Keys| >= 2
    ensures Reachable(s, run, s') && Unforced(run) && Orderly(s') && Surplus(s') >= 1 && Holders(s'.pc) == 1
    ensures s'.pc.Keys == s.pc.Keys
  {
    HolderInside(s.pc);
    SignalUnit(s.sem);
    if s.sem.queue != [] {
      assert s.sem.queue[0] in s.sem.queue && Waits(s.sem.queue, s.sem.queue[0].tid);
      run, s' := HolderBySignal(s);
    } else if w :| w in s.pc && s.pc[w] == Wanting {
      run, s' := HolderByWait(s, w);
    } else {
      run, s' := HolderFromOutside(s);
    }
  }

  lemma HolderBySignal(s: Lock) returns (run: seq<Step>, s': Lock)
    requires Orderly(s) && Surplus(s) >= 1 && Holders(s.pc) == 0 && s.sem.queue != [] && Inside(s.pc) > 0
    ensures Reachable(s, run, s') && Unforced(run) && Orderly(s') && Surplus(s') >= 1 && Holders(s'.pc) == 1
    ensures s'.pc.Keys == s.pc.Keys
  {
    HolderInside(s.pc);
    SignalUnit(s.sem);
    var u :| u in s.pc && s.pc[u].Signalling?;
    SignalEffect(s, u);
    StepKeeps(s, SignalSem(u));
    CountMove(s.pc, u, Idle);
    CountMove(s.pc[u := Idle], s.sem.queue[0].tid, Holding);
    Extend(s, [], s, SignalSem(u));
    run, s' := [] + [SignalSem(u)], Next(s, SignalSem(u));
  }

  lemma HolderByWait(s: Lock, w: TaskId) returns (run: seq<Step>, s': Lock)
    requires Orderly(s) && Surplus(s) >= 1 && Holders(s.pc) == 0 && s.sem.queue == [] && w in s.pc && s.pc[w] == Wanting
    ensures Reachable(s, run, s') && Unforced(run) && Orderly(s') && Surplus(s') >= 1 && Holders(s'.pc) == 1
    ensures s'.pc.Keys == s.pc.Keys
  {
    HolderInside(s.pc);
    run, s' := [], s;
    if s.sem.cnt == 0 {
      var u :| u in s.pc && s.pc[u].Signalling?;
      SignalEffect(s, u);
      StepKeeps(s, SignalSem(u));
      CountMove(s.pc, u, Idle);
      Extend(s, [], s, SignalSem(u));
      run, s' := [] + [SignalSem(u)], Next(s, SignalSem(u));
    }
    WaitSemKeeps(s', w, 0);
    CountMove(s'.pc, w, Holding);
    Extend(s, run, s', WaitSem(w, 0));
    run, s' := run + [WaitSem(w, 0)], Next(s', WaitSem(w, 0));
  }

  lemma HolderFromOutside(s: Lock) returns (run: seq<Step>, s': Lock)
    requires Orderly(s) && Surplus(s) >= 1 && Holders(s.pc) == 0 && s.sem.queue == [] && |s.pc.Keys| >= 2
    requires forall w :: w in s.pc ==> s.pc[w] != Wanting
    ensures Reachable(s, run, s') && Unforced(run) && Orderly(s') && Surplus(s') >= 1 && Holders(s'.pc) == 1
    ensures s'.pc.Keys == s.pc.Keys
  {
    AllOutside(s);
    run, s' := [], s;
    var x: TaskId;
    if y :| y in s.pc && s.pc[y] == Idle {
      x := y;
    } else {
      x :| x in s.pc.Keys;
      assert Who(s.pc, p => p == Signalling) == s.pc.Keys;
      SignalEffect(s, x);
      StepKeeps(s, SignalSem(x));
      CountMove(s.pc, x, Idle);
      Extend(s, [], s, SignalSem(x));
      run, s' := [] + [SignalSem(x)], Next(s, SignalSem(x));
    }
    StepKeeps(s', Increment(x));
    CountMove(s'.pc, x, Holding);
    Extend(s, run, s', Increment(x));
    run, s' := run + [Increment(x)], Next(s', Increment(x));
  }

  lemma AllOutside(s: Lock)
    requires Orderly(s) && Holders(s.pc) == 0 && s.sem.queue == [] && forall w :: w in s.pc ==> s.pc[w] != Wanting
    ensures Inside(s.pc) == 0 && forall w :: w in s.pc ==> s.pc[w] == Idle || s.pc[w] == Signalling
  {
    HolderInside(s.pc);
    forall w | w in s.pc ensures s.pc[w] == Idle || s.pc[w] == Signalling {
      assert s.pc[w] == Sleeping ==> Waits(s.sem.queue, w);
    }
    assert Who(s.pc, (p: Place) => p.Wanting? || p.Sleeping? || p.Holding?) == {};
  }

  /** Exclusion is guaranteed in a state exactly if it has no token too many. */
  lemma ExclusiveIff(s: Lock)
    requires Orderly(s) && |s.pc.Keys| >= 2
    ensures Exclusive(s) <==> Surplus(s) == 0
  {
    if Surplus(s) == 0 {
      forall run, s' | Reachable(s, run, s') && Unforced(run) ensures Holders(s'.pc) <= 1 {
        UnforcedKeeps(s, run, s');
      }
    } else {
      var run, s' := TwoHolders(s);
      assert Reachable(s, run, s');
    }
  }

  /** A token too many leads to two threads in the critical section. */
  lemma TwoHolders(s: Lock) returns (run: seq<Step>, s': Lock)
    requires Orderly(s) && Surplus(s) >= 1 && |s.pc.Keys| >= 2
    ensures Reachable(s, run, s') && Unforced(run) && Holders(s'.pc) >= 2
  {
    run, s' := [], s;
    if Holders(s.pc) == 0 {
      run, s' := FirstHolder(s);
    }
    if Holders(s'.pc) == 1 {
      var more, s2 := SecondHolder(s');
      Append(s, run, s', more, s2);
      run, s' := run + more, s2;
    }
  }

  lemma {:induction false} Prefix(s: Lock, run: seq<Step>, s': Lock, i: nat) returns (s1: Lock)
    requires Reachable(s, run, s') && i <= |run|
    ensures Reachable(s, run[..i], s1) && Reachable(s1, run[i..], s')
    decreases i
  {
    if i == 0 {
      s1 := s;
      assert run[0..] == run;
    } else {
      s1 := Prefix(Next(s, run[0]), run[1..], s', i - 1);
      assert run[..i][1..] == run[1..][..i - 1] && run[1..][i - 1..] == run[i..];
    }
  }

  /** After a forced release of a blocked thread exclusion is no longer guaranteed: two
      threads can be in the critical section without any further forced release. */
  lemma ForcedReleaseBreaksExclusion(s: Lock, t: TaskId) returns (run: seq<Step>, s': Lock)
    requires Orderly(s) && Enabled(s, Force(t))
    ensures Reachable(Next(s, Force(t)), run, s') && Unforced(run) && Holders(s'.pc) >= 2
  {
    StepKeeps(s, Force(t));
    Two(s, t);
    run, s' := TwoHolders(Next(s, Force(t)));
  }

  /** A sleeper is not alone. */
  lemma Two(s: Lock, t: TaskId)
    requires Orderly(s) && t in s.pc && s.pc[t] == Sleeping
    ensures |s.pc.Keys| >= 2
  {
    assert Waits(s.sem.queue, t);
    SignalUnit(s.sem);
    HolderInside(s.pc);
    var u :| u in s.pc && (s.pc[u].Holding? || s.pc[u].Signalling?);
    SubsetSize({t, u}, s.pc.Keys);
  }

  /** Exclusion is guaranteed after the first `i` steps of the run. */
  ghost predicate ExclusiveAt(s: Lock, run: seq<Step>, i: nat)
    requires i <= |run|
  {
    forall si {:trigger Reachable(s, run[..i], si)} :: Reachable(s, run[..i], si) ==> Exclusive(si)
  }

  /** Along a run from the creation, exclusion is guaranteed at every point exactly if no
      blocked thread was released by force. */
  lemma ExclusionExactlyIfUnforced(threads: set<TaskId>, run: seq<Step>, s: Lock)
    requires Reachable(Created(threads), run, s)
    ensures (forall i: nat :: i <= |run| ==> ExclusiveAt(Created(threads), run, i)) <==> Unforced(run)
  {
    CreatedInv(threads);
    if Unforced(run) {
      forall i: nat | i <= |run| ensures ExclusiveAt(Created(threads), run, i) {
        UnforcedExclusive(Created(threads), run, i);
      }
    } else {
      var i := ForcedNotExclusive(Created(threads), run, s);
    }
  }

  lemma UnforcedExclusive(s: Lock, run: seq<Step>, i: nat)
    requires Inv(s) && Unforced(run) && i <= |run|
    ensures ExclusiveAt(s, run, i)
  {
    forall si | Reachable(s, run[..i], si) ensures Exclusive(si) {
      UnforcedKeeps(s, run[..i], si);
      forall more, s' | Reachable(si, more, s') && Unforced(more) ensures Holders(s'.pc) <= 1 {
        UnforcedKeeps(si, more, s');
      }
    }
  }

  lemma ForcedNotExclusive(s: Lock, run: seq<Step>, s': Lock) returns (i: nat)
    requires Inv(s) && Reachable(s, run, s') && !Unforced(run)
    ensures i <= |run| && !ExclusiveAt(s, run, i)
  {
    var k := FirstForce(run);
    var sk := Prefix(s, run, s', k);
    UnforcedKeeps(s, run[..k], sk);
    assert Enabled(sk, run[k]);
    var more, s2 := ForcedReleaseBreaksExclusion(sk, run[k].t);
    OneMore(s, run, k, sk);
    assert !Exclusive(Next(sk, run[k])) by { assert Reachable(Next(sk, run[k]), more, s2); }
    i := k + 1;
    assert Reachable(s, run[..i], Next(sk, run[k]));
  }

  lemma {:induction false} FirstForce(run: seq<Step>) returns (i: nat)
    requires !Unforced(run)
    ensures i < |run| && run[i].Force? && Unforced(run[..i])
    decreases |run|
  {
    if run[0].Force? {
      i := 0;
    } else {
      i := FirstForce(run[1..]);
      assert run[..i + 1] == [run[0]] + run[1..][..i];
      i := i + 1;
    }
  }

  lemma {:induction false} OneMore(s: Lock, run: seq<Step>, i: nat, si: Lock)
    requires i < |run| && Reachable(s, run[..i], si) && Enabled(si, run[i])
    ensures Reachable(s, run[..i + 1], Next(si, run[i]))
  {
    assert [run[i]][1..] == [];
    assert Reachable(si, [run[i]], Next(si, run[i]));
    Append(s, run[..i], si, [run[i]], Next(si, run[i]));
    assert run[..i] + [run[i]] == run[..i + 1];
  }
}
