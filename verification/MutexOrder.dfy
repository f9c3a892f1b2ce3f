/**
 The order in which waiters get a FIFO mutex: what each system call does to its ring,
 and what that means over whole runs.
 */
module MutexOrder {
  import opened Common
  import opened FirstCome
  import opened MutexSpec
  import opened MutexSteps

  /** The calls, as far as a FIFO ring notices them. */
  datatype Call =
    /** tk_loc_mtx of `m` that makes `c` wait. */
    | Blocks(c: TaskId, m: MtxId)
    /** tk_unl_mtx that its caller is entitled to. */
    | Unlocks(m: MtxId)
    /** Timeout or forced release of the wait of `t`. */
    | GivesUp(t: TaskId)
    /** Termination of `t`. */
    | Dies(t: TaskId)
    | Other

  ghost predicate JoinsBehind(c: TaskId, a: Mtxcb, b: Mtxcb) {
    c !in a.queue && a.owner.Some? && a.owner != Some(c) && b == a.(queue := a.queue + [c])
  }

  /** What the call does to a FIFO mutex `m`: `a` becomes `b`. */
  ghost predicate RingStep(call: Call, m: MtxId, a: Mtxcb, b: Mtxcb) {
    match call
    case Blocks(c, k) => if k == m then JoinsBehind(c, a, b) else b == a
    case Unlocks(k) => if k == m then Inherited(a, b) else b == a
    case GivesUp(t) => b == a.(queue := Without(a.queue, t))
    case Dies(t) => if a.owner == Some(t) then Inherited(a, b) else b == a.(queue := Without(a.queue, t))
    case Other => b == a || (a.owner.None? && a.queue == [] && b == a.(owner := b.owner))
  }

  /** The call does so to every FIFO mutex.  (An equation, so that the verifier hands it on
      as one fact.) */
  ghost predicate FifoStep(M: Mutexes, M': Mutexes, call: Call) {
    true == (forall m :: m in M && m in M' && M[m].proto == Fifo ==> RingStep(call, m, M[m], M'[m]))
  }

  // ------------------------------------------------------------------ one call

  /** Calls that leave rings and owners alone, but for priorities. */
  lemma PlumbingStep(T: Tasks, M: Mutexes, T': Tasks, M': Mutexes)
    requires SamePlumbing(T, M, T', M')
    ensures FifoStep(M, M', Other)
  {
  }

  lemma TakeStep(T: Tasks, M: Mutexes, c: TaskId, m: MtxId)
    requires Consistent(T, M) && m in M && M[m].owner.None?
    ensures FifoStep(M, TakenM(M, c, m), Other)
  {
  }

  lemma BlockStep(T0: Tasks, M0: Mutexes, T: Tasks, M: Mutexes, c: TaskId, m: MtxId, o: TaskId)
    requires Consistent(T0, M0) && c in T0 && !T0[c].state.Waiting? && m in M0 && LockWaited(T0, M0, T, M, c, m, o)
    requires M0[m].owner == Some(o) && o != c
    ensures FifoStep(M0, M, Blocks(c, m))
  {
    assert !WaitsOn(T0, c, m);
  }

  lemma UnlockStep(T0: Tasks, M0: Mutexes, T: Tasks, M: Mutexes, c: TaskId, m: MtxId)
    requires c in T0 && m in M0 && Unlocked(T0, M0, T, M, c, m)
    ensures FifoStep(M0, M, Unlocks(m))
  {
  }

  lemma ReleaseStep(T0: Tasks, M0: Mutexes, T: Tasks, M: Mutexes, t: TaskId)
    requires Consistent(T0, M0) && Released(T0, M0, T, M, t)
    ensures FifoStep(M0, M, GivesUp(t))
  {
    forall m | m in M0 && m in M && M0[m].proto == Fifo ensures RingStep(GivesUp(t), m, M0[m], M[m]) {
      assert t in M0[m].queue ==> WaitsOn(T0, t, m);
    }
  }

  lemma TerminateStep(T0: Tasks, M0: Mutexes, M: Mutexes, t: TaskId)
    requires Consistent(T0, M0) && t in T0 && Terminated(T0, M0, M, t)
    ensures FifoStep(M0, M, Dies(t))
  {
    forall m | m in M0 && m in M && M0[m].proto == Fifo ensures RingStep(Dies(t), m, M0[m], M[m]) {
      assert m in T0[t].held <==> M0[m].owner == Some(t);
    }
  }

  lemma DeleteStep(T0: Tasks, M0: Mutexes, T: Tasks, M: Mutexes, m: MtxId)
    requires m in M0 && Deleted(T0, M0, T, M, m)
    ensures FifoStep(M0, M, Other)
  {
  }

  // ------------------------------------------------------------------ whole runs

  /** Mutex tables before, between and after the calls; FIFO mutex `m` lives throughout. */
  ghost predicate IsRun(ms: seq<Mutexes>, calls: seq<Call>, m: MtxId) {
    && |ms| == |calls| + 1
    && (forall i :: 0 <= i < |ms| ==> m in ms[i] && ms[i][m].proto == Fifo)
    && (forall i :: 0 <= i < |calls| ==> FifoStep(ms[i], ms[i + 1], calls[i]))
  }

  /** Who was waiting for the mutex before the step and owns it behind it. */
  function Heir(a: Mtxcb, b: Mtxcb): seq<TaskId> {
    if b.owner.Some? && b.owner != a.owner && b.owner.value in a.queue then [b.owner.value] else []
  }

  /** All waiters that became owners, in order. */
  ghost function Heirs(ms: seq<Mutexes>, m: MtxId): seq<TaskId>
    requires ms != [] && forall i :: 0 <= i < |ms| ==> m in ms[i]
  {
    if |ms| == 1 then [] else Heir(ms[0][m], ms[1][m]) + Heirs(ms[1..], m)
  }

  /** Who came to wait and who gave up: read off the calls and who waits, whatever the order. */
  ghost function Events(call: Call, m: MtxId, a: Mtxcb, b: Mtxcb): seq<Event> {
    match call
    case Blocks(c, k) => if k == m then [Comes(c)] else []
    case GivesUp(t) => if t in a.queue then [Quits(t)] else []
    case Dies(t) => if t in a.queue && a.owner != Some(t) then [Quits(t)] else [Serves(Heir(a, b))]
    case _ => [Serves(Heir(a, b))]
  }

  ghost function History(ms: seq<Mutexes>, calls: seq<Call>, m: MtxId): seq<Event>
    requires IsRun(ms, calls, m)
    decreases |calls|
  {
    if calls == [] then [] else Events(calls[0], m, ms[0][m], ms[1][m]) + History(ms[1..], calls[1..], m)
  }

  ghost predicate RingOk(a: Mtxcb) {
    NoDup(a.queue) && (a.owner.Some? ==> a.owner.value !in a.queue)
  }

  /** Nobody waits for its own mutex. */
  lemma OwnerElsewhere(T: Tasks, M: Mutexes, m: MtxId)
    requires Consistent(T, M) && m in M
    ensures RingOk(M[m])
  {
    var rank :| Ranked(T, M, rank);
    forall u | u in M[m].queue ensures M[m].owner != Some(u) {
      assert WaitsOn(T, u, m);
    }
  }

  lemma HeirFirst(a: Mtxcb, b: Mtxcb)
    requires Inherited(a, b) && (a.queue != [] ==> a.owner != Some(a.queue[0]))
    ensures Heir(a, b) == a.queue[..|Heir(a, b)|] && b.queue == a.queue[|Heir(a, b)|..]
  {
  }

  /** One call. */
  lemma StepLeads(call: Call, m: MtxId, a: Mtxcb, b: Mtxcb)
    requires RingStep(call, m, a, b) && RingOk(a)
    ensures RingOk(b)
    ensures Leads(a.queue, Events(call, m, a, b), b.queue)
    ensures Done(Events(call, m, a, b)) == Heir(a, b)
  {
    var es := Events(call, m, a, b);
    if es != [] {
      assert Done(es[1..]) == [] by { assert es[1..] == []; }
      assert es == [es[0]];
      if es[0].Serves? {
        if Inherited(a, b) { HeirFirst(a, b); }
        assert a.queue[0..] == a.queue;
      }
      LeadsOne(a.queue, es[0]);
    }
    StepOk(call, m, a, b);
  }

  lemma StepOk(call: Call, m: MtxId, a: Mtxcb, b: Mtxcb)
    requires RingStep(call, m, a, b) && RingOk(a)
    ensures RingOk(b)
  {
    match call {
      case Blocks(c, k) => if k == m { SnocNoDup(a.queue, c); }
      case GivesUp(t) => WithoutNoDup(a.queue, t);
      case Dies(t) =>
        WithoutNoDup(a.queue, t);
        if a.queue != [] { TailNoDup(a.queue); }
      case Unlocks(_) => if a.queue != [] { TailNoDup(a.queue); }
      case Other =>
    }
  }

  lemma {:induction false} RunLeads(ms: seq<Mutexes>, calls: seq<Call>, m: MtxId)
    requires IsRun(ms, calls, m) && RingOk(ms[0][m])
    ensures Leads(ms[0][m].queue, History(ms, calls, m), ms[|calls|][m].queue)
    ensures Done(History(ms, calls, m)) == Heirs(ms, m)
    decreases |calls|
  {
    if calls != [] {
      var a, b := ms[0][m], ms[1][m];
      var es, rest := Events(calls[0], m, a, b), History(ms[1..], calls[1..], m);
      assert FifoStep(ms[0], ms[1], calls[0]);
      StepLeads(calls[0], m, a, b);
      RunLeads(ms[1..], calls[1..], m);
      LeadsJoin(a.queue, es, b.queue, rest, ms[|calls|][m].queue);
      DoneJoin(es, rest);
    }
  }

  /** Over every run, the waiters of a FIFO mutex become its owners in the order in which
      they began to wait, but for those that gave up; the rest still waits in that order. */
  lemma FifoInOrder(T: Tasks, ms: seq<Mutexes>, calls: seq<Call>, m: MtxId)
    requires IsRun(ms, calls, m) && Consistent(T, ms[0])
    ensures Standing(ms[0][m].queue, History(ms, calls, m)) == Heirs(ms, m) + ms[|calls|][m].queue
  {
    var q := ms[0][m].queue;
    OwnerElsewhere(T, ms[0], m);
    RunLeads(ms, calls, m);
    InOrder([], q, History(ms, calls, m), ms[|calls|][m].queue);
    assert [] + q == q && [] + Heirs(ms, m) == Heirs(ms, m);
  }
}
