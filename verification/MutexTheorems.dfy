/**
 What the global invariant of the mutex layer means: priorities are determined by
 who holds and awaits what, and each one is the best that the task itself or any
 task blocked behind it through inherit mutexes is entitled to.
 */
module MutexTheorems {
  import opened Common
  import opened MutexSpec
  import opened MutexSteps
  import opened Mutex

  /** `y` is reached from `x` by `n` waits-for edges, all through inherit mutexes. */
  ghost predicate InheritPath(T: Tasks, M: Mutexes, x: TaskId, y: TaskId, n: nat)
    decreases n
  {
    if n == 0 then x == y
    else HasNext(T, M, x) && M[T[x].state.on.m].proto == Inherit && InheritPath(T, M, Next(T, M, x), y, n - 1)
  }

  /** `u` is entitled to priority `p` without any inheritance. */
  ghost predicate Entitled(T: Tasks, M: Mutexes, u: TaskId, p: int) {
    u in T && (p == T[u].bpri || exists m :: m in T[u].held && m in M && M[m].proto == Ceiling && p == M[m].ceil)
  }

  /** Ranks have an upper bound. */
  lemma {:induction false} RankBound(rank: map<TaskId, nat>) returns (n: nat)
    ensures forall t :: t in rank ==> rank[t] < n
    decreases |rank|
  {
    if |rank| == 0 {
      n := 0;
    } else {
      var x :| x in rank;
      var rest := rank - {x};
      n := RankBound(rest);
      if n <= rank[x] { n := rank[x] + 1; }
      assert forall t :: t in rank && t != x ==> t in rest && rest[t] == rank[t];
    }
  }

  /** The owner of an inherit mutex is at least as urgent as every waiter. */
  lemma OwnerBeatsWaiter(T: Tasks, M: Mutexes, t: TaskId)
    requires Consistent(T, M) && HasNext(T, M, t) && M[T[t].state.on.m].proto == Inherit
    ensures Next(T, M, t) in T && T[Next(T, M, t)].pri <= T[t].pri
  {
    var m, o := T[t].state.on.m, Next(T, M, t);
    assert WaitsOn(T, t, m);
    RingMin(T, M, m, t);
    assert m in T[o].held && Offers(T, M, m, T[M[m].queue[0]].pri) && IsBest(T, M, o, T[o].pri);
  }

  /** No priority inversion along a chain: whoever blocks `x`, directly or through
      others, runs at least at the priority of `x`. */
  lemma {:induction false} ChainBoost(T: Tasks, M: Mutexes, x: TaskId, y: TaskId, n: nat)
    requires Consistent(T, M) && x in T && InheritPath(T, M, x, y, n)
    ensures y in T && T[y].pri <= T[x].pri
    decreases n
  {
    if n > 0 {
      OwnerBeatsWaiter(T, M, x);
      ChainBoost(T, M, Next(T, M, x), y, n - 1);
    }
  }

  /** No phantom boost: a priority is always somebody's own entitlement. */
  lemma {:induction false} Support(T: Tasks, M: Mutexes, rank: map<TaskId, nat>, bound: nat, t: TaskId)
      returns (u: TaskId, n: nat)
    requires Consistent(T, M) && Ranked(T, M, rank) && t in T && forall x :: x in rank ==> rank[x] < bound
    ensures InheritPath(T, M, u, t, n) && Entitled(T, M, u, T[t].pri)
    decreases bound - rank[t]
  {
    assert IsBest(T, M, t, T[t].pri);
    if Entitled(T, M, t, T[t].pri) {
      u, n := t, 0;
    } else {
      var m :| m in T[t].held && Offers(T, M, m, T[t].pri);
      assert M[m].proto == Inherit;
      var h := M[m].queue[0];
      assert h in M[m].queue;
      BehindOwner(T, M, rank, t, m, h);
      u, n := Support(T, M, rank, bound, h);
      PathSnoc(T, M, u, h, n);
      n := n + 1;
    }
  }

  lemma {:induction false} PathSnoc(T: Tasks, M: Mutexes, u: TaskId, h: TaskId, n: nat)
    requires InheritPath(T, M, u, h, n) && HasNext(T, M, h) && M[T[h].state.on.m].proto == Inherit
    ensures InheritPath(T, M, u, Next(T, M, h), n + 1)
    decreases n
  {
    if n > 0 {
      PathSnoc(T, M, Next(T, M, u), h, n - 1);
    } else {
      assert InheritPath(T, M, Next(T, M, h), Next(T, M, h), 0);
    }
  }

  /** A task runs exactly at the best entitlement found among itself and all the
      tasks that wait for it, directly or indirectly, through inherit mutexes. */
  lemma EffectivePriority(T: Tasks, M: Mutexes, t: TaskId)
    requires Consistent(T, M) && t in T
    ensures exists u, n: nat :: InheritPath(T, M, u, t, n) && Entitled(T, M, u, T[t].pri)
    ensures forall u, n: nat, p :: u in T && InheritPath(T, M, u, t, n) && Entitled(T, M, u, p) ==> T[t].pri <= p
  {
    var rank :| Ranked(T, M, rank);
    var bound := RankBound(rank);
    var v, k := Support(T, M, rank, bound, t);
    forall u, n: nat, p | u in T && InheritPath(T, M, u, t, n) && Entitled(T, M, u, p) ensures T[t].pri <= p {
      ChainBoost(T, M, u, t, n);
      assert IsBest(T, M, u, T[u].pri);
      if p != T[u].bpri {
        var m :| m in T[u].held && m in M && M[m].proto == Ceiling && p == M[m].ceil;
        assert Offers(T, M, m, p);
      }
    }
  }

  /** Two consistent states that differ only in priorities and ring orders have the
      same priorities: what the propagation computes does not depend on history. */
  lemma PrioritiesDetermined(T: Tasks, M: Mutexes, T': Tasks, M': Mutexes)
    requires Consistent(T, M) && Consistent(T', M') && SamePlumbing(T, M, T', M')
    ensures T' == T
  {
    var rank :| Ranked(T, M, rank);
    var bound := RankBound(rank);
    forall t | t in T ensures T'[t] == T[t] {
      SamePriority(T, M, T', M', rank, bound, t);
    }
  }

  lemma {:induction false} SamePriority(T: Tasks, M: Mutexes, T': Tasks, M': Mutexes, rank: map<TaskId, nat>,
                                        bound: nat, t: TaskId)
    requires Consistent(T, M) && Consistent(T', M') && SamePlumbing(T, M, T', M')
    requires Ranked(T, M, rank) && t in T && forall x :: x in rank ==> rank[x] < bound
    ensures T'[t].pri == T[t].pri
    decreases bound - rank[t]
  {
    assert IsBest(T, M, t, T[t].pri) && IsBest(T', M', t, T'[t].pri);
    forall m, q | m in T[t].held && Offers(T, M, m, q) ensures Offers(T', M', m, q) {
      if M[m].proto == Inherit {
        SameHead(T, M, T', M', rank, bound, t, m);
      }
    }
    assert T'[t].pri <= T[t].pri;
    forall m, q | m in T[t].held && Offers(T', M', m, q) ensures Offers(T, M, m, q) {
      if M[m].proto == Inherit {
        SameMembersEmpty(M[m].queue, M'[m].queue);
        SameHead(T, M, T', M', rank, bound, t, m);
      }
    }
  }

  /** Heads of the two orders of a ring have equal priority, since its members have. */
  lemma {:induction false} SameHead(T: Tasks, M: Mutexes, T': Tasks, M': Mutexes, rank: map<TaskId, nat>, bound: nat,
                                    t: TaskId, m: MtxId)
    requires Consistent(T, M) && Consistent(T', M') && SamePlumbing(T, M, T', M')
    requires Ranked(T, M, rank) && t in T && forall x :: x in rank ==> rank[x] < bound
    requires m in T[t].held && m in M && M[m].proto == Inherit && M[m].queue != []
    ensures M'[m].queue != [] && M[m].queue[0] in T && M'[m].queue[0] in T'
    ensures T'[M'[m].queue[0]].pri == T[M[m].queue[0]].pri
    decreases bound - rank[t], 0
  {
    SameMembersEmpty(M[m].queue, M'[m].queue);
    var h, h' := M[m].queue[0], M'[m].queue[0];
    assert h in M[m].queue && h in M'[m].queue && h' in M'[m].queue && h' in M[m].queue;
    BehindOwner(T, M, rank, t, m, h);
    BehindOwner(T, M, rank, t, m, h');
    SamePriority(T, M, T', M', rank, bound, h);
    SamePriority(T, M, T', M', rank, bound, h');
    RingMin(T, M, m, h');
    RingMin(T', M', m, h);
  }

  /** A waiter of `m` comes before the owner of `m` in the waits-for order. */
  lemma BehindOwner(T: Tasks, M: Mutexes, rank: map<TaskId, nat>, t: TaskId, m: MtxId, x: TaskId)
    requires Consistent(T, M) && Ranked(T, M, rank) && t in T && m in T[t].held && m in M && x in M[m].queue
    ensures x in T && x in rank && rank[t] < rank[x] && HasNext(T, M, x) && Next(T, M, x) == t && T[x].state.on.m == m
  {
    assert WaitsOn(T, x, m);
  }

  lemma RingMin(T: Tasks, M: Mutexes, m: MtxId, x: TaskId)
    requires Consistent(T, M) && m in M && M[m].proto != Fifo && x in M[m].queue
    ensures M[m].queue[0] in T && x in T && T[M[m].queue[0]].pri <= T[x].pri
  {
    assert M[m].queue[0] in M[m].queue;
    HeadIsMin(T, M[m].queue, x);
  }

  /** When tk_loc_mtx gives which answer: it refuses exactly the mutex that `c` owns already and
      the one whose ceiling rule `c` would break by getting it. */
  lemma LockAnswers(T: Tasks, M: Mutexes, c: TaskId, m: MtxId, poll: bool)
    requires Consistent(T, M) && c in T
    ensures var r := LockOutcome(T, M, c, m, poll);
            && (r == Done(E_NOEXS) <==> m !in M)
            && (r == Done(E_ILUSE) <==>
                m in M && (M[m].owner == Some(c) || !CeilingsRespected(TakenT(T, c, m), TakenM(M, c, m))))
            && (r == Done(E_OK) <==>
                m in M && M[m].owner.None? && CeilingsRespected(TakenT(T, c, m), TakenM(M, c, m)))
            && ((if poll then r == Done(E_TMOUT) else r.Blocked?) <==>
                m in M && M[m].owner.Some? && M[m].owner != Some(c)
                && CeilingsRespected(TakenT(T, c, m), TakenM(M, c, m)))
  {
    if m in M {
      var T', M' := TakenT(T, c, m), TakenM(M, c, m);
      assert m in T'[c].held;
      assert forall k :: k in T'[c].held <==> k == m || k in T[c].held;
      assert forall u, k :: WaitsOn(T', u, k) <==> WaitsOn(T, u, k);
    }
  }

  /** An unlocked mutex goes to a waiter of the highest priority, or to the one that has waited
      longest with TA_TFIFO, if anybody waits; otherwise it is free. */
  lemma BestWaiterGets(T: Tasks, M: Mutexes, T': Tasks, M': Mutexes, c: TaskId, m: MtxId)
    requires Consistent(T, M) && c in T && m in M && Unlocked(T, M, T', M', c, m)
    ensures m in M' && (M'[m].owner.None? <==> M[m].queue == [])
    ensures M'[m].owner.Some? ==>
              && M'[m].owner.value in M[m].queue && M'[m].owner.value !in M'[m].queue
              && forall u :: u in M[m].queue ==> u in T && M'[m].owner.value in T
                                                 && (M[m].proto != Fifo ==> T[M'[m].owner.value].pri <= T[u].pri)
                                                 && (u != M'[m].owner.value ==> u in M'[m].queue)
  {
    if M[m].queue != [] {
      var q := M[m].queue;
      TailNoDup(q);
      forall u | u in q ensures u in T && q[0] in T && (M[m].proto != Fifo ==> T[q[0]].pri <= T[u].pri) {
        assert q[0] in q && WaitsOn(T, u, m) && WaitsOn(T, q[0], m);
        if M[m].proto != Fifo { RingMin(T, M, m, u); }
      }
    }
  }

  /** Locking a free mutex and unlocking it again changes nothing: no priority, no chain,
      no ring. */
  method UnlockUndoesLock(k: Kernel, c: TaskId, m: MtxId) returns (r: LockResult)
    requires k.Valid() && c in k.tsk && !k.tsk[c].state.Waiting? && !k.tsk[c].state.Dormant?
    modifies k
    ensures k.Valid() && k.tsk == old(k.tsk) && k.mtx == old(k.mtx)
  {
    r := k.TkLocMtx(c, m, true);
    if r == Done(E_OK) {
      ghost var T1, M1 := k.tsk, k.mtx;
      var er := k.TkUnlMtx(c, m);
      RestoredPlumbing(old(k.tsk), old(k.mtx), T1, M1, k.tsk, k.mtx, c, m);
      PrioritiesDetermined(old(k.tsk), old(k.mtx), k.tsk, k.mtx);
    }
  }

  lemma RestoredPlumbing(T0: Tasks, M0: Mutexes, T1: Tasks, M1: Mutexes, T: Tasks, M: Mutexes, c: TaskId, m: MtxId)
    requires Consistent(T0, M0) && c in T0 && m in M0 && M0[m].owner.None? && c in T1 && m in M1
    requires M1 == TakenM(M0, c, m) && T1 == TakenT(T0, c, m)[c := TakenT(T0, c, m)[c].(pri := T1[c].pri)]
    requires Unlocked(T1, M1, T, M, c, m)
    ensures SamePlumbing(T0, M0, T, M) && M == M0
  {
    assert M0[m].queue == [];
    assert Without([m] + T0[c].held, m) == T0[c].held by { assert ([m] + T0[c].held)[1..] == T0[c].held; }
    assert M == M0;
  }

  /** A wait that ends by timeout or forced release leaves no trace: every task that was
      raised on its behalf, however far along the chain, has its old priority again. */
  method GivingUpUndoesWaiting(k: Kernel, c: TaskId, m: MtxId) returns (r: LockResult)
    requires k.Valid() && c in k.tsk && !k.tsk[c].state.Waiting? && !k.tsk[c].state.Dormant?
    requires m in k.mtx && k.mtx[m].owner.Some? && k.mtx[m].owner != Some(c)
             && !Reaches(k.tsk, k.mtx, k.mtx[m].owner.value, c)
    modifies k
    ensures k.Valid() && k.tsk == old(k.tsk) && SamePlumbing(old(k.tsk), old(k.mtx), k.tsk, k.mtx)
  {
    r := k.TkLocMtx(c, m, false);
    if r.Blocked? {
      ghost var T1, M1 := k.tsk, k.mtx;
      SleepsOn(old(k.tsk), old(k.mtx), T1, M1, c, m, old(k.mtx)[m].owner.value);
      k.ReleaseWait(c);
      LeftNoTrace(old(k.tsk), old(k.mtx), T1, M1, k.tsk, k.mtx, c, m, old(k.mtx)[m].owner.value);
      PrioritiesDetermined(old(k.tsk), old(k.mtx), k.tsk, k.mtx);
    }
  }

  lemma SleepsOn(T0: Tasks, M0: Mutexes, T1: Tasks, M1: Mutexes, c: TaskId, m: MtxId, o: TaskId)
    requires c in T0 && m in M0 && LockWaited(T0, M0, T1, M1, c, m, o)
    ensures WaitsOn(T1, c, m) && m in M1
  {
  }

  lemma LeftNoTrace(T0: Tasks, M0: Mutexes, T1: Tasks, M1: Mutexes, T: Tasks, M: Mutexes, c: TaskId, m: MtxId,
                    o: TaskId)
    requires c in T0 && m in M0 && !T0[c].state.Waiting? && !T0[c].state.Dormant? && Consistent(T0, M0)
             && Consistent(T1, M1)
    requires LockWaited(T0, M0, T1, M1, c, m, o) && Released(T1, M1, T, M, c)
    ensures SamePlumbing(T0, M0, T, M)
  {
    SleepsOn(T0, M0, T1, M1, c, m, o);
    RingFacts(T0, M0, m);
    RingFacts(T1, M1, m);
    WithoutNoDup(M1[m].queue, c);
    WithoutSnoc(M0[m].queue, c, c);
    PlumbingBack(T0, M0, T1, M1, T, M, c, m, Without(M1[m].queue, c));
  }

  lemma RingFacts(T: Tasks, M: Mutexes, m: MtxId)
    requires Consistent(T, M) && m in M
    ensures NoDup(M[m].queue) && forall u :: u in M[m].queue ==> WaitsOn(T, u, m)
  {
  }

  /** Joining a ring and leaving it again, up to priorities and ring orders. */
  lemma PlumbingBack(T0: Tasks, M0: Mutexes, T1: Tasks, M1: Mutexes, T: Tasks, M: Mutexes, c: TaskId, m: MtxId,
                     r: seq<TaskId>)
    requires c in T0 && m in M0 && !T0[c].state.Waiting? && !T0[c].state.Dormant? && c in T1 && m in M1
             && c !in M0[m].queue
    requires SamePlumbing(JoinedT(T0, c, m), WithRing(M0, m, M0[m].queue + [c]), T1, M1)
    requires SamePlumbing(LeftT(T1, c), WithRing(M1, m, r), T, M) && forall u :: u in r <==> u in M1[m].queue && u != c
    requires M0[m].proto == Fifo ==> r == M0[m].queue
    ensures SamePlumbing(T0, M0, T, M)
  {
    TasksAreBack(T0, M0, T1, M1, T, M, c, m, r);
    forall x | x in M0 ensures RingBack(M0, M, x) { RingIsBack(T0, M0, T1, M1, T, M, c, m, r, x); }
  }

  lemma TasksAreBack(T0: Tasks, M0: Mutexes, T1: Tasks, M1: Mutexes, T: Tasks, M: Mutexes, c: TaskId, m: MtxId,
                     r: seq<TaskId>)
    requires c in T0 && m in M0 && !T0[c].state.Waiting? && !T0[c].state.Dormant? && c in T1 && m in M1
    requires SamePlumbing(JoinedT(T0, c, m), WithRing(M0, m, M0[m].queue + [c]), T1, M1)
    requires SamePlumbing(LeftT(T1, c), WithRing(M1, m, r), T, M)
    ensures T.Keys == T0.Keys && M.Keys == M0.Keys && forall u :: u in T0 ==> T[u] == T0[u].(pri := T[u].pri)
  {
    forall u | u in T0 ensures T[u] == T0[u].(pri := T[u].pri) {
      assert u in T1 && T1[u].(pri := 0) == JoinedT(T0, c, m)[u].(pri := 0);
    }
  }

  ghost predicate RingBack(M0: Mutexes, M: Mutexes, x: MtxId) {
    && x in M0 && x in M && M[x] == M0[x].(queue := M[x].queue)
    && (forall u :: u in M[x].queue <==> u in M0[x].queue)
    && (M0[x].proto == Fifo ==> M[x].queue == M0[x].queue)
  }

  lemma RingIsBack(T0: Tasks, M0: Mutexes, T1: Tasks, M1: Mutexes, T: Tasks, M: Mutexes, c: TaskId, m: MtxId,
                   r: seq<TaskId>, x: MtxId)
    requires c in T0 && m in M0 && c in T1 && m in M1 && c !in M0[m].queue && x in M0
    requires SamePlumbing(JoinedT(T0, c, m), WithRing(M0, m, M0[m].queue + [c]), T1, M1)
    requires SamePlumbing(LeftT(T1, c), WithRing(M1, m, r), T, M) && forall u :: u in r <==> u in M1[m].queue && u != c
    requires M0[m].proto == Fifo ==> r == M0[m].queue
    ensures RingBack(M0, M, x)
  {
    assert x in M1 && M1[x].(queue := []) == M0[x].(queue := []);
    assert forall u :: u in M1[x].queue <==> u in WithRing(M0, m, M0[m].queue + [c])[x].queue;
    assert forall u :: u in M[x].queue <==> u in WithRing(M1, m, r)[x].queue;
  }
}
