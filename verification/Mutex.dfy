/**
 The mutex system calls over the task table, with the mutually recursive
 priority propagation of knl_change_task_priority, mtx_chg_pri and
 knl_release_mutex.  `rank` is a ghost witness that the waits-for graph has no
 cycle; it is also the termination measure of the propagation.
 */
module Mutex {
  import opened Common
  import opened MutexSpec
  import opened MutexSteps
  import opened MutexOrder

  datatype LockResult = Done(er: Er) | Blocked

  /** The answer of tk_loc_mtx to a live caller `c`. */
  function LockOutcome(T: Tasks, M: Mutexes, c: TaskId, m: MtxId, poll: bool): LockResult
    requires c in T
  {
    if m !in M then Done(E_NOEXS)
    else if M[m].owner == Some(c) || (M[m].proto == Ceiling && T[c].bpri < M[m].ceil) then Done(E_ILUSE)
    else if M[m].owner.None? then Done(E_OK)
    else if poll then Done(E_TMOUT)
    else Blocked
  }

  class Kernel {
    var tsk: Tasks
    var mtx: Mutexes

    ghost predicate Valid()
      reads this
    {
      Consistent(tsk, mtx)
    }

    // ----------------------------------------------------------- propagation

    /** knl_queue_insert_tpri: link `t` before the first task of lower priority. */
    method QueueInsertTpri(q: seq<TaskId>, t: TaskId) returns (r: seq<TaskId>)
      requires t in tsk && forall u :: u in q ==> u in tsk
      ensures r == InsertTpri(tsk, q, t)
    {
      var i := 0;
      while i < |q| && tsk[q[i]].pri <= tsk[t].pri
        invariant 0 <= i <= |q|
        invariant forall k :: 0 <= k < i ==> tsk[q[k]].pri <= tsk[t].pri
      {
        i := i + 1;
      }
      assert i == InsertPos(tsk, q, tsk[t].pri);
      r := q[..i] + [t] + q[i..];
    }

    /** knl_change_task_priority. */
    method ChangeTaskPriority(t: TaskId, p: int, ghost rank: map<TaskId, nat>, ghost S: set<TaskId>,
                              ghost limbo: set<MtxId>)
      requires t in tsk && Shape(tsk, mtx, limbo) && Ranked(tsk, mtx, rank) && BestExcept(tsk, mtx, S + {t})
      requires Settled(mtx, rank, rank[t], S, limbo)
      modifies this
      ensures SamePlumbing(old(tsk), old(mtx), tsk, mtx) && Shape(tsk, mtx, limbo)
      ensures tsk[t].pri == p && BestExcept(tsk, mtx, S + {t})
      ensures IsBest(old(tsk), old(mtx), t, p) ==> IsBest(tsk, mtx, t, p)
      ensures Upstream(old(tsk), old(mtx), tsk, mtx, rank, t)
      ensures p <= old(tsk[t].pri) ==> RaisedTo(old(tsk), tsk, p)
      ensures !old(tsk[t].state.Waiting?) ==> mtx == old(mtx) && tsk == old(tsk)[t := old(tsk[t]).(pri := p)]
      decreases rank[t], 2
    {
      var oldpri := tsk[t].pri;
      assert forall m :: WaitsOn(tsk, t, m) ==> m in mtx;
      if tsk[t].state.Waiting? && tsk[t].state.on.OnMutex? && mtx[tsk[t].state.on.m].proto != Fifo {
        ghost var T0 := tsk;
        tsk := tsk[t := tsk[t].(pri := p)];
        MtxChgPri(t, oldpri, T0, rank, S, limbo);
      } else {
        SetPriority(tsk, mtx, limbo, S, t, p);
        tsk := tsk[t := tsk[t].(pri := p)];
      }
      if IsBest(old(tsk), old(mtx), t, p) {
        UpstreamBest(old(tsk), old(mtx), tsk, mtx, limbo, rank, t, p);
      }
    }

    /** mtx_chg_pri: `t` has just changed from `oldpri`; move it in its wait ring
        and pass the change on to the owner of an inherit mutex. */
    method MtxChgPri(t: TaskId, oldpri: int, ghost T0: Tasks, ghost rank: map<TaskId, nat>, ghost S: set<TaskId>,
                     ghost limbo: set<MtxId>)
      requires t in T0 && t in tsk && tsk == T0[t := T0[t].(pri := tsk[t].pri)] && oldpri == T0[t].pri
      requires T0[t].state.Waiting? && T0[t].state.on.OnMutex?
      requires Shape(T0, mtx, limbo) && Ranked(T0, mtx, rank) && BestExcept(T0, mtx, S + {t})
      requires T0[t].state.on.m in mtx && mtx[T0[t].state.on.m].proto != Fifo
      requires Settled(mtx, rank, rank[t], S, limbo)
      modifies this
      ensures SamePlumbing(T0, old(mtx), tsk, mtx) && Shape(tsk, mtx, limbo)
      ensures tsk[t].pri == old(tsk[t].pri) && BestExcept(tsk, mtx, S + {t})
      ensures Upstream(T0, old(mtx), tsk, mtx, rank, t)
      ensures old(tsk[t].pri) <= oldpri ==> RaisedTo(T0, tsk, old(tsk[t].pri))
      decreases rank[t], 1
    {
      var m := tsk[t].state.on.m;
      ghost var M0 := mtx;
      assert t in mtx[m].queue;
      assert forall u :: u in mtx[m].queue ==> WaitsOn(T0, u, m);
      ReorderQueue(T0, mtx[m].queue, mtx[m].proto, t, tsk[t].pri);
      var q := QueueInsertTpri(Without(mtx[m].queue, t), t);
      AfterReorder(T0, mtx, rank, S, limbo, t, tsk, m, q);
      mtx := WithRing(mtx, m, q);
      SettleOwner(mtx[m].owner.value, t, oldpri, T0, M0, m, q, rank, S, limbo);
    }

    /** The second half of mtx_chg_pri: raise or recompute the owner `o` of an inherit mutex. */
    method SettleOwner(o: TaskId, t: TaskId, oldpri: int, ghost T0: Tasks, ghost M0: Mutexes, m: MtxId,
                       ghost r: seq<TaskId>, ghost rank: map<TaskId, nat>, ghost S: set<TaskId>,
                       ghost limbo: set<MtxId>)
      requires Reordered(T0, M0, tsk, mtx, rank, S, limbo, t, m, o) && T0.Keys <= rank.Keys && oldpri == T0[t].pri
      requires tsk == T0[t := T0[t].(pri := tsk[t].pri)] && mtx == WithRing(M0, m, r)
      modifies this
      ensures SamePlumbing(T0, M0, tsk, mtx) && Shape(tsk, mtx, limbo)
      ensures BestExcept(tsk, mtx, S + {t}) && Upstream(T0, M0, tsk, mtx, rank, t) && tsk[t].pri == old(tsk[t].pri)
      ensures old(tsk[t].pri) <= oldpri ==> RaisedTo(T0, tsk, old(tsk[t].pri))
      decreases rank[t], 0
    {
      if mtx[m].proto == Inherit {
        if tsk[o].pri > tsk[t].pri {
          ChangeTaskPriority(o, tsk[t].pri, rank, S + {t}, limbo);
        } else if tsk[o].pri == oldpri {
          assert tsk[o := tsk[o].(held := Unlinked(tsk[o].held, None))] == tsk;
          ReleaseMutex(o, None, rank, S + {t}, limbo);
        }
        ComposeChange(T0, M0, old(tsk), old(mtx), tsk, mtx, rank, t, m, r, o);
      }
    }

    /** The loop of knl_release_mutex: unlink `rel` from the chain of `t` and find
        the best priority among the base priority and the mutexes that stay. */
    method BestPriority(t: TaskId, rel: Option<MtxId>) returns (newpri: int, kept: seq<MtxId>)
      requires t in tsk && NoDup(tsk[t].held)
      requires forall m :: m in tsk[t].held ==> m in mtx && (mtx[m].queue != [] ==> mtx[m].queue[0] in tsk)
      ensures kept == Unlinked(tsk[t].held, rel)
      ensures IsBest(tsk[t := tsk[t].(held := kept)], mtx, t, newpri)
    {
      newpri := tsk[t].bpri;
      var pri := newpri;
      kept := [];
      var held := tsk[t].held;
      ghost var best: Option<MtxId> := None;
      for i := 0 to |held|
        invariant newpri <= pri && newpri <= tsk[t].bpri
        invariant kept == Unlinked(held[..i], rel)
        invariant forall m, q :: m in kept && Offers(tsk, mtx, m, q) ==> newpri <= q
        invariant match best case None => newpri == tsk[t].bpri case Some(b) => b in kept && Offers(tsk, mtx, b, newpri)
      {
        var m := held[i];
        assert held[..i + 1] == held[..i] + [m];
        assert m !in held[..i] by {
          forall j | 0 <= j < i ensures held[j] != m { NoDupAt(held, j, i); }
        }
        UnlinkedStep(held[..i], m, rel);
        if rel != Some(m) {
          if mtx[m].proto == Ceiling {
            pri := mtx[m].ceil;
          } else if mtx[m].proto == Inherit && mtx[m].queue != [] {
            pri := tsk[mtx[m].queue[0]].pri;
          }
          kept := kept + [m];
          if newpri > pri {
            newpri := pri;
            best := Some(m);
          }
        }
      }
      assert held[..|held|] == held;
      ghost var H := tsk[t := tsk[t].(held := kept)];
      assert forall m, q :: Offers(H, mtx, m, q) <==> Offers(tsk, mtx, m, q);
    }

    /** knl_release_mutex: unlink `rel` (nothing for reset_priority) and bring `t`
        to the priority that the rest of its chain gives it. */
    method ReleaseMutex(t: TaskId, rel: Option<MtxId>, ghost rank: map<TaskId, nat>, ghost S: set<TaskId>,
                        ghost limbo: set<MtxId>)
      requires t in tsk && Shape(tsk, mtx, limbo) && Ranked(tsk, mtx, rank) && BestExcept(tsk, mtx, S + {t})
      requires Settled(mtx, rank, rank[t], S, limbo)
      requires rel.Some? ==> rel.value in tsk[t].held
      modifies this
      ensures var H := old(tsk)[t := old(tsk[t]).(held := Unlinked(old(tsk[t].held), rel))];
              && SamePlumbing(H, old(mtx), tsk, mtx) && Upstream(H, old(mtx), tsk, mtx, rank, t)
              && (IsBest(H, old(mtx), t, H[t].pri) ==> tsk == H && mtx == old(mtx))
              && (!old(tsk[t].state.Waiting?) ==> mtx == old(mtx) && tsk == H[t := H[t].(pri := tsk[t].pri)])
      ensures Shape(tsk, mtx, limbo + LimboSet(rel)) && BestExcept(tsk, mtx, S) && IsBest(tsk, mtx, t, tsk[t].pri)
      decreases rank[t], 4
    {
      UnlinkShape(tsk, mtx, limbo, t, rel);
      UnlinkBest(tsk, mtx, limbo, S, t, Unlinked(tsk[t].held, rel));
      assert forall m :: m in mtx && mtx[m].queue != [] ==> mtx[m].queue[0] in mtx[m].queue;
      var newpri, kept := BestPriority(t, rel);
      tsk := tsk[t := tsk[t].(held := kept)];
      SetBest(t, newpri, rank, S, limbo + LimboSet(rel));
    }

    /** The end of knl_release_mutex: change the priority only if it differs. */
    method SetBest(t: TaskId, newpri: int, ghost rank: map<TaskId, nat>, ghost S: set<TaskId>, ghost limbo: set<MtxId>)
      requires t in tsk && Shape(tsk, mtx, limbo) && Ranked(tsk, mtx, rank) && BestExcept(tsk, mtx, S + {t})
      requires Settled(mtx, rank, rank[t], S, limbo) && IsBest(tsk, mtx, t, newpri)
      modifies this
      ensures SamePlumbing(old(tsk), old(mtx), tsk, mtx) && Upstream(old(tsk), old(mtx), tsk, mtx, rank, t)
      ensures IsBest(old(tsk), old(mtx), t, old(tsk[t].pri)) ==> tsk == old(tsk) && mtx == old(mtx)
      ensures !old(tsk[t].state.Waiting?) ==> mtx == old(mtx) && tsk == old(tsk)[t := old(tsk[t]).(pri := newpri)]
      ensures Shape(tsk, mtx, limbo) && BestExcept(tsk, mtx, S) && tsk[t].pri == newpri
      decreases rank[t], 3
    {
      if newpri != tsk[t].pri {
        if IsBest(tsk, mtx, t, tsk[t].pri) { BestIsUnique(tsk, mtx, t, tsk[t].pri, newpri); }
        ChangeTaskPriority(t, newpri, rank, S, limbo);
      }
    }

    // ---------------------------------------------------------- system calls

    /** A kernel with dormant tasks (identifier to initial priority) and no mutex. */
    constructor (tasks: map<TaskId, int>)
      ensures Valid() && mtx == map[] && tsk.Keys == tasks.Keys
      ensures forall t :: t in tasks ==> tsk[t] == Tcb(Dormant, tasks[t], tasks[t], tasks[t], [])
    {
      tsk := map t | t in tasks :: Tcb(Dormant, tasks[t], tasks[t], tasks[t], []);
      mtx := map[];
      new;
      assert Ranked(tsk, mtx, map t | t in tsk :: 0);
    }

    /** tk_cre_mtx with attributes it accepts; `slot` is the first free control block, if any. */
    method TkCreMtx(slot: Option<MtxId>, proto: Protocol, ceil: int) returns (er: Er)
      requires Valid() && (slot.Some? ==> slot.value !in mtx)
      modifies this
      ensures Valid() && tsk == old(tsk) && er == if slot.None? then E_LIMIT else E_OK
      ensures mtx == if slot.None? then old(mtx) else old(mtx)[slot.value := Mtxcb(proto, ceil, None, [])]
      ensures FifoStep(old(mtx), mtx, Other)
    {
      if slot.None? { return E_LIMIT; }
      CreateMutex(tsk, mtx, slot.value, proto, ceil);
      mtx := mtx[slot.value := Mtxcb(proto, ceil, None, [])];
      return E_OK;
    }

    /** The part of tk_loc_mtx that finds the mutex free. */
    method TakeFree(c: TaskId, m: MtxId)
      requires Valid() && c in tsk && !tsk[c].state.Waiting? && !tsk[c].state.Dormant?
      requires m in mtx && mtx[m].owner.None? && (mtx[m].proto == Ceiling ==> mtx[m].ceil <= tsk[c].bpri)
      modifies this
      ensures Valid() && mtx == TakenM(old(mtx), c, m)
      ensures var p := Capped(old(tsk[c].pri), old(mtx[m].proto), old(mtx[m].ceil));
              tsk == TakenT(old(tsk), c, m)[c := TakenT(old(tsk), c, m)[c].(pri := p)]
    {
      ghost var rank :| Ranked(tsk, mtx, rank);
      TakeShape(tsk, mtx, c, m);
      TakeBest(tsk, mtx, c, m);
      TakeRest(tsk, mtx, c, m, rank);
      mtx := TakenM(mtx, c, m);
      tsk := TakenT(tsk, c, m);
      RaiseToCeiling(c, m, rank, {});
    }

    /** Raise a task that has just got `m` to the ceiling, if `m` has one. */
    method RaiseToCeiling(c: TaskId, m: MtxId, ghost rank: map<TaskId, nat>, ghost S: set<TaskId>)
      requires c in tsk && !tsk[c].state.Waiting? && m in mtx && c !in S
      requires Shape(tsk, mtx, {}) && Ranked(tsk, mtx, rank) && BestExcept(tsk, mtx, S + {c})
               && CeilingsRespected(tsk, mtx)
      requires IsBest(tsk, mtx, c, Capped(tsk[c].pri, mtx[m].proto, mtx[m].ceil))
      modifies this
      ensures Shape(tsk, mtx, {}) && Ranked(tsk, mtx, rank) && BestExcept(tsk, mtx, S) && CeilingsRespected(tsk, mtx)
      ensures mtx == old(mtx)
      ensures tsk == old(tsk)[c := old(tsk[c]).(pri := Capped(old(tsk[c].pri), mtx[m].proto, mtx[m].ceil))]
    {
      if mtx[m].proto == Ceiling && tsk[c].pri > mtx[m].ceil {
        SetPriority(tsk, mtx, {}, S, c, mtx[m].ceil);
        ghost var T := tsk;
        tsk := tsk[c := tsk[c].(pri := mtx[m].ceil)];
        PlumbingRanked(T, mtx, tsk, mtx, rank);
        PlumbingCeilings(T, mtx, tsk, mtx);
        UpstreamBest(T, mtx, tsk, mtx, {}, rank, c, tsk[c].pri);
      }
    }

    /** Priority inheritance in tk_loc_mtx: owner `o` gets at least the caller's priority. */
    method RaiseHolder(o: TaskId, c: TaskId, m: MtxId)
      requires Valid() && o in tsk && c in tsk && m in mtx && mtx[m].owner == Some(o)
      modifies this
      ensures HolderRaised(old(tsk), old(mtx), tsk, mtx, c, m, o)
      ensures RingKept(old(tsk), old(mtx), tsk, mtx, c, m)
    {
      assert IsBest(tsk, mtx, o, tsk[o].pri);
      ghost var rank :| Ranked(tsk, mtx, rank);
      if mtx[m].proto == Inherit && tsk[o].pri > tsk[c].pri {
        ChangeTaskPriority(o, tsk[c].pri, rank, {}, {});
        PlumbingRanked(old(tsk), old(mtx), tsk, mtx, rank);
        PlumbingCeilings(old(tsk), old(mtx), tsk, mtx);
        UpstreamBest(old(tsk), old(mtx), tsk, mtx, {}, rank, o, old(tsk[o].pri));
      }
      OwnersRingKept(old(tsk), old(mtx), tsk, mtx, c, m, o, rank);
    }

    /** The part of tk_loc_mtx that has to wait for owner `o`. */
    method JoinWait(c: TaskId, m: MtxId, o: TaskId)
      requires Valid() && c in tsk && !tsk[c].state.Waiting? && !tsk[c].state.Dormant?
      requires m in mtx && mtx[m].owner == Some(o) && (mtx[m].proto == Ceiling ==> mtx[m].ceil <= tsk[c].bpri)
      modifies this
      ensures LockWaited(old(tsk), old(mtx), tsk, mtx, c, m, o)
      ensures InPlace(old(tsk), old(mtx), mtx, c, m)
    {
      RaiseHolder(o, c, m);
      var q := EnterRing(mtx[m].queue, mtx[m].proto, c);
      JoinFinal(old(tsk), old(mtx), tsk, mtx, c, m, q, o);
      mtx := WithRing(mtx, m, q);
      tsk := JoinedT(tsk, c, m);
    }

    /** The choice between QueInsert and knl_queue_insert_tpri. */
    method EnterRing(q: seq<TaskId>, proto: Protocol, c: TaskId) returns (r: seq<TaskId>)
      requires c in tsk && forall u :: u in q ==> u in tsk
      ensures r == Enqueue(tsk, proto, q, c)
    {
      if proto == Fifo {
        r := q + [c];
      } else {
        r := QueueInsertTpri(q, c);
      }
    }

    /** tk_loc_mtx.  `Blocked` means that the caller went to sleep in the wait ring. */
    method TkLocMtx(c: TaskId, m: MtxId, poll: bool) returns (r: LockResult)
      requires Valid() && c in tsk && !tsk[c].state.Waiting? && !tsk[c].state.Dormant?
      modifies this
      ensures r == LockOutcome(old(tsk), old(mtx), c, m, poll)
      ensures r.Done? ==> Valid()
      ensures r.Done? && r.er != E_OK ==> tsk == old(tsk) && mtx == old(mtx)
      ensures r == Done(E_OK) ==>
                && mtx == TakenM(old(mtx), c, m)
                && var p := Capped(old(tsk[c].pri), old(mtx)[m].proto, old(mtx)[m].ceil);
                   tsk == TakenT(old(tsk), c, m)[c := TakenT(old(tsk), c, m)[c].(pri := p)]
      ensures r.Blocked? ==>
                && LockWaited(old(tsk), old(mtx), tsk, mtx, c, m, old(mtx)[m].owner.value)
                && InPlace(old(tsk), old(mtx), mtx, c, m)
      ensures FifoStep(old(mtx), mtx, if r.Blocked? then Blocks(c, m) else Other)
      // waiting keeps the invariant unless it closes a cycle
      ensures r.Blocked? ==> (Valid() <==> !Reaches(old(tsk), old(mtx), old(mtx)[m].owner.value, c))
    {
      if m !in mtx {
        return Done(E_NOEXS);
      }
      if mtx[m].owner == Some(c) {
        return Done(E_ILUSE);
      }
      if mtx[m].proto == Ceiling && tsk[c].bpri < mtx[m].ceil {
        return Done(E_ILUSE);
      }
      if mtx[m].owner.None? {
        TakeStep(tsk, mtx, c, m);
        TakeFree(c, m);
        return Done(E_OK);
      }
      if poll {
        return Done(E_TMOUT);
      }
      JoinWait(c, m, mtx[m].owner.value);
      BlockStep(old(tsk), old(mtx), tsk, mtx, c, m, old(mtx)[m].owner.value);
      return Blocked;
    }

    /** The second half of tk_unl_mtx, and the loop body of knl_signal_all_mutex:
        pass `m`, already out of its owner's chain, to its first waiter or free it. */
    method HandOver(m: MtxId, ghost S: set<TaskId>)
      requires m in mtx && mtx[m].owner.Some? && Steady(tsk, mtx, S, {m})
      requires forall t :: t in S && t in tsk ==> !tsk[t].state.Waiting?
      modifies this
      ensures Steady(tsk, mtx, S, {})
      ensures PassedOn(old(tsk), old(mtx), tsk, mtx, m)
    {
      if mtx[m].queue != [] {
        var w := mtx[m].queue[0];
        ghost var r := mtx[m].queue[1..];
        assert w in mtx[m].queue && WaitsOn(tsk, w, m);
        GiveRing(tsk, mtx[m].queue, mtx[m].proto);
        GiveShape(tsk, mtx, m, w, r);
        GiveBest(tsk, mtx, S, m, w, r);
        GiveRest(tsk, mtx, m, w, r);
        tsk, mtx := GivenT(tsk, w, m), GivenM(mtx, m, w, mtx[m].queue[1..]);
        ghost var rank :| Ranked(tsk, mtx, rank);
        RaiseToCeiling(w, m, rank, S);
      } else {
        FreeMutex(tsk, mtx, m, S);
        mtx := mtx[m := mtx[m].(owner := None)];
      }
    }

    /** tk_unl_mtx. */
    method TkUnlMtx(c: TaskId, m: MtxId) returns (er: Er)
      requires Valid() && c in tsk && !tsk[c].state.Waiting?
      modifies this
      ensures Valid()
      ensures er == if m !in old(mtx) then E_NOEXS else if old(mtx)[m].owner != Some(c) then E_ILUSE else E_OK
      ensures er != E_OK ==> tsk == old(tsk) && mtx == old(mtx)
      ensures er == E_OK ==> Unlocked(old(tsk), old(mtx), tsk, mtx, c, m)
      ensures FifoStep(old(mtx), mtx, if er == E_OK then Unlocks(m) else Other)
    {
      if m !in mtx {
        return E_NOEXS;
      }
      if mtx[m].owner != Some(c) {
        return E_ILUSE;
      }
      GiveUp(c, m);
      HandOver(m, {});
      UnlockStep(old(tsk), old(mtx), tsk, mtx, c, m);
      return E_OK;
    }

    /** knl_release_mutex on behalf of the running task. */
    method GiveUp(c: TaskId, m: MtxId)
      requires Valid() && c in tsk && !tsk[c].state.Waiting? && m in mtx && mtx[m].owner == Some(c)
      modifies this
      ensures mtx == old(mtx)
      ensures tsk == old(tsk)[c := old(tsk[c]).(held := Without(old(tsk[c].held), m),
                                                pri := if c in tsk then tsk[c].pri else 0)]
      ensures Steady(tsk, mtx, {}, {m})
    {
      ghost var rank :| Ranked(tsk, mtx, rank);
      ghost var c0 := tsk[c].(held := Without(tsk[c].held, m));
      ReleaseMutex(c, Some(m), rank, {}, {});
      Overwrite(old(tsk), c, c0, c0.(pri := tsk[c].pri));
      UnlinkedRest(old(tsk), old(mtx), tsk, mtx, c, m, rank);
      assert {} + LimboSet(Some(m)) == {m};
    }

    /** reset_priority, starting from a state in which only `o` may be wrong. */
    method ResetPriority(o: TaskId, ghost rank: map<TaskId, nat>)
      requires Steady(tsk, mtx, {o}, {}) && o in tsk && Ranked(tsk, mtx, rank)
      modifies this
      ensures Valid() && SamePlumbing(old(tsk), old(mtx), tsk, mtx) && Upstream(old(tsk), old(mtx), tsk, mtx, rank, o)
    {
      assert {} + {o} == {o};
      assert tsk[o := tsk[o].(held := Unlinked(tsk[o].held, None))] == tsk;
      ReleaseMutex(o, None, rank, {}, {});
      assert {} + LimboSet(None) == {};
      SettledAgain(old(tsk), old(mtx), tsk, mtx, rank);
    }

    /** The release of a wait by timeout (knl_wait_release_tmout) or by tk_rel_wai
        (knl_wait_release_ng), with the hook mtx_rel_wai. */
    method ReleaseWait(t: TaskId)
      requires Valid() && t in tsk && tsk[t].state.Waiting?
      modifies this
      ensures Valid() && Released(old(tsk), old(mtx), tsk, mtx, t)
      ensures OwnRings(old(tsk), old(mtx), mtx, t)
      ensures FifoStep(old(mtx), mtx, GivesUp(t))
    {
      if tsk[t].state.on.OnOther? {
        assert IsBest(tsk, mtx, t, tsk[t].pri);
        PrivateChange(tsk, mtx, t, tsk[t].(state := Awake(tsk[t].state)));
        tsk := LeftT(tsk, t);
      } else {
        LeaveWait(t, tsk[t].state.on.m);
      }
      ReleaseStep(old(tsk), old(mtx), tsk, mtx, t);
    }

    /** The same for a task that waits for mutex `m`. */
    method LeaveWait(t: TaskId, m: MtxId)
      requires Valid() && WaitsOn(tsk, t, m)
      modifies this
      ensures Valid() && Released(old(tsk), old(mtx), tsk, mtx, t)
      ensures OwnRings(old(tsk), old(mtx), mtx, t)
    {
      LeaveMutex(tsk, mtx, t, m);
      var o := mtx[m].owner.value;
      ghost var rank :| Ranked(tsk, mtx, rank);
      LeaveRanked(tsk, mtx, t, m, rank);
      tsk, mtx := LeftT(tsk, t), WithRing(mtx, m, Without(mtx[m].queue, t));
      ghost var T1, M1 := tsk, mtx;
      if mtx[m].proto == Inherit && tsk[o].pri == tsk[t].pri {
        ResetPriority(o, rank);
      }
      assert SamePlumbing(T1, M1, tsk, mtx) && Upstream(T1, M1, tsk, mtx, rank, o);
      OwnRingsKept(old(tsk), old(mtx), tsk, mtx, t, m, o, rank);
    }

    /** knl_make_wait of the running task `t` for an object that is no mutex. */
    method WaitOther(t: TaskId)
      requires Valid() && t in tsk && (tsk[t].state.Ready? || tsk[t].state.Suspended?)
      modifies this
      ensures Valid() && mtx == old(mtx)
      ensures tsk == old(tsk)[t := old(tsk[t]).(state := Asleep(old(tsk[t].state), OnOther))]
    {
      assert IsBest(tsk, mtx, t, tsk[t].pri);
      PrivateChange(tsk, mtx, t, tsk[t].(state := Asleep(tsk[t].state, OnOther)));
      tsk := tsk[t := tsk[t].(state := Asleep(tsk[t].state, OnOther))];
    }

    /** The first tk_sus_tsk of a task, or the tk_rsm_tsk that undoes the last. */
    method Halt(t: TaskId, halt: bool)
      requires Valid() && t in tsk
      modifies this
      ensures Valid() && mtx == old(mtx)
      ensures tsk == old(tsk)[t := old(tsk[t]).(state := Halted(old(tsk[t].state), halt))]
    {
      HaltKeeps(tsk, mtx, t, halt);
      tsk := tsk[t := tsk[t].(state := Halted(tsk[t].state, halt))];
    }

    /** tk_sta_tsk. */
    method TkStaTsk(t: TaskId) returns (er: Er)
      requires Valid()
      modifies this
      ensures Valid() && mtx == old(mtx)
      ensures er == if t !in old(tsk) then E_NOEXS else if !old(tsk)[t].state.Dormant? then E_OBJ else E_OK
      ensures tsk == if er == E_OK then old(tsk)[t := old(tsk)[t].(state := Ready)] else old(tsk)
    {
      if t !in tsk {
        return E_NOEXS;
      }
      if !tsk[t].state.Dormant? {
        return E_OBJ;
      }
      assert IsBest(tsk, mtx, t, tsk[t].pri);
      PrivateChange(tsk, mtx, t, tsk[t].(state := Ready));
      tsk := tsk[t := tsk[t].(state := Ready)];
      return E_OK;
    }

    /** One round of knl_signal_all_mutex. */
    method PassFirst(t: TaskId)
      requires Steady(tsk, mtx, {t}, {}) && t in tsk && !tsk[t].state.Waiting? && tsk[t].held != []
      modifies this
      ensures Steady(tsk, mtx, {t}, {}) && tsk.Keys == old(tsk).Keys
      ensures tsk[t] == old(tsk[t]).(held := old(tsk[t].held[1..]))
      ensures var m := old(tsk[t].held[0]);
              && m !in tsk[t].held && m in old(mtx) && m in mtx && Inherited(old(mtx)[m], mtx[m])
              && mtx == old(mtx)[m := mtx[m]]
    {
      var m := tsk[t].held[0];
      PopHeld(tsk, mtx, t, m);
      tsk := tsk[t := tsk[t].(held := tsk[t].held[1..])];
      HandOver(m, {t});
    }

    /** knl_signal_all_mutex: every mutex of `t` goes to its first waiter. */
    method SignalAllMutex(t: TaskId)
      requires Steady(tsk, mtx, {t}, {}) && t in tsk && !tsk[t].state.Waiting?
      modifies this
      ensures Steady(tsk, mtx, {t}, {}) && tsk.Keys == old(tsk).Keys && mtx.Keys == old(mtx).Keys
      ensures tsk[t] == old(tsk[t]).(held := [])
      ensures Distributed(old(mtx), mtx, old(tsk[t].held), [])
    {
      ghost var H := tsk[t].held;
      while tsk[t].held != []
        invariant t in tsk && tsk.Keys == old(tsk).Keys && tsk[t] == old(tsk[t]).(held := tsk[t].held)
        invariant Steady(tsk, mtx, {t}, {}) && Distributed(old(mtx), mtx, H, tsk[t].held)
        decreases |tsk[t].held|
      {
        ghost var M1, h := mtx, tsk[t].held;
        PassFirst(t);
        DistributedStep(old(mtx), M1, mtx, H, h);
      }
    }

    /** knl_ter_tsk followed by knl_make_dormant, for tk_ter_tsk and tk_ext_tsk. */
    method TerminateTask(t: TaskId)
      requires Valid() && t in tsk && !tsk[t].state.Dormant?
      modifies this
      ensures Valid() && tsk.Keys == old(tsk).Keys
      ensures tsk[t] == Tcb(Dormant, old(tsk[t].ipri), old(tsk[t].ipri), old(tsk[t].ipri), [])
      ensures Terminated(old(tsk), old(mtx), mtx, t) && FifoStep(old(mtx), mtx, Dies(t))
      ensures forall m :: m in mtx ==> t !in mtx[m].queue && mtx[m].owner != Some(t)
    {
      if tsk[t].state.Waiting? {
        ReleaseWait(t);
        ReleasedAt(old(tsk), old(mtx), tsk, mtx, t);
        ReleasedRings(old(tsk), old(mtx), tsk, mtx, t);
      } else {
        NoRings(tsk, mtx, t);
      }
      ghost var M1 := mtx;
      Retire(t);
      RetiredRings(old(tsk), old(mtx), M1, mtx, t);
      TerminateStep(old(tsk), old(mtx), mtx, t);
      Gone(tsk, mtx, t);
    }

    /** knl_signal_all_mutex and knl_make_dormant for a task that does not wait. */
    method Retire(t: TaskId)
      requires Valid() && t in tsk && !tsk[t].state.Waiting?
      modifies this
      ensures Valid() && tsk.Keys == old(tsk).Keys && mtx.Keys == old(mtx).Keys
      ensures tsk[t] == Tcb(Dormant, old(tsk[t].ipri), old(tsk[t].ipri), old(tsk[t].ipri), [])
      ensures Distributed(old(mtx), mtx, old(tsk[t].held), [])
    {
      Excuse(tsk, mtx, {}, t);
      assert {} + {t} == {t};
      SignalAllMutex(t);
      PrivateChange(tsk, mtx, t, Tcb(Dormant, tsk[t].ipri, tsk[t].ipri, tsk[t].ipri, []));
      tsk := tsk[t := Tcb(Dormant, tsk[t].ipri, tsk[t].ipri, tsk[t].ipri, [])];
    }

    /** knl_chg_pri_mutex: the priority that base priority `p` would give `t`, or
        E_ILUSE if `p` is above a ceiling that binds `t`. */
    method ChgPriMutex(t: TaskId, p: int) returns (er: Er, hi: int)
      requires t in tsk && 0 <= p
      requires forall m :: m in tsk[t].held ==> m in mtx && (mtx[m].queue != [] ==> mtx[m].queue[0] in tsk)
      requires forall m :: WaitsOn(tsk, t, m) ==> m in mtx
      ensures er == if ObeysCeilings(tsk, mtx, t, p) then E_OK else E_ILUSE
      ensures IsBest(tsk[t := tsk[t].(bpri := p)], mtx, t, hi)
    {
      hi := p;
      var low := 0;
      if tsk[t].state.Waiting? && tsk[t].state.on.OnMutex? {
        var m := tsk[t].state.on.m;
        assert WaitsOn(tsk, t, m);
        if mtx[m].proto == Ceiling && mtx[m].ceil > low {
          low := mtx[m].ceil;
        }
      }
      ghost var low0 := low;
      var held, pri := tsk[t].held, hi;
      ghost var best: Option<MtxId> := None;
      for i := 0 to |held|
        invariant hi <= pri && hi <= p && low0 <= low
        invariant forall m :: m in held[..i] && mtx[m].proto == Ceiling ==> mtx[m].ceil <= low
        invariant low == low0 || exists m :: m in held[..i] && mtx[m].proto == Ceiling && mtx[m].ceil == low
        invariant forall m, q :: m in held[..i] && Offers(tsk, mtx, m, q) ==> hi <= q
        invariant match best case None => hi == p case Some(b) => b in held[..i] && Offers(tsk, mtx, b, hi)
      {
        var m := held[i];
        assert held[..i + 1] == held[..i] + [m] && m in tsk[t].held;
        if mtx[m].proto == Ceiling {
          pri := mtx[m].ceil;
          if pri > low {
            low := pri;
          }
        } else if mtx[m].proto == Inherit && mtx[m].queue != [] {
          pri := tsk[mtx[m].queue[0]].pri;
        }
        if pri < hi {
          hi := pri;
          best := Some(m);
        }
      }
      assert held[..|held|] == held;
      ghost var H := tsk[t := tsk[t].(bpri := p)];
      assert forall m, q :: Offers(H, mtx, m, q) <==> Offers(tsk, mtx, m, q);
      er := if p < low then E_ILUSE else E_OK;
    }

    /** tk_chg_pri with internal priority `p`. */
    method TkChgPri(t: TaskId, p: int) returns (er: Er)
      requires Valid() && 0 <= p
      modifies this
      ensures Valid()
      ensures er == if t !in old(tsk) then E_NOEXS else if !ObeysCeilings(old(tsk), old(mtx), t, p) then E_ILUSE
              else E_OK
      ensures er != E_OK ==> tsk == old(tsk) && mtx == old(mtx)
      ensures er == E_OK ==> SamePlumbing(old(tsk)[t := old(tsk)[t].(bpri := p)], old(mtx), tsk, mtx)
      ensures FifoStep(old(mtx), mtx, Other)
    {
      if t !in tsk {
        return E_NOEXS;
      }
      assert forall m :: m in mtx && mtx[m].queue != [] ==> mtx[m].queue[0] in mtx[m].queue;
      var pri: int;
      er, pri := ChgPriMutex(t, p);
      if er != E_OK {
        return er;
      }
      Rebase(tsk, mtx, t, p);
      tsk := tsk[t := tsk[t].(bpri := p)];
      SetDue(t, pri);
    }

    /** knl_change_task_priority for a task that is about to get its due priority. */
    method SetDue(t: TaskId, p: int)
      requires Steady(tsk, mtx, {t}, {}) && t in tsk && IsBest(tsk, mtx, t, p)
      modifies this
      ensures Valid() && SamePlumbing(old(tsk), old(mtx), tsk, mtx) && FifoStep(old(mtx), mtx, Other)
    {
      ghost var rank :| Ranked(tsk, mtx, rank);
      assert {} + {t} == {t};
      ChangeTaskPriority(t, p, rank, {}, {});
      SettledAgain(old(tsk), old(mtx), tsk, mtx, rank);
      PlumbingStep(old(tsk), old(mtx), tsk, mtx);
    }

    /** The part of tk_del_mtx that takes `m` away from its owner. */
    method TakeAway(m: MtxId, o: TaskId)
      requires Valid() && m in mtx && mtx[m].owner == Some(o)
      modifies this
      ensures o in old(tsk) && Steady(tsk, mtx, {}, {m})
      ensures SamePlumbing(old(tsk)[o := old(tsk)[o].(held := Without(old(tsk)[o].held, m))], old(mtx), tsk, mtx)
    {
      ghost var rank :| Ranked(tsk, mtx, rank);
      ReleaseMutex(o, Some(m), rank, {}, {});
      UnlinkedRest(old(tsk), old(mtx), tsk, mtx, o, m, rank);
      assert {} + LimboSet(Some(m)) == {m};
    }

    /** knl_wait_delete on the ring of `m`, which no task's priority depends on any more. */
    method WaitDelete(m: MtxId)
      requires m in mtx && Steady(tsk, mtx, {}, {m})
      modifies this
      ensures Deleting(old(tsk), old(mtx), tsk, mtx, m) && m in mtx && mtx[m].queue == []
    {
      DeletingStart(tsk, mtx, m);
      while mtx[m].queue != []
        invariant m in mtx && Deleting(old(tsk), old(mtx), tsk, mtx, m)
        decreases |mtx[m].queue|
      {
        DeletingStep(old(tsk), old(mtx), tsk, mtx, m);
        tsk, mtx := LeftT(tsk, mtx[m].queue[0]), WithRing(mtx, m, mtx[m].queue[1..]);
      }
    }

    /** tk_del_mtx. */
    method TkDelMtx(m: MtxId) returns (er: Er)
      requires Valid()
      modifies this
      ensures Valid()
      ensures er == if m in old(mtx) then E_OK else E_NOEXS
      ensures er != E_OK ==> tsk == old(tsk) && mtx == old(mtx)
      ensures er == E_OK ==> m !in mtx && Deleted(old(tsk), old(mtx), tsk, mtx, m)
      ensures FifoStep(old(mtx), mtx, Other)
    {
      if m !in mtx {
        return E_NOEXS;
      }
      if mtx[m].owner.Some? {
        TakeAway(m, mtx[m].owner.value);
      } else {
        NoOwnerLimbo(tsk, mtx, m);
      }
      ghost var T1, M1 := tsk, mtx;
      WaitDelete(m);
      DropMutex(tsk, mtx, m);
      mtx := mtx - {m};
      DeletedEffect(old(tsk), old(mtx), T1, M1, tsk, m);
      DeleteStep(old(tsk), old(mtx), tsk, mtx, m);
      return E_OK;
    }
  }
}
