/**
 Values, invariants and lemmas of the mutex layer: who holds what, who waits
 where, and what priority each task ought to have.  Smaller numbers are higher
 priorities, as inside the kernel.
 */
module MutexSpec {
  import opened Common

  type MtxId = nat

  /** The four wait disciplines selected by mtxatr & TA_CEILING. */
  datatype Protocol = Fifo | Tpri | Inherit | Ceiling

  datatype WaitObject = OnMutex(m: MtxId) | OnOther

  datatype TaskState = Dormant | Ready | Suspended | Waiting(on: WaitObject, suspended: bool)

  /** The fields of a task control block that the mutex code reads or writes;
      `held` is the chain that starts at tcb->mtxlist. */
  datatype Tcb = Tcb(state: TaskState, pri: int, bpri: int, ipri: int, held: seq<MtxId>)

  datatype Mtxcb = Mtxcb(proto: Protocol, ceil: int, owner: Option<TaskId>, queue: seq<TaskId>)

  type Tasks = map<TaskId, Tcb>
  type Mutexes = map<MtxId, Mtxcb>

  // ---------------------------------------------------------------- structure

  predicate WaitsOn(T: Tasks, t: TaskId, m: MtxId) {
    t in T && T[t].state.Waiting? && T[t].state.on == OnMutex(m)
  }

  ghost predicate Sorted(T: Tasks, q: seq<TaskId>) {
    forall i, j {:trigger Before(q, i, j)} :: Before(q, i, j) && q[i] in T && q[j] in T ==> T[q[i]].pri <= T[q[j]].pri
  }

  /** Wait rings and task states agree; rings are ordered unless the mutex is FIFO. */
  ghost predicate QueueShape(T: Tasks, M: Mutexes) {
    && (forall m, t :: m in M && t in M[m].queue ==> WaitsOn(T, t, m))
    && (forall t, m :: WaitsOn(T, t, m) ==> m in M && t in M[m].queue)
    && (forall m :: m in M ==> NoDup(M[m].queue))
    && (forall m :: m in M && M[m].proto != Fifo ==> Sorted(T, M[m].queue))
  }

  /** Ownership and the chains of held mutexes agree, except for mutexes in
      `limbo`, which have left their owner's chain but still name it. */
  ghost predicate HeldShape(T: Tasks, M: Mutexes, limbo: set<MtxId>) {
    && (forall t, m {:trigger m in T[t].held} :: t in T && m in T[t].held ==> m in M && M[m].owner == Some(t))
    && (forall t :: t in T ==> NoDup(T[t].held))
    && (forall t :: t in T && T[t].state.Dormant? ==> T[t].held == [])
    && (forall m :: m in M && M[m].owner.Some? ==> M[m].owner.value in T)
    && (forall m :: m in M && M[m].owner.Some? && m !in limbo ==> m in T[M[m].owner.value].held)
    && (forall m :: m in limbo && m in M && M[m].owner.Some? ==> m !in T[M[m].owner.value].held)
    && (forall m :: m in M && M[m].owner.None? ==> M[m].queue == [])
  }

  ghost predicate Shape(T: Tasks, M: Mutexes, limbo: set<MtxId>) {
    QueueShape(T, M) && HeldShape(T, M, limbo)
  }

  /** `rank` strictly decreases along every waits-for edge, so there is no cycle. */
  ghost predicate Ranked(T: Tasks, M: Mutexes, rank: map<TaskId, nat>) {
    && T.Keys <= rank.Keys
    && (forall t, m {:trigger WaitsOn(T, t, m)} :: WaitsOn(T, t, m) && m in M && M[m].owner.Some?
                                                   && M[m].owner.value in rank ==>
          rank[M[m].owner.value] < rank[t])
  }

  ghost predicate Acyclic(T: Tasks, M: Mutexes) {
    exists rank :: Ranked(T, M, rank)
  }

  /** `x` waits on a mutex that some task owns. */
  predicate HasNext(T: Tasks, M: Mutexes, x: TaskId) {
    && x in T && T[x].state.Waiting? && T[x].state.on.OnMutex?
    && T[x].state.on.m in M && M[T[x].state.on.m].owner.Some?
  }

  /** The waits-for edge: the owner of the mutex that `x` waits on. */
  function Next(T: Tasks, M: Mutexes, x: TaskId): TaskId
    requires HasNext(T, M, x)
  {
    M[T[x].state.on.m].owner.value
  }

  /** `y` is reached from `x` by `n` waits-for edges. */
  ghost predicate Path(T: Tasks, M: Mutexes, x: TaskId, y: TaskId, n: nat)
    decreases n
  {
    if n == 0 then x == y else HasNext(T, M, x) && Path(T, M, Next(T, M, x), y, n - 1)
  }

  ghost predicate Reaches(T: Tasks, M: Mutexes, x: TaskId, y: TaskId) {
    exists n: nat :: Path(T, M, x, y, n)
  }

  // --------------------------------------------------------------- priorities

  /** Holding `m` entitles its owner to priority `p`. */
  predicate Offers(T: Tasks, M: Mutexes, m: MtxId, p: int) {
    m in M &&
    match M[m].proto
    case Ceiling => p == M[m].ceil
    case Inherit => M[m].queue != [] && M[m].queue[0] in T && p == T[M[m].queue[0]].pri
    case Fifo => false
    case Tpri => false
  }

  /** `p` is the best of the base priority of `t` and of all that its mutexes offer. */
  ghost predicate IsBest(T: Tasks, M: Mutexes, t: TaskId, p: int)
    requires t in T
  {
    && p <= T[t].bpri
    && (forall m, q :: m in T[t].held && Offers(T, M, m, q) ==> p <= q)
    && (p == T[t].bpri || exists m :: m in T[t].held && Offers(T, M, m, p))
  }

  ghost predicate BestExcept(T: Tasks, M: Mutexes, S: set<TaskId>) {
    forall u :: u in T && u !in S ==> IsBest(T, M, u, T[u].pri)
  }

  /** No task that holds or awaits a ceiling mutex has a base priority above the ceiling. */
  ghost predicate CeilingsRespected(T: Tasks, M: Mutexes) {
    && (forall t, m {:trigger m in T[t].held} :: t in T && m in T[t].held && m in M && M[m].proto == Ceiling ==>
        M[m].ceil <= T[t].bpri)
    && (forall t, m {:trigger WaitsOn(T, t, m)} :: WaitsOn(T, t, m) && m in M && M[m].proto == Ceiling ==>
        M[m].ceil <= T[t].bpri)
  }

  /** The global invariant, for states in which the tasks in `S` have not got
      their due priority yet and the mutexes in `limbo` are changing hands.
      (An equation, so that the verifier hands it on as one fact.) */
  ghost predicate Steady(T: Tasks, M: Mutexes, S: set<TaskId>, limbo: set<MtxId>) {
    true == (Shape(T, M, limbo) && Acyclic(T, M) && BestExcept(T, M, S) && CeilingsRespected(T, M))
  }

  /** The global invariant of the mutex layer. */
  ghost predicate Consistent(T: Tasks, M: Mutexes) {
    Steady(T, M, {}, {})
  }

  lemma BestIsUnique(T: Tasks, M: Mutexes, t: TaskId, p: int, q: int)
    requires t in T && IsBest(T, M, t, p) && IsBest(T, M, t, q)
    ensures p == q
  {
  }

  // -------------------------------------------------- priority-ordered queues

  /** Position at which knl_queue_insert_tpri links a task of priority `val`. */
  function InsertPos(T: Tasks, q: seq<TaskId>, val: int): (i: nat)
    requires forall t :: t in q ==> t in T
    ensures i <= |q|
    ensures forall k :: 0 <= k < i ==> T[q[k]].pri <= val
    ensures i < |q| ==> T[q[i]].pri > val
  {
    var keys := seq(|q|, i requires 0 <= i < |q| => T[q[i]].pri);
    assert forall i :: 0 <= i < |q| ==> keys[i] == T[q[i]].pri;
    FirstAbove(keys, val)
  }

  function InsertTpri(T: Tasks, q: seq<TaskId>, t: TaskId): seq<TaskId>
    requires t in T && forall u :: u in q ==> u in T
  {
    var i := InsertPos(T, q, T[t].pri);
    q[..i] + [t] + q[i..]
  }

  /** Where the wait discipline of `m` puts a task that starts to wait. */
  function Enqueue(T: Tasks, proto: Protocol, q: seq<TaskId>, t: TaskId): seq<TaskId>
    requires t in T && forall u :: u in q ==> u in T
  {
    if proto == Fifo then q + [t] else InsertTpri(T, q, t)
  }

  /** `r` is `q` with `t` at place `i`: behind the tasks of its own or a higher priority
      and before the others. */
  ghost predicate PlacedAt(T: Tasks, q: seq<TaskId>, t: TaskId, r: seq<TaskId>, i: nat)
    requires t in T && forall u :: u in q ==> u in T
  {
    && i <= |q| && r == q[..i] + [t] + q[i..]
    && (forall k :: 0 <= k < i ==> T[q[k]].pri <= T[t].pri)
    && (forall k :: i <= k < |q| ==> T[q[k]].pri > T[t].pri)
  }

  /** `t` has joined the ring `q` where the wait discipline wants it: at the end of a FIFO
      ring, and behind its equals in the others. */
  ghost predicate Placed(T: Tasks, proto: Protocol, q: seq<TaskId>, t: TaskId, r: seq<TaskId>)
    requires t in T && forall u :: u in q ==> u in T
  {
    if proto == Fifo then r == q + [t] else exists i: nat :: PlacedAt(T, q, t, r, i)
  }

  lemma EnqueuePlaces(T: Tasks, proto: Protocol, q: seq<TaskId>, t: TaskId)
    requires t in T && forall u :: u in q ==> u in T
    requires proto != Fifo ==> Sorted(T, q)
    ensures Placed(T, proto, q, t, Enqueue(T, proto, q, t))
  {
    if proto != Fifo {
      var i := InsertPos(T, q, T[t].pri);
      forall k | i <= k < |q| ensures T[q[k]].pri > T[t].pri {
        assert k > i ==> Before(q, i, k);
      }
      assert PlacedAt(T, q, t, InsertTpri(T, q, t), i);
    }
  }

  /** `r` is a well-formed ring with the members `members`.  (An equation, so that the
      verifier hands it on as one fact.) */
  ghost predicate IsRing(T: Tasks, proto: Protocol, members: set<TaskId>, r: seq<TaskId>) {
    true == (NoDup(r) && (proto != Fifo ==> Sorted(T, r)) && (forall u :: u in r <==> u in members))
  }

  /** The tasks in a ring. */
  ghost function Members(q: seq<TaskId>): set<TaskId> {
    set u | u in q
  }

  lemma InsertTpriProps(T: Tasks, q: seq<TaskId>, t: TaskId)
    requires t in T && forall u :: u in q ==> u in T
    requires t !in q && NoDup(q) && Sorted(T, q)
    ensures var r := InsertTpri(T, q, t); NoDup(r) && Sorted(T, r) && forall u :: u in r <==> u == t || u in q
  {
    var k := InsertPos(T, q, T[t].pri);
    var r := InsertTpri(T, q, t);
    forall i, j | Before(r, i, j) ensures r[i] != r[j] && T[r[i]].pri <= T[r[j]].pri {
      var i', j' := if i < k then i else i - 1, if j < k then j else j - 1;
      if i != k && j != k {
        assert Before(q, i', j');
      } else if i == k && k < j' {
        assert Before(q, k, j');
      }
    }
    assert r[k] == t;
    forall u | u in q ensures u in r {
      var i :| 0 <= i < |q| && q[i] == u;
      assert r[if i < k then i else i + 1] == u;
    }
  }

  lemma EnqueueProps(T: Tasks, proto: Protocol, q: seq<TaskId>, t: TaskId)
    requires t in T && forall u :: u in q ==> u in T
    requires t !in q && NoDup(q) && (proto != Fifo ==> Sorted(T, q))
    ensures IsRing(T, proto, Members(q) + {t}, Enqueue(T, proto, q, t))
  {
    var r := Enqueue(T, proto, q, t);
    if proto != Fifo {
      InsertTpriProps(T, q, t);
    } else {
      forall i, j | Before(r, i, j) ensures r[i] != r[j] {
        assert j < |q| ==> Before(q, i, j);
      }
    }
  }

  /** Deleting from an ordered queue keeps it ordered. */
  lemma WithoutSorted(T: Tasks, q: seq<TaskId>, t: TaskId)
    requires Sorted(T, q)
    ensures Sorted(T, Without(q, t))
  {
    if t in q {
      WithoutAt(q, t);
      var k :| 0 <= k < |q| && q[k] == t && t !in q[..k] && Without(q, t) == q[..k] + q[k + 1..];
      var r := Without(q, t);
      forall i, j | Before(r, i, j) && r[i] in T && r[j] in T ensures T[r[i]].pri <= T[r[j]].pri {
        assert Before(q, if i < k then i else i + 1, if j < k then j else j + 1);
      }
    }
  }

  /** An order survives priority changes of tasks that are not in the queue. */
  lemma SortedElsewhere(T: Tasks, T': Tasks, q: seq<TaskId>)
    requires Sorted(T, q)
    requires forall u :: u in q ==> u in T && u in T' && T'[u].pri == T[u].pri
    ensures Sorted(T', q)
  {
    forall i, j | Before(q, i, j) ensures T'[q[i]].pri <= T'[q[j]].pri {
      assert q[i] in q && q[j] in q;
    }
  }

  lemma TailSorted(T: Tasks, q: seq<TaskId>)
    requires Sorted(T, q) && q != []
    ensures Sorted(T, q[1..])
  {
    forall i, j | Before(q[1..], i, j) && q[1..][i] in T && q[1..][j] in T
      ensures T[q[1..][i]].pri <= T[q[1..][j]].pri {
      assert Before(q, i + 1, j + 1);
    }
  }

  /** The head of an ordered queue offers the best priority found in it. */
  lemma HeadIsMin(T: Tasks, q: seq<TaskId>, t: TaskId)
    requires Sorted(T, q) && t in q && forall u :: u in q ==> u in T
    ensures T[q[0]].pri <= T[t].pri
  {
    var k :| 0 <= k < |q| && q[k] == t;
    assert k > 0 ==> Before(q, 0, k) && q[0] in q;
  }

  // ------------------------------------------------- priority change, locally

  /** Same tasks, mutexes, states, owners, chains and waiters; only priorities
      and the order inside wait rings that go by priority may differ. */
  ghost predicate SamePlumbing(T: Tasks, M: Mutexes, T': Tasks, M': Mutexes) {
    && T'.Keys == T.Keys && M'.Keys == M.Keys
    && (forall u :: u in T ==> T'[u] == T[u].(pri := T'[u].pri))
    && (forall m :: m in M ==> M'[m] == M[m].(queue := M'[m].queue))
    && (forall m, u :: m in M ==> (u in M'[m].queue <==> u in M[m].queue))
    && (forall m :: m in M && M[m].proto == Fifo ==> M'[m].queue == M[m].queue)
  }

  /** What a priority change of `t` may not touch: priorities of other tasks that
      do not come after `t` in the waits-for order, and the rings of their mutexes. */
  ghost predicate Upstream(T: Tasks, M: Mutexes, T': Tasks, M': Mutexes, rank: map<TaskId, nat>, t: TaskId)
    requires t in rank
  {
    && (forall u :: u in T && u in T' && u in rank && rank[u] >= rank[t] && u != t ==> T'[u].pri == T[u].pri)
    && (forall m :: (m in M && m in M' && M[m].owner.Some? && M[m].owner.value in rank
                     && rank[M[m].owner.value] >= rank[t]) ==> M'[m].queue == M[m].queue)
  }

  /** Excused tasks come before rank `r` in the waits-for order, and so do the
      waiters of mutexes in limbo: propagation from rank `r` never meets them. */
  ghost predicate Settled(M: Mutexes, rank: map<TaskId, nat>, r: nat, S: set<TaskId>, limbo: set<MtxId>) {
    && (forall u :: u in S && u in rank ==> rank[u] > r)
    && (forall m :: m in limbo && m in M && M[m].owner.Some? && M[m].owner.value in rank ==>
        rank[M[m].owner.value] >= r)
  }

  /** Raising to `p` moves a task to exactly `p`, or not at all. */
  ghost predicate RaisedTo(T: Tasks, T': Tasks, p: int) {
    forall u :: u in T && u in T' ==> T'[u].pri == T[u].pri || (T[u].pri > p && T'[u].pri == p)
  }

  ghost predicate SameOffer(T: Tasks, M: Mutexes, T': Tasks, M': Mutexes, m: MtxId) {
    && m in M && m in M' && M'[m].proto == M[m].proto && M'[m].ceil == M[m].ceil
    && (M[m].proto == Inherit ==>
          if M[m].queue == [] then M'[m].queue == []
          else M'[m].queue != [] && M'[m].queue[0] == M[m].queue[0]
               && M[m].queue[0] in T && M[m].queue[0] in T' && T'[M[m].queue[0]].pri == T[M[m].queue[0]].pri)
  }

  lemma BestTransfer(T: Tasks, M: Mutexes, T': Tasks, M': Mutexes, u: TaskId, p: int)
    requires u in T && u in T' && T'[u].bpri == T[u].bpri && T'[u].held == T[u].held
    requires forall m :: m in T[u].held ==> SameOffer(T, M, T', M', m)
    requires IsBest(T, M, u, p)
    ensures IsBest(T', M', u, p)
  {
    forall m, q | m in T[u].held ensures Offers(T, M, m, q) == Offers(T', M', m, q) {
      assert SameOffer(T, M, T', M', m);
    }
  }

  /** A task outside every priority-ordered ring may change priority freely. */
  lemma SetPriority(T: Tasks, M: Mutexes, limbo: set<MtxId>, S: set<TaskId>, t: TaskId, p: int)
    requires Shape(T, M, limbo) && t in T && BestExcept(T, M, S + {t})
    requires forall m :: WaitsOn(T, t, m) && m in M ==> M[m].proto == Fifo
    ensures var T' := T[t := T[t].(pri := p)];
            Shape(T', M, limbo) && BestExcept(T', M, S + {t}) && SamePlumbing(T, M, T', M)
  {
    var T' := T[t := T[t].(pri := p)];
    assert forall u, m :: WaitsOn(T', u, m) <==> WaitsOn(T, u, m);
    forall m | m in M && M[m].proto != Fifo ensures Sorted(T', M[m].queue) {
      SortedElsewhere(T, T', M[m].queue);
    }
    forall u | u in T' && u !in S + {t} ensures IsBest(T', M, u, T'[u].pri) {
      forall m | m in T[u].held ensures SameOffer(T, M, T', M, m) {
        if M[m].proto == Inherit && M[m].queue != [] {
          assert M[m].queue[0] in M[m].queue;
        }
      }
      BestTransfer(T, M, T', M, u, T[u].pri);
    }
  }

  /** The ring of `m` replaced by `r`. */
  function WithRing(M: Mutexes, m: MtxId, r: seq<TaskId>): Mutexes
    requires m in M
  {
    M[m := M[m].(queue := r)]
  }

  /** knl_gcb_change_priority: delete and insert again at the new priority `p`. */
  lemma ReorderQueue(T: Tasks, q: seq<TaskId>, proto: Protocol, t: TaskId, p: int)
    requires t in T && t in q && NoDup(q) && Sorted(T, q) && forall u :: u in q ==> u in T
    ensures var T' := T[t := T[t].(pri := p)];
            && (forall u :: u in Without(q, t) ==> u in T)
            && IsRing(T', proto, Members(q), InsertTpri(T', Without(q, t), t))
  {
    var T' := T[t := T[t].(pri := p)];
    WithoutNoDup(q, t);
    WithoutSorted(T, q, t);
    SortedElsewhere(T, T', Without(q, t));
    InsertTpriProps(T', Without(q, t), t);
  }

  /** Moving `t` in the ring of `m` concerns the owner of `m` alone, and only under inheritance. */
  lemma ReorderBest(T: Tasks, M: Mutexes, limbo: set<MtxId>, S: set<TaskId>, t: TaskId, p: int, m: MtxId,
                    r: seq<TaskId>, o: TaskId)
    requires Shape(T, M, limbo) && WaitsOn(T, t, m) && M[m].owner == Some(o)
    requires IsRing(T[t := T[t].(pri := p)], M[m].proto, Members(M[m].queue), r)
    requires BestExcept(T, M, S + {t})
    ensures var T' := T[t := T[t].(pri := p)];
            BestExcept(T', WithRing(M, m, r), S + {t} + (if M[m].proto == Inherit then {o} else {}))
  {
    var T' := T[t := T[t].(pri := p)];
    var M' := WithRing(M, m, r);
    forall u | u in T' && u !in S + {t} && (M[m].proto == Inherit ==> u != o)
      ensures IsBest(T', M', u, T'[u].pri)
    {
      forall k | k in T[u].held ensures SameOffer(T, M, T', M', k) {
        assert M[k].queue != [] ==> M[k].queue[0] in M[k].queue;
      }
      BestTransfer(T, M, T', M', u, T[u].pri);
    }
  }

  /** Ownership does not care about priorities or ring order. */
  lemma PlumbingHeld(T: Tasks, M: Mutexes, T': Tasks, M': Mutexes, limbo: set<MtxId>)
    requires SamePlumbing(T, M, T', M') && HeldShape(T, M, limbo)
    ensures HeldShape(T', M', limbo)
  {
    forall m | m in M ensures M'[m].queue == [] <==> M[m].queue == [] {
      SameMembersEmpty(M[m].queue, M'[m].queue);
    }
  }

  lemma PlumbingQueues(T: Tasks, M: Mutexes, T': Tasks, M': Mutexes)
    requires SamePlumbing(T, M, T', M') && QueueShape(T, M)
    requires forall m :: m in M' ==> NoDup(M'[m].queue)
    requires forall m :: m in M' && M'[m].proto != Fifo ==> Sorted(T', M'[m].queue)
    ensures QueueShape(T', M')
  {
    assert forall u, k :: WaitsOn(T', u, k) <==> WaitsOn(T, u, k);
  }

  lemma ReorderShape(T: Tasks, M: Mutexes, limbo: set<MtxId>, t: TaskId, p: int, m: MtxId, r: seq<TaskId>)
    requires Shape(T, M, limbo) && WaitsOn(T, t, m) && M[m].proto != Fifo
    requires IsRing(T[t := T[t].(pri := p)], M[m].proto, Members(M[m].queue), r)
    ensures var T' := T[t := T[t].(pri := p)];
            var M' := WithRing(M, m, r);
            Shape(T', M', limbo) && SamePlumbing(T, M, T', M')
  {
    var T' := T[t := T[t].(pri := p)];
    var M' := WithRing(M, m, r);
    forall k | k in M' && M'[k].proto != Fifo ensures Sorted(T', M'[k].queue) {
      if k != m {
        SortedElsewhere(T, T', M[k].queue);
      }
    }
    assert SamePlumbing(T, M, T', M');
    PlumbingQueues(T, M, T', M');
    PlumbingHeld(T, M, T', M', limbo);
  }

  /** Owner `o` of inherit mutex `m` must be raised when a waiter passes it. */
  lemma OwnerRaised(T: Tasks, M: Mutexes, limbo: set<MtxId>, t: TaskId, p: int, m: MtxId, r: seq<TaskId>, o: TaskId)
    requires Shape(T, M, limbo) && WaitsOn(T, t, m) && M[m].proto == Inherit && m !in limbo
    requires IsRing(T[t := T[t].(pri := p)], M[m].proto, Members(M[m].queue), r)
    requires M[m].owner == Some(o) && o != t && IsBest(T, M, o, T[o].pri) && T[o].pri > p
    ensures var T' := T[t := T[t].(pri := p)]; IsBest(T', WithRing(M, m, r), o, p)
  {
    var T' := T[t := T[t].(pri := p)];
    var M' := WithRing(M, m, r);
    var q := M[m].queue;
    assert t in q;
    assert t in r;
    forall u | u in q ensures T[o].pri <= T[u].pri {
      HeadIsMin(T, q, u);
      assert Offers(T, M, m, T[q[0]].pri);
    }
    HeadIsMin(T', r, t);
    assert r[0] in r;
    assert Offers(T', M', m, p);
    OtherOffers(T, M, limbo, t, p, m, r, o);
  }

  /** Offers of the other mutexes of `o` do not depend on the ring of `m`. */
  lemma OtherOffers(T: Tasks, M: Mutexes, limbo: set<MtxId>, t: TaskId, p: int, m: MtxId, r: seq<TaskId>, o: TaskId)
    requires Shape(T, M, limbo) && WaitsOn(T, t, m) && o in T
    ensures var T' := T[t := T[t].(pri := p)]; var M' := WithRing(M, m, r);
            forall k, q :: k in T[o].held && k != m ==> (Offers(T', M', k, q) <==> Offers(T, M, k, q))
  {
    forall k | k in T[o].held && k != m && M[k].proto == Inherit && M[k].queue != []
      ensures M[k].queue[0] != t
    {
      assert M[k].queue[0] in M[k].queue;
    }
  }

  /** Owner `o` keeps its priority when neither branch of mtx_chg_pri applies. */
  lemma OwnerUnmoved(T: Tasks, M: Mutexes, limbo: set<MtxId>, t: TaskId, p: int, m: MtxId, r: seq<TaskId>, o: TaskId)
    requires Shape(T, M, limbo) && WaitsOn(T, t, m) && M[m].proto == Inherit && m !in limbo
    requires IsRing(T[t := T[t].(pri := p)], M[m].proto, Members(M[m].queue), r)
    requires M[m].owner == Some(o) && o != t && IsBest(T, M, o, T[o].pri)
    requires T[o].pri <= p && (T[o].pri != T[t].pri || p == T[t].pri)
    ensures var T' := T[t := T[t].(pri := p)]; IsBest(T', WithRing(M, m, r), o, T[o].pri)
  {
    var T' := T[t := T[t].(pri := p)];
    var M' := WithRing(M, m, r);
    var q := M[m].queue;
    assert t in q;
    assert t in r;
    forall u | u in q ensures T[o].pri <= T[u].pri {
      HeadIsMin(T, q, u);
      assert Offers(T, M, m, T[q[0]].pri);
    }
    assert q[0] in q && WaitsOn(T, q[0], m) && r[0] in r && r[0] in q && WaitsOn(T, r[0], m);
    OtherOffers(T, M, limbo, t, p, m, r, o);
    assert T[o].pri <= T'[r[0]].pri;
    if T[q[0]].pri == T[o].pri {
      HeadIsMin(T', r, q[0]);
      assert T'[r[0]].pri == T[o].pri;
      assert Offers(T', M', m, T[o].pri);
    } else {
      assert !Offers(T, M, m, T[o].pri);
    }
  }

  /** A priority change of `o` leaves what its own mutexes offer it untouched. */
  lemma UpstreamBest(T: Tasks, M: Mutexes, T': Tasks, M': Mutexes, limbo: set<MtxId>, rank: map<TaskId, nat>, o: TaskId,
                     p: int)
    requires Shape(T, M, limbo) && Ranked(T, M, rank) && o in T
    requires SamePlumbing(T, M, T', M') && Upstream(T, M, T', M', rank, o)
    requires IsBest(T, M, o, p)
    ensures IsBest(T', M', o, p)
  {
    forall m | m in T[o].held ensures SameOffer(T, M, T', M', m) {
      if M[m].queue != [] {
        assert M[m].queue[0] in M[m].queue;
        assert WaitsOn(T, M[m].queue[0], m);
      }
    }
    BestTransfer(T, M, T', M', o, p);
  }

  /** A first change of `t` followed by a change of the owner `o` behind it. */
  lemma ComposeChange(T0: Tasks, M0: Mutexes, T1: Tasks, M1: Mutexes, T2: Tasks, M2: Mutexes,
                      rank: map<TaskId, nat>, t: TaskId, m: MtxId, r: seq<TaskId>, o: TaskId)
    requires t in T0 && m in M0 && t in T1 && T0.Keys <= rank.Keys
    requires T1 == T0[t := T0[t].(pri := T1[t].pri)] && M1 == WithRing(M0, m, r)
    requires SamePlumbing(T0, M0, T1, M1) && SamePlumbing(T1, M1, T2, M2)
    requires M0[m].owner == Some(o) && o in rank && rank[o] < rank[t]
    requires Upstream(T1, M1, T2, M2, rank, o)
    requires T1[t].pri <= T0[t].pri ==> RaisedTo(T1, T2, T1[t].pri)
    ensures T1[t].pri <= T0[t].pri ==> RaisedTo(T0, T2, T1[t].pri)
    ensures SamePlumbing(T0, M0, T2, M2) && Upstream(T0, M0, T2, M2, rank, t) && T2[t].pri == T1[t].pri
  {
  }

  lemma PlumbingRanked(T: Tasks, M: Mutexes, T': Tasks, M': Mutexes, rank: map<TaskId, nat>)
    requires SamePlumbing(T, M, T', M') && Ranked(T, M, rank)
    ensures Ranked(T', M', rank)
  {
    assert forall u, k :: WaitsOn(T', u, k) <==> WaitsOn(T, u, k);
  }

  // ------------------------------------------------------------ held mutexes

  /** The chain after knl_release_mutex has unlinked `rel` (if any). */
  function Unlinked(held: seq<MtxId>, rel: Option<MtxId>): seq<MtxId> {
    match rel
    case None => held
    case Some(m) => Without(held, m)
  }

  function LimboSet(rel: Option<MtxId>): set<MtxId> {
    match rel
    case None => {}
    case Some(m) => {m}
  }

  lemma UnlinkShape(T: Tasks, M: Mutexes, limbo: set<MtxId>, t: TaskId, rel: Option<MtxId>)
    requires Shape(T, M, limbo) && t in T && (rel.Some? ==> rel.value in T[t].held)
    ensures Shape(T[t := T[t].(held := Unlinked(T[t].held, rel))], M, limbo + LimboSet(rel))
  {
    var kept := Unlinked(T[t].held, rel);
    var H := T[t := T[t].(held := kept)];
    if rel.Some? {
      WithoutNoDup(T[t].held, rel.value);
    }
    assert QueueShape(H, M) by {
      assert forall u, k :: WaitsOn(H, u, k) <==> WaitsOn(T, u, k);
      forall m | m in M && M[m].proto != Fifo ensures Sorted(H, M[m].queue) {
        SortedElsewhere(T, H, M[m].queue);
      }
    }
    UnlinkHeld(T, M, limbo, t, rel);
  }

  lemma UnlinkHeld(T: Tasks, M: Mutexes, limbo: set<MtxId>, t: TaskId, rel: Option<MtxId>)
    requires HeldShape(T, M, limbo) && t in T && (rel.Some? ==> rel.value in T[t].held)
    ensures HeldShape(T[t := T[t].(held := Unlinked(T[t].held, rel))], M, limbo + LimboSet(rel))
  {
    if rel.Some? {
      WithoutNoDup(T[t].held, rel.value);
    }
  }

  lemma UnlinkBest(T: Tasks, M: Mutexes, limbo: set<MtxId>, S: set<TaskId>, t: TaskId, held: seq<MtxId>)
    requires Shape(T, M, limbo) && t in T && BestExcept(T, M, S + {t})
    ensures BestExcept(T[t := T[t].(held := held)], M, S + {t})
  {
    var H := T[t := T[t].(held := held)];
    forall u | u in H && u !in S + {t} ensures IsBest(H, M, u, H[u].pri) {
      forall m | m in T[u].held ensures SameOffer(T, M, H, M, m) {
        assert M[m].queue != [] ==> M[m].queue[0] in M[m].queue;
      }
      BestTransfer(T, M, H, M, u, T[u].pri);
    }
  }

  lemma UnlinkedStep(held: seq<MtxId>, m: MtxId, rel: Option<MtxId>)
    requires m !in held
    ensures Unlinked(held + [m], rel) == if rel == Some(m) then Unlinked(held, rel) else Unlinked(held, rel) + [m]
  {
    if rel.Some? {
      WithoutSnoc(held, m, rel.value);
    }
  }

  /** What moving `t` in the ring of `m` cannot disturb. */
  lemma ReorderFrame(T: Tasks, M: Mutexes, rank: map<TaskId, nat>, limbo: set<MtxId>, S: set<TaskId>, t: TaskId, p: int,
                     m: MtxId, r: seq<TaskId>)
    requires QueueShape(T, M) && HeldShape(T, M, limbo) && Ranked(T, M, rank) && WaitsOn(T, t, m)
    ensures M[m].owner.Some? && M[m].owner.value in T && rank[M[m].owner.value] < rank[t]
    ensures var T' := T[t := T[t].(pri := p)]; var M' := WithRing(M, m, r);
            && Upstream(T, M, T', M', rank, t)
            && (Settled(M, rank, rank[t], S, limbo) ==> Settled(M', rank, rank[t], S, limbo))
            && (p <= T[t].pri ==> RaisedTo(T, T', p))
  {
    assert t in M[m].queue;
  }

  /** What the owner of inherit mutex `m` is owed once `t` has moved in its ring. */
  lemma ReorderOwner(T: Tasks, M: Mutexes, limbo: set<MtxId>, t: TaskId, p: int, m: MtxId, r: seq<TaskId>, o: TaskId)
    requires Shape(T, M, limbo) && WaitsOn(T, t, m) && M[m].proto == Inherit && m !in limbo
    requires IsRing(T[t := T[t].(pri := p)], M[m].proto, Members(M[m].queue), r)
    requires M[m].owner == Some(o) && o != t && IsBest(T, M, o, T[o].pri)
    ensures var T' := T[t := T[t].(pri := p)]; var M' := WithRing(M, m, r);
            && (T'[o].pri > p ==> IsBest(T', M', o, p))
            && (T'[o].pri <= p && (T'[o].pri != T[t].pri || p == T[t].pri) ==> IsBest(T', M', o, T'[o].pri))
  {
    if T[o].pri > p {
      OwnerRaised(T, M, limbo, t, p, m, r, o);
    } else if T[o].pri != T[t].pri || p == T[t].pri {
      OwnerUnmoved(T, M, limbo, t, p, m, r, o);
    }
  }

  /** `t` has moved in the ring of `m`, which `o` owns: (T, M) became (T', M'), and the second
      half of mtx_chg_pri may go on from there.  (An equation, so that the verifier hands it
      on as one fact.) */
  ghost predicate Reordered(T: Tasks, M: Mutexes, T': Tasks, M': Mutexes, rank: map<TaskId, nat>, S: set<TaskId>,
                            limbo: set<MtxId>, t: TaskId, m: MtxId, o: TaskId) {
    true == (
      && t in T && t in T' && t in rank && m in M && M[m].owner == Some(o) && o in T' && o in rank && rank[o] < rank[t]
      && Shape(T', M', limbo) && SamePlumbing(T, M, T', M') && Ranked(T', M', rank)
      && Settled(M', rank, rank[t], S, limbo) && Upstream(T, M, T', M', rank, t)
      && (T'[t].pri <= T[t].pri ==> RaisedTo(T, T', T'[t].pri))
      && BestExcept(T', M', S + {t} + {o}) && OwnerDue(T, M, T', M', S, t, m, o)
    )
  }

  /** What `o` is owed then: nothing new without inheritance, and otherwise what mtx_chg_pri
      will give it. */
  ghost predicate OwnerDue(T: Tasks, M: Mutexes, T': Tasks, M': Mutexes, S: set<TaskId>, t: TaskId, m: MtxId, o: TaskId)
    requires t in T && t in T' && m in M && o in T'
  {
    && (M[m].proto != Inherit ==> BestExcept(T', M', S + {t}))
    && (M[m].proto == Inherit && T'[o].pri > T'[t].pri ==> IsBest(T', M', o, T'[t].pri))
    && (M[m].proto == Inherit && T'[o].pri <= T'[t].pri && (T'[o].pri != T[t].pri || T'[t].pri == T[t].pri) ==>
          IsBest(T', M', o, T'[o].pri))
  }

  lemma AfterReorder(T: Tasks, M: Mutexes, rank: map<TaskId, nat>, S: set<TaskId>, limbo: set<MtxId>, t: TaskId,
                     T': Tasks, m: MtxId, r: seq<TaskId>)
    requires Shape(T, M, limbo) && Ranked(T, M, rank) && WaitsOn(T, t, m) && M[m].proto != Fifo
    requires t in T' && T' == T[t := T[t].(pri := T'[t].pri)] && IsRing(T', M[m].proto, Members(M[m].queue), r)
    requires BestExcept(T, M, S + {t}) && Settled(M, rank, rank[t], S, limbo)
    ensures M[m].owner.Some? && Reordered(T, M, T', WithRing(M, m, r), rank, S, limbo, t, m, M[m].owner.value)
  {
    var p := T'[t].pri;
    var M' := WithRing(M, m, r);
    ReorderFrame(T, M, rank, limbo, S, t, p, m, r);
    var o := M[m].owner.value;
    if M[m].proto == Inherit {
      assert IsBest(T, M, o, T[o].pri);
      ReorderOwner(T, M, limbo, t, p, m, r, o);
    }
    ReorderBest(T, M, limbo, S, t, p, m, r, o);
    ReorderShape(T, M, limbo, t, p, m, r);
    PlumbingRanked(T, M, T', M', rank);
  }
}
