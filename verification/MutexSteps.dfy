/**
 The elementary moves of the mutex system calls as maps on values (take a free
 mutex, join a wait ring, leave it, receive a mutex, give one up), and what each
 move does to the invariants.
 */
module MutexSteps {
  import opened Common
  import opened MutexSpec

  /** knl_make_non_wait: the state after a wait is released. */
  function Awake(s: TaskState): TaskState {
    if s.Waiting? then (if s.suspended then Suspended else Ready) else s
  }

  /** knl_make_wait: the state after a wait begins. */
  function Asleep(s: TaskState, on: WaitObject): TaskState {
    Waiting(on, s.Suspended?)
  }

  /** Best priority once a mutex with `proto` and `ceil` is added to the chain. */
  function Capped(pri: int, proto: Protocol, ceil: int): int {
    if proto == Ceiling && pri > ceil then ceil else pri
  }

  // ------------------------------------------------------------- take a free mutex

  function TakenT(T: Tasks, c: TaskId, m: MtxId): Tasks
    requires c in T
  {
    T[c := T[c].(held := [m] + T[c].held)]
  }

  function TakenM(M: Mutexes, c: TaskId, m: MtxId): Mutexes
    requires m in M
  {
    M[m := M[m].(owner := Some(c))]
  }

  lemma TakeShape(T: Tasks, M: Mutexes, c: TaskId, m: MtxId)
    requires Shape(T, M, {}) && c in T && !T[c].state.Dormant? && m in M && M[m].owner.None?
    ensures Shape(TakenT(T, c, m), TakenM(M, c, m), {})
  {
    var T', M' := TakenT(T, c, m), TakenM(M, c, m);
    assert QueueShape(T', M') by {
      assert forall u, k :: WaitsOn(T', u, k) <==> WaitsOn(T, u, k);
      forall k | k in M && M[k].proto != Fifo ensures Sorted(T', M[k].queue) {
        SortedElsewhere(T, T', M[k].queue);
      }
    }
    TakeHeld(T, M, c, m);
  }

  lemma TakeHeld(T: Tasks, M: Mutexes, c: TaskId, m: MtxId)
    requires HeldShape(T, M, {}) && c in T && !T[c].state.Dormant? && m in M && M[m].owner.None?
    ensures HeldShape(TakenT(T, c, m), TakenM(M, c, m), {})
  {
    assert m !in T[c].held;
    ConsNoDup(m, T[c].held);
  }

  lemma TakeBest(T: Tasks, M: Mutexes, c: TaskId, m: MtxId)
    requires Shape(T, M, {}) && c in T && m in M && M[m].owner.None? && BestExcept(T, M, {})
    ensures BestExcept(TakenT(T, c, m), TakenM(M, c, m), {c})
    ensures IsBest(TakenT(T, c, m), TakenM(M, c, m), c, Capped(T[c].pri, M[m].proto, M[m].ceil))
  {
    var T', M' := TakenT(T, c, m), TakenM(M, c, m);
    assert forall k :: k in M && M[k].queue != [] ==> M[k].queue[0] in M[k].queue;
    assert forall k, q :: Offers(T', M', k, q) <==> Offers(T, M, k, q);
    assert forall k :: k in T'[c].held <==> k == m || k in T[c].held;
    forall u | u in T' && u != c ensures IsBest(T', M', u, T'[u].pri) {
      assert IsBest(T, M, u, T[u].pri);
    }
    assert IsBest(T, M, c, T[c].pri);
    if M[m].proto == Ceiling {
      assert Offers(T', M', m, M[m].ceil);
    }
  }

  lemma TakeRest(T: Tasks, M: Mutexes, c: TaskId, m: MtxId, rank: map<TaskId, nat>)
    requires Shape(T, M, {}) && c in T && m in M && M[m].owner.None?
    requires Ranked(T, M, rank) && CeilingsRespected(T, M) && (M[m].proto == Ceiling ==> M[m].ceil <= T[c].bpri)
    ensures Ranked(TakenT(T, c, m), TakenM(M, c, m), rank) && CeilingsRespected(TakenT(T, c, m), TakenM(M, c, m))
  {
    var T', M' := TakenT(T, c, m), TakenM(M, c, m);
    assert forall u, k :: WaitsOn(T', u, k) <==> WaitsOn(T, u, k);
  }

  // ------------------------------------------------------------- join a wait ring

  function JoinedT(T: Tasks, c: TaskId, m: MtxId): Tasks
    requires c in T
  {
    T[c := T[c].(state := Asleep(T[c].state, OnMutex(m)))]
  }

  lemma JoinShape(T: Tasks, M: Mutexes, c: TaskId, m: MtxId, r: seq<TaskId>)
    requires Shape(T, M, {}) && c in T && !T[c].state.Waiting? && !T[c].state.Dormant? && m in M && M[m].owner.Some?
    requires IsRing(T, M[m].proto, Members(M[m].queue) + {c}, r)
    ensures Shape(JoinedT(T, c, m), WithRing(M, m, r), {})
  {
    var T', M' := JoinedT(T, c, m), WithRing(M, m, r);
    assert QueueShape(T', M') by {
      assert WaitsOn(T', c, m);
      assert forall u, k :: WaitsOn(T', u, k) <==> WaitsOn(T, u, k) || (u == c && k == m);
      forall k | k in M' && M'[k].proto != Fifo ensures Sorted(T', M'[k].queue) {
        SortedElsewhere(T, T', M'[k].queue);
      }
    }
    assert HeldShape(T', M', {});
  }

  lemma JoinBest(T: Tasks, M: Mutexes, S: set<TaskId>, c: TaskId, m: MtxId, r: seq<TaskId>, o: TaskId)
    requires Shape(T, M, {}) && c in T && m in M && M[m].owner == Some(o) && BestExcept(T, M, S)
    ensures BestExcept(JoinedT(T, c, m), WithRing(M, m, r), S + {o})
    ensures M[m].proto != Inherit ==> BestExcept(JoinedT(T, c, m), WithRing(M, m, r), S)
  {
    var T', M' := JoinedT(T, c, m), WithRing(M, m, r);
    forall u | u in T' && u !in S && (M[m].proto == Inherit ==> u != o) ensures IsBest(T', M', u, T'[u].pri) {
      forall k | k in T[u].held ensures SameOffer(T, M, T', M', k) {
        assert M[k].queue != [] ==> M[k].queue[0] in M[k].queue;
      }
      BestTransfer(T, M, T', M', u, T[u].pri);
    }
  }

  /** The owner `o` of inherit mutex `m`, at priority `r`, when `c` joins the ring:
      either `o` was raised to the priority of `c`, or it was good enough already. */
  lemma JoinOwner(T: Tasks, M: Mutexes, c: TaskId, m: MtxId, q': seq<TaskId>, o: TaskId, b: int, r: int)
    requires Shape(T, M, {}) && c in T && !T[c].state.Waiting? && m in M && M[m].proto == Inherit
             && M[m].owner == Some(o)
    requires IsRing(T, M[m].proto, Members(M[m].queue) + {c}, q')
    requires IsBest(T, M, o, b) && r == (if b > T[c].pri then T[c].pri else b)
    ensures IsBest(JoinedT(T, c, m), WithRing(M, m, q'), o, r)
  {
    var T', M' := JoinedT(T, c, m), WithRing(M, m, q');
    var q := M[m].queue;
    assert c in q';
    SortedElsewhere(T, T', q');
    assert q'[0] in q';
    assert m in T[o].held;
    forall k | k in T[o].held && k != m ensures forall v :: Offers(T', M', k, v) <==> Offers(T, M, k, v) {
      assert M[k].queue != [] ==> M[k].queue[0] in M[k].queue;
    }
    forall u | u in q ensures b <= T[u].pri {
      HeadIsMin(T, q, u);
      assert Offers(T, M, m, T[q[0]].pri);
    }
    assert r <= T'[q'[0]].pri;
    HeadIsMin(T', q', c);
    if b > T[c].pri {
      assert Offers(T', M', m, r);
    } else if Offers(T, M, m, b) {
      HeadIsMin(T', q', q[0]);
      assert Offers(T', M', m, r);
    }
  }

  lemma JoinCeilings(T: Tasks, M: Mutexes, c: TaskId, m: MtxId, r: seq<TaskId>)
    requires Shape(T, M, {}) && c in T && m in M && CeilingsRespected(T, M)
    requires M[m].proto == Ceiling ==> M[m].ceil <= T[c].bpri
    ensures CeilingsRespected(JoinedT(T, c, m), WithRing(M, m, r))
  {
    var T', M' := JoinedT(T, c, m), WithRing(M, m, r);
    assert forall u, k :: WaitsOn(T', u, k) ==> WaitsOn(T, u, k) || (u == c && k == m);
  }

  /** Along a waits-for path the rank falls. */
  lemma {:induction false} PathRank(T: Tasks, M: Mutexes, rank: map<TaskId, nat>, x: TaskId, y: TaskId, n: nat)
    requires Ranked(T, M, rank) && HeldShape(T, M, {}) && Path(T, M, x, y, n) && x in T
    ensures y in T && (if n == 0 then x == y else rank[y] < rank[x])
    decreases n
  {
    if n > 0 {
      assert WaitsOn(T, x, T[x].state.on.m);
      PathRank(T, M, rank, Next(T, M, x), y, n - 1);
    }
  }

  /** A path that ends in `c` survives when `c` itself starts to wait. */
  lemma {:induction false} PathKept(T: Tasks, M: Mutexes, c: TaskId, m: MtxId, r: seq<TaskId>, x: TaskId, n: nat)
    requires Shape(T, M, {}) && c in T && !T[c].state.Waiting? && m in M && Path(T, M, x, c, n)
    ensures Path(JoinedT(T, c, m), WithRing(M, m, r), x, c, n)
    decreases n
  {
    if n > 0 {
      PathKept(T, M, c, m, r, Next(T, M, x), n - 1);
    }
  }

  lemma ReachesStep(T: Tasks, M: Mutexes, x: TaskId, y: TaskId)
    requires HasNext(T, M, x) && Reaches(T, M, Next(T, M, x), y)
    ensures Reaches(T, M, x, y)
  {
    var n: nat :| Path(T, M, Next(T, M, x), y, n);
    assert Path(T, M, x, y, n + 1);
  }

  /** Waiting keeps the graph acyclic exactly when the owner does not already
      wait, directly or indirectly, for the caller. */
  lemma JoinAcyclic(T: Tasks, M: Mutexes, c: TaskId, m: MtxId, r: seq<TaskId>, o: TaskId)
    requires Shape(T, M, {}) && Acyclic(T, M) && c in T && !T[c].state.Waiting? && !T[c].state.Dormant?
    requires m in M && M[m].owner == Some(o) && IsRing(T, M[m].proto, Members(M[m].queue) + {c}, r)
    ensures Acyclic(JoinedT(T, c, m), WithRing(M, m, r)) <==> !Reaches(T, M, o, c)
  {
    var T', M' := JoinedT(T, c, m), WithRing(M, m, r);
    assert WaitsOn(T', c, m) && HasNext(T', M', c) && Next(T', M', c) == o;
    if Reaches(T, M, o, c) {
      var n: nat :| Path(T, M, o, c, n);
      PathKept(T, M, c, m, r, o, n);
      assert Path(T', M', c, c, n + 1);
      JoinShape(T, M, c, m, r);
      if Acyclic(T', M') {
        var rank :| Ranked(T', M', rank);
        PathRank(T', M', rank, c, c, n + 1);
      }
    } else {
      var rank :| Ranked(T, M, rank);
      JoinRank(T, M, c, m, r, o, rank);
    }
  }

  lemma JoinRank(T: Tasks, M: Mutexes, c: TaskId, m: MtxId, r: seq<TaskId>, o: TaskId, rank: map<TaskId, nat>)
    requires Shape(T, M, {}) && Ranked(T, M, rank) && c in T && !T[c].state.Waiting?
    requires m in M && M[m].owner == Some(o) && !Reaches(T, M, o, c)
    ensures Acyclic(JoinedT(T, c, m), WithRing(M, m, r))
  {
    var T', M' := JoinedT(T, c, m), WithRing(M, m, r);
    var k := rank[o] + 1;
    var rank' := map x | x in rank :: if Reaches(T, M, x, c) then rank[x] + k else rank[x];
    assert Path(T, M, c, c, 0);
    forall u, j | WaitsOn(T', u, j) && j in M' && M'[j].owner.Some? && M'[j].owner.value in rank'
      ensures rank'[M'[j].owner.value] < rank'[u]
    {
      if u != c {
        assert WaitsOn(T, u, j);
        if Reaches(T, M, M[j].owner.value, c) {
          ReachesStep(T, M, u, c);
        }
      }
    }
    assert Ranked(T', M', rank');
  }

  // ------------------------------------------------------------ leave a wait ring

  function LeftT(T: Tasks, t: TaskId): Tasks
    requires t in T
  {
    T[t := T[t].(state := Awake(T[t].state))]
  }

  lemma LeaveRing(T: Tasks, q: seq<TaskId>, proto: Protocol, t: TaskId)
    requires NoDup(q) && (proto != Fifo ==> Sorted(T, q))
    ensures IsRing(T, proto, Members(q) - {t}, Without(q, t))
  {
    WithoutNoDup(q, t);
    if proto != Fifo {
      WithoutSorted(T, q, t);
    }
  }

  lemma LeaveShape(T: Tasks, M: Mutexes, limbo: set<MtxId>, t: TaskId, m: MtxId, r: seq<TaskId>)
    requires Shape(T, M, limbo) && WaitsOn(T, t, m)
    requires IsRing(T, M[m].proto, Members(M[m].queue) - {t}, r)
    ensures Shape(LeftT(T, t), WithRing(M, m, r), limbo)
  {
    var T', M' := LeftT(T, t), WithRing(M, m, r);
    assert forall u, k :: WaitsOn(T', u, k) <==> WaitsOn(T, u, k) && u != t;
    assert QueueShape(T', M') by {
      forall k | k in M' && M'[k].proto != Fifo ensures Sorted(T', M'[k].queue) {
        SortedElsewhere(T, T', M'[k].queue);
      }
    }
    assert HeldShape(T', M', limbo);
  }

  lemma LeaveRest(T: Tasks, M: Mutexes, t: TaskId, m: MtxId, r: seq<TaskId>, rank: map<TaskId, nat>)
    requires t in T && m in M && Ranked(T, M, rank) && CeilingsRespected(T, M)
    ensures Ranked(LeftT(T, t), WithRing(M, m, r), rank) && CeilingsRespected(LeftT(T, t), WithRing(M, m, r))
  {
    var T', M' := LeftT(T, t), WithRing(M, m, r);
    assert forall u, k :: WaitsOn(T', u, k) ==> WaitsOn(T, u, k);
  }

  /** Only the owner of an inherit mutex, and only if the mutex is in its chain, can notice. */
  lemma LeaveBest(T: Tasks, M: Mutexes, limbo: set<MtxId>, S: set<TaskId>, t: TaskId, m: MtxId, r: seq<TaskId>,
                  o: TaskId)
    requires Shape(T, M, limbo) && WaitsOn(T, t, m) && M[m].owner == Some(o) && BestExcept(T, M, S)
    ensures BestExcept(LeftT(T, t), WithRing(M, m, r), S + {o})
    ensures M[m].proto != Inherit || m in limbo ==> BestExcept(LeftT(T, t), WithRing(M, m, r), S)
  {
    var T', M' := LeftT(T, t), WithRing(M, m, r);
    forall u | u in T' && u !in S && (M[m].proto == Inherit && m !in limbo ==> u != o)
      ensures IsBest(T', M', u, T'[u].pri) {
      forall k | k in T[u].held ensures SameOffer(T, M, T', M', k) {
        assert M[k].queue != [] ==> M[k].queue[0] in M[k].queue;
      }
      BestTransfer(T, M, T', M', u, T[u].pri);
    }
  }

  /** mtx_rel_wai skips the owner when its priority differs from the leaver's. */
  lemma LeaveOwner(T: Tasks, M: Mutexes, t: TaskId, m: MtxId, r: seq<TaskId>, o: TaskId)
    requires Shape(T, M, {}) && WaitsOn(T, t, m) && M[m].proto == Inherit && M[m].owner == Some(o)
    requires IsRing(T, M[m].proto, Members(M[m].queue) - {t}, r)
    requires IsBest(T, M, o, T[o].pri) && T[o].pri != T[t].pri
    ensures IsBest(LeftT(T, t), WithRing(M, m, r), o, T[o].pri)
  {
    var T', M' := LeftT(T, t), WithRing(M, m, r);
    var q := M[m].queue;
    forall k | k in T[o].held && k != m ensures forall v :: Offers(T', M', k, v) <==> Offers(T, M, k, v) {
      assert M[k].queue != [] ==> M[k].queue[0] in M[k].queue;
    }
    assert t in q && q[0] in q && Offers(T, M, m, T[q[0]].pri);
    HeadIsMin(T, q, t);
    if r != [] {
      assert r[0] in r;
      HeadIsMin(T, q, r[0]);
      if q[0] != t { HeadIsMin(T, r, q[0]); }
    } else {
      assert q[0] == t by { assert q[0] !in r; }
    }
  }

  // ------------------------------------------------------------ receive a mutex

  function GivenT(T: Tasks, w: TaskId, m: MtxId): Tasks
    requires w in T
  {
    T[w := T[w].(state := Awake(T[w].state), held := [m] + T[w].held)]
  }

  function GivenM(M: Mutexes, m: MtxId, w: TaskId, r: seq<TaskId>): Mutexes
    requires m in M
  {
    M[m := M[m].(owner := Some(w), queue := r)]
  }

  lemma GiveRing(T: Tasks, q: seq<TaskId>, proto: Protocol)
    requires NoDup(q) && (proto != Fifo ==> Sorted(T, q)) && q != []
    ensures IsRing(T, proto, Members(q) - {q[0]}, q[1..])
  {
    TailNoDup(q);
    if proto != Fifo { TailSorted(T, q); }
    assert forall u :: u in q <==> u == q[0] || u in q[1..];
  }

  lemma GiveShape(T: Tasks, M: Mutexes, m: MtxId, w: TaskId, r: seq<TaskId>)
    requires Shape(T, M, {m}) && m in M && M[m].owner.Some? && WaitsOn(T, w, m)
    requires IsRing(T, M[m].proto, Members(M[m].queue) - {w}, r)
    ensures Shape(GivenT(T, w, m), GivenM(M, m, w, r), {})
  {
    var T', M' := GivenT(T, w, m), GivenM(M, m, w, r);
    assert QueueShape(T', M') by {
      assert forall u, k :: WaitsOn(T', u, k) <==> WaitsOn(T, u, k) && u != w;
      forall k | k in M' && M'[k].proto != Fifo ensures Sorted(T', M'[k].queue) {
        SortedElsewhere(T, T', M'[k].queue);
      }
    }
    GiveHeld(T, M, m, w, r);
  }

  lemma GiveHeld(T: Tasks, M: Mutexes, m: MtxId, w: TaskId, r: seq<TaskId>)
    requires HeldShape(T, M, {m}) && m in M && M[m].owner.Some? && WaitsOn(T, w, m)
    ensures HeldShape(GivenT(T, w, m), GivenM(M, m, w, r), {})
  {
    assert m !in T[w].held;
    ConsNoDup(m, T[w].held);
  }

  lemma GiveBest(T: Tasks, M: Mutexes, S: set<TaskId>, m: MtxId, w: TaskId, r: seq<TaskId>)
    requires Shape(T, M, {m}) && m in M && M[m].owner.Some? && WaitsOn(T, w, m) && w == M[m].queue[0]
    requires IsRing(T, M[m].proto, Members(M[m].queue) - {w}, r) && BestExcept(T, M, S)
    ensures BestExcept(GivenT(T, w, m), GivenM(M, m, w, r), S + {w})
    ensures w !in S ==> IsBest(GivenT(T, w, m), GivenM(M, m, w, r), w, Capped(T[w].pri, M[m].proto, M[m].ceil))
  {
    var T', M' := GivenT(T, w, m), GivenM(M, m, w, r);
    assert forall k, v :: k != m ==> (Offers(T', M', k, v) <==> Offers(T, M, k, v));
    forall u | u in T' && u !in S && u != w ensures IsBest(T', M', u, T'[u].pri) {
      assert m !in T[u].held;
      assert IsBest(T, M, u, T[u].pri);
    }
    if w !in S {
      assert IsBest(T, M, w, T[w].pri);
      assert forall k :: k in T'[w].held <==> k == m || k in T[w].held;
      if M[m].proto == Inherit && r != [] {
        assert r[0] in r;
        HeadIsMin(T, M[m].queue, r[0]);
      }
      assert M[m].proto == Ceiling ==> Offers(T', M', m, M[m].ceil);
    }
  }

  lemma GiveRest(T: Tasks, M: Mutexes, m: MtxId, w: TaskId, r: seq<TaskId>)
    requires Shape(T, M, {m}) && m in M && M[m].owner.Some? && WaitsOn(T, w, m)
    requires Acyclic(T, M) && CeilingsRespected(T, M)
    ensures Acyclic(GivenT(T, w, m), GivenM(M, m, w, r)) && CeilingsRespected(GivenT(T, w, m), GivenM(M, m, w, r))
  {
    var T', M' := GivenT(T, w, m), GivenM(M, m, w, r);
    assert forall u, k :: WaitsOn(T', u, k) ==> WaitsOn(T, u, k) && u != w;
    var rank :| Ranked(T, M, rank);
    var rank' := map x | x in rank :: if x == w then 0 else rank[x] + 1;
    assert Ranked(T', M', rank');
    assert forall k :: k in T'[w].held <==> k == m || k in T[w].held;
  }

  // --------------------------------------------------------- give up, create, delete

  lemma FreeMutex(T: Tasks, M: Mutexes, m: MtxId, S: set<TaskId>)
    requires Shape(T, M, {m}) && m in M && M[m].owner.Some? && M[m].queue == []
    requires Acyclic(T, M) && CeilingsRespected(T, M) && BestExcept(T, M, S)
    ensures var M' := M[m := M[m].(owner := None)];
            Shape(T, M', {}) && Acyclic(T, M') && CeilingsRespected(T, M') && BestExcept(T, M', S)
  {
    var M' := M[m := M[m].(owner := None)];
    var rank :| Ranked(T, M, rank);
    assert Ranked(T, M', rank);
    assert forall k, v :: Offers(T, M', k, v) <==> Offers(T, M, k, v);
    forall u | u in T && u !in S ensures IsBest(T, M', u, T[u].pri) {
      assert IsBest(T, M, u, T[u].pri);
    }
  }

  lemma DropMutex(T: Tasks, M: Mutexes, m: MtxId)
    requires Steady(T, M, {}, {m}) && m in M && M[m].queue == []
    ensures Consistent(T, M - {m})
  {
    var M' := M - {m};
    DropShape(T, M, m);
    var rank :| Ranked(T, M, rank);
    assert Ranked(T, M', rank);
    OtherMutex(T, M, M', {m}, m);
  }

  /** A mutex that is in nobody's chain may come, go or change. */
  lemma OtherMutex(T: Tasks, M: Mutexes, M': Mutexes, limbo: set<MtxId>, m: MtxId)
    requires Shape(T, M, limbo) && BestExcept(T, M, {})
    requires forall u :: u in T ==> m !in T[u].held
    requires forall k :: k != m && k in M ==> k in M' && M'[k] == M[k]
    ensures BestExcept(T, M', {})
  {
    forall u | u in T ensures IsBest(T, M', u, T[u].pri) {
      forall k | k in T[u].held ensures SameOffer(T, M, T, M', k) {
        assert M[k].queue != [] ==> M[k].queue[0] in M[k].queue;
      }
      BestTransfer(T, M, T, M', u, T[u].pri);
    }
  }

  lemma DropShape(T: Tasks, M: Mutexes, m: MtxId)
    requires Shape(T, M, {m}) && m in M && M[m].queue == []
    ensures Shape(T, M - {m}, {}) && forall u :: u in T ==> m !in T[u].held
  {
    assert forall u :: u in T ==> m !in T[u].held;
    assert QueueShape(T, M - {m});
    assert HeldShape(T, M - {m}, {});
  }

  // --------------------------------------------- what propagation cannot change

  lemma PlumbingCeilings(T: Tasks, M: Mutexes, T': Tasks, M': Mutexes)
    requires SamePlumbing(T, M, T', M') && CeilingsRespected(T, M)
    ensures CeilingsRespected(T', M')
  {
    assert forall u, k :: WaitsOn(T', u, k) <==> WaitsOn(T, u, k);
  }

  lemma {:induction false} PlumbingPath(T: Tasks, M: Mutexes, T': Tasks, M': Mutexes, x: TaskId, y: TaskId, n: nat)
    requires SamePlumbing(T, M, T', M')
    ensures Path(T', M', x, y, n) <==> Path(T, M, x, y, n)
    decreases n
  {
    if n > 0 && HasNext(T, M, x) {
      PlumbingPath(T, M, T', M', Next(T, M, x), y, n - 1);
    }
  }

  lemma PlumbingReaches(T: Tasks, M: Mutexes, T': Tasks, M': Mutexes, x: TaskId, y: TaskId)
    requires SamePlumbing(T, M, T', M')
    ensures Reaches(T', M', x, y) <==> Reaches(T, M, x, y)
  {
    forall n: nat ensures Path(T', M', x, y, n) <==> Path(T, M, x, y, n) {
      PlumbingPath(T, M, T', M', x, y, n);
    }
  }

  lemma JoinPlumbing(T: Tasks, M: Mutexes, T': Tasks, M': Mutexes, c: TaskId, m: MtxId, r: seq<TaskId>)
    requires SamePlumbing(T, M, T', M') && c in T && m in M && IsRing(T', M[m].proto, Members(M'[m].queue) + {c}, r)
    requires M[m].proto == Fifo ==> r == M'[m].queue + [c]
    ensures SamePlumbing(JoinedT(T, c, m), WithRing(M, m, M[m].queue + [c]), JoinedT(T', c, m), WithRing(M', m, r))
  {
  }

  /** All of a wait on `m`, after its owner `o` (entitled to `b` so far) has been
      raised to the caller's priority if inheritance asks for it. */
  lemma JoinAll(T: Tasks, M: Mutexes, c: TaskId, m: MtxId, r: seq<TaskId>, o: TaskId, b: int)
    requires Steady(T, M, {o}, {}) && c in T && !T[c].state.Waiting? && !T[c].state.Dormant?
    requires m in M && M[m].owner == Some(o) && (M[m].proto == Ceiling ==> M[m].ceil <= T[c].bpri)
    requires o in T && IsBest(T, M, o, b) && IsRing(T, M[m].proto, Members(M[m].queue) + {c}, r)
    requires T[o].pri == if M[m].proto == Inherit && b > T[c].pri then T[c].pri else b
    ensures Deadlockable(JoinedT(T, c, m), WithRing(M, m, r), !Reaches(T, M, o, c))
  {
    var T', M' := JoinedT(T, c, m), WithRing(M, m, r);
    JoinBest(T, M, {o}, c, m, r, o);
    assert IsBest(T', M', o, T'[o].pri) by {
      if M[m].proto == Inherit {
        JoinOwner(T, M, c, m, r, o, b, T[o].pri);
      } else {
        JoinBest(T, M, {}, c, m, r, o);
      }
    }
    assert BestExcept(T', M', {});
    JoinShape(T, M, c, m, r);
    JoinCeilings(T, M, c, m, r);
    JoinAcyclic(T, M, c, m, r, o);
  }

  /** The global invariant but for cycles, of which there are none exactly if `acyclic`.
      (This and the predicates below that begin with `true ==` are equations, so that the
      verifier hands each on as one fact.) */
  ghost predicate Deadlockable(T: Tasks, M: Mutexes, acyclic: bool) {
    true == (
      && Shape(T, M, {}) && BestExcept(T, M, {}) && CeilingsRespected(T, M)
      && (Acyclic(T, M) <==> acyclic)
    )
  }

  lemma UnlinkedRest(T: Tasks, M: Mutexes, T': Tasks, M': Mutexes, t: TaskId, m: MtxId, rank: map<TaskId, nat>)
    requires t in T && Ranked(T, M, rank) && CeilingsRespected(T, M)
    requires SamePlumbing(T[t := T[t].(held := Unlinked(T[t].held, Some(m)))], M, T', M')
    ensures Ranked(T', M', rank) && CeilingsRespected(T', M')
  {
    var H := T[t := T[t].(held := Unlinked(T[t].held, Some(m)))];
    assert forall u, k :: WaitsOn(H, u, k) <==> WaitsOn(T, u, k);
    PlumbingRanked(H, M, T', M', rank);
    PlumbingCeilings(H, M, T', M');
  }

  /** The owner `o` of `m` has been raised on behalf of `c`, which does not wait yet. */
  ghost predicate HolderRaised(T0: Tasks, M0: Mutexes, T: Tasks, M: Mutexes, c: TaskId, m: MtxId, o: TaskId) {
    true == (
      && SamePlumbing(T0, M0, T, M) && Steady(T, M, {o}, {})
      && o in T0 && c in T0 && m in M0
      && IsBest(T, M, o, T0[o].pri) && RaisedTo(T0, T, T0[c].pri) && T[c].pri == T0[c].pri
      && T[o].pri == (if M0[m].proto == Inherit && T0[o].pri > T0[c].pri then T0[c].pri else T0[o].pri)
      && (M0[m].proto != Inherit || T0[o].pri <= T0[c].pri ==> T == T0 && M == M0)
    )
  }

  /** The ring of `m`, and what the place of `c` in it depends on, is as it was. */
  ghost predicate RingKept(T0: Tasks, M0: Mutexes, T: Tasks, M: Mutexes, c: TaskId, m: MtxId) {
    true == (
      && m in M0 && m in M && M[m].queue == M0[m].queue && M[m].proto == M0[m].proto
      && c in T0 && c in T && T[c].pri == T0[c].pri
      && (forall u :: u in M0[m].queue ==> u in T0 && u in T && T[u].pri == T0[u].pri)
    )
  }

  /** A change of the owner of `m` does not move the waiters of `m`. */
  lemma OwnersRingKept(T0: Tasks, M0: Mutexes, T: Tasks, M: Mutexes, c: TaskId, m: MtxId, o: TaskId,
                       rank: map<TaskId, nat>)
    requires Consistent(T0, M0) && Ranked(T0, M0, rank) && c in T0 && m in M0 && M0[m].owner == Some(o)
    requires SamePlumbing(T0, M0, T, M) && o in rank && Upstream(T0, M0, T, M, rank, o) && T[c].pri == T0[c].pri
    ensures RingKept(T0, M0, T, M, c, m)
  {
    forall u | u in M0[m].queue ensures u in T0 && u in T && T[u].pri == T0[u].pri {
      assert WaitsOn(T0, u, m);
    }
  }

  /** `c` stands in the ring of `m` where the wait discipline wants it. */
  ghost predicate InPlace(T0: Tasks, M0: Mutexes, M: Mutexes, c: TaskId, m: MtxId) {
    true == (
      && c in T0 && m in M0 && m in M && (forall u :: u in M0[m].queue ==> u in T0)
      && Placed(T0, M0[m].proto, M0[m].queue, c, M[m].queue)
    )
  }

  lemma PlacedInRing(T0: Tasks, M0: Mutexes, T: Tasks, M: Mutexes, S: set<TaskId>, c: TaskId, m: MtxId, r: seq<TaskId>)
    requires RingKept(T0, M0, T, M, c, m) && Steady(T, M, S, {}) && (forall u :: u in M[m].queue ==> u in T)
    requires r == Enqueue(T, M[m].proto, M[m].queue, c)
    ensures InPlace(T0, M0, WithRing(M, m, r), c, m)
  {
    EnqueuePlaces(T, M[m].proto, M[m].queue, c);
    if M[m].proto != Fifo {
      var i: nat :| PlacedAt(T, M[m].queue, c, r, i);
      assert PlacedAt(T0, M0[m].queue, c, r, i);
    }
  }

  /** The state (T, M) in which `c` sleeps in the ring of `m`: owners, chains and
      ring members are those of (T0, M0) with `c` added to the ring, priorities
      were raised to that of `c` or kept, every task has its due priority, and the
      graph is still acyclic exactly if the owner did not already wait for `c`. */
  ghost predicate LockWaited(T0: Tasks, M0: Mutexes, T: Tasks, M: Mutexes, c: TaskId, m: MtxId, o: TaskId)
    requires c in T0 && m in M0
  {
    true == (
      && Deadlockable(T, M, !Reaches(T0, M0, o, c))
      && SamePlumbing(JoinedT(T0, c, m), WithRing(M0, m, M0[m].queue + [c]), T, M)
      && RaisedTo(T0, T, T0[c].pri)
      && (M0[m].proto != Inherit || (o in T0 && T0[o].pri <= T0[c].pri) ==>
            && T == JoinedT(T0, c, m) && (forall u :: u in M0[m].queue ==> u in T0)
            && M == WithRing(M0, m, Enqueue(T0, M0[m].proto, M0[m].queue, c)))
    )
  }

  lemma JoinFinal(T0: Tasks, M0: Mutexes, T: Tasks, M: Mutexes, c: TaskId, m: MtxId, r: seq<TaskId>, o: TaskId)
    requires HolderRaised(T0, M0, T, M, c, m, o)
    requires c in T0 && !T0[c].state.Waiting? && !T0[c].state.Dormant?
    requires m in M0 && M0[m].owner == Some(o) && (M0[m].proto == Ceiling ==> M0[m].ceil <= T0[c].bpri)
    requires RingKept(T0, M0, T, M, c, m) && r == Enqueue(T, M[m].proto, M[m].queue, c)
    ensures LockWaited(T0, M0, JoinedT(T, c, m), WithRing(M, m, r), c, m, o)
    ensures InPlace(T0, M0, WithRing(M, m, r), c, m)
  {
    SamePlumbingAt(T0, M0, T, M, c, m, o);
    EnterRingProps(T, M, {o}, c, m);
    PlacedInRing(T0, M0, T, M, {o}, c, m, r);
    JoinFinalDead(T0, M0, T, M, c, m, r, o);
    JoinFinalPlumbing(T0, M0, T, M, c, m, r, o);
  }

  lemma JoinFinalDead(T0: Tasks, M0: Mutexes, T: Tasks, M: Mutexes, c: TaskId, m: MtxId, r: seq<TaskId>, o: TaskId)
    requires HolderRaised(T0, M0, T, M, c, m, o)
    requires c in T0 && !T0[c].state.Waiting? && !T0[c].state.Dormant? && c in T
    requires m in M0 && M0[m].owner == Some(o) && (M0[m].proto == Ceiling ==> M0[m].ceil <= T0[c].bpri)
    requires m in M && IsRing(T, M[m].proto, Members(M[m].queue) + {c}, r)
    ensures Deadlockable(JoinedT(T, c, m), WithRing(M, m, r), !Reaches(T0, M0, o, c))
  {
    SamePlumbingAt(T0, M0, T, M, c, m, o);
    JoinAll(T, M, c, m, r, o, T0[o].pri);
    PlumbingReaches(T0, M0, T, M, o, c);
  }

  lemma JoinFinalPlumbing(T0: Tasks, M0: Mutexes, T: Tasks, M: Mutexes, c: TaskId, m: MtxId, r: seq<TaskId>, o: TaskId)
    requires HolderRaised(T0, M0, T, M, c, m, o) && c in T0 && c in T && m in M0 && m in M
    requires IsRing(T, M[m].proto, Members(M[m].queue) + {c}, r) && (M[m].proto == Fifo ==> r == M[m].queue + [c])
    ensures SamePlumbing(JoinedT(T0, c, m), WithRing(M0, m, M0[m].queue + [c]), JoinedT(T, c, m), WithRing(M, m, r))
    ensures RaisedTo(T0, JoinedT(T, c, m), T0[c].pri)
  {
    SamePlumbingAt(T0, M0, T, M, c, m, o);
    JoinPlumbing(T0, M0, T, M, c, m, r);
  }

  /** A task that does not wait is in no ring. */
  lemma EnterRingProps(T: Tasks, M: Mutexes, S: set<TaskId>, c: TaskId, m: MtxId)
    requires Steady(T, M, S, {}) && c in T && !T[c].state.Waiting? && m in M
    ensures forall u :: u in M[m].queue ==> u in T
    ensures IsRing(T, M[m].proto, Members(M[m].queue) + {c}, Enqueue(T, M[m].proto, M[m].queue, c))
  {
    EnqueueProps(T, M[m].proto, M[m].queue, c);
  }

  lemma SamePlumbingAt(T0: Tasks, M0: Mutexes, T: Tasks, M: Mutexes, c: TaskId, m: MtxId, o: TaskId)
    requires SamePlumbing(T0, M0, T, M) && c in T0 && m in M0 && o in T0
    ensures c in T && m in M && o in T && T[c] == T0[c].(pri := T[c].pri) && M[m] == M0[m].(queue := M[m].queue)
  {
  }

  lemma CreateMutex(T: Tasks, M: Mutexes, m: MtxId, proto: Protocol, ceil: int)
    requires Consistent(T, M) && m !in M
    ensures Consistent(T, M[m := Mtxcb(proto, ceil, None, [])])
  {
    var M' := M[m := Mtxcb(proto, ceil, None, [])];
    assert forall u :: u in T ==> m !in T[u].held;
    CreateShape(T, M, m, M'[m]);
    OtherMutex(T, M, M', {}, m);
    var rank :| Ranked(T, M, rank);
    assert Ranked(T, M', rank);
  }

  lemma CreateShape(T: Tasks, M: Mutexes, m: MtxId, b: Mtxcb)
    requires Shape(T, M, {}) && m !in M && b.owner == None && b.queue == []
    ensures Shape(T, M[m := b], {})
  {
    assert QueueShape(T, M[m := b]);
    assert HeldShape(T, M[m := b], {});
  }

  /** `c` has given up `m`, and the first waiter, if any, has it now.  The priority
      of `c` is left open here: the global invariant determines it. */
  ghost predicate Unlocked(T0: Tasks, M0: Mutexes, T: Tasks, M: Mutexes, c: TaskId, m: MtxId)
    requires c in T0 && m in M0
  {
    && c in T
    && var T1 := T0[c := T0[c].(held := Without(T0[c].held, m), pri := T[c].pri)];
       PassedOn(T1, M0, T, M, m)
  }

  /** The effect of passing on `m` to its first waiter, or freeing it. */
  ghost predicate PassedOn(T: Tasks, M: Mutexes, T': Tasks, M': Mutexes, m: MtxId)
    requires m in M
  {
    if M[m].queue == [] then T' == T && M' == M[m := M[m].(owner := None)]
    else
      var w := M[m].queue[0];
      && w in T && T[w].state.Waiting? && M' == GivenM(M, m, w, M[m].queue[1..])
      && var T1 := GivenT(T, w, m);
         T' == T1[w := T1[w].(pri := Capped(T1[w].pri, M[m].proto, M[m].ceil))]
  }

  // ----------------------------------------------- release, start, terminate, change

  /** A waiter leaves the ring of `m`; its owner `o` may be owed less afterwards. */
  lemma LeaveAll(T: Tasks, M: Mutexes, t: TaskId, m: MtxId, r: seq<TaskId>, o: TaskId)
    requires Steady(T, M, {}, {}) && WaitsOn(T, t, m) && m in M && M[m].owner == Some(o) && o in T
    requires IsRing(T, M[m].proto, Members(M[m].queue) - {t}, r)
    ensures Steady(LeftT(T, t), WithRing(M, m, r), {o}, {})
    ensures M[m].proto != Inherit || T[o].pri != T[t].pri ==> Steady(LeftT(T, t), WithRing(M, m, r), {}, {})
  {
    var T', M' := LeftT(T, t), WithRing(M, m, r);
    var rank :| Ranked(T, M, rank);
    LeaveRest(T, M, t, m, r, rank);
    LeaveShape(T, M, {}, t, m, r);
    LeaveBest(T, M, {}, {}, t, m, r, o);
    assert {} + {o} == {o};
    if M[m].proto == Inherit && T[o].pri != T[t].pri {
      LeaveOwner(T, M, t, m, r, o);
      assert T'[o].pri == T[o].pri;
      assert BestExcept(T', M', {});
    }
  }

  /** The same for the ring that knl_wait_release leaves behind. */
  lemma LeaveMutex(T: Tasks, M: Mutexes, t: TaskId, m: MtxId)
    requires Steady(T, M, {}, {}) && WaitsOn(T, t, m)
    ensures m in M && M[m].owner.Some? && M[m].owner.value in T
    ensures var T', M' := LeftT(T, t), WithRing(M, m, Without(M[m].queue, t));
            && Steady(T', M', {M[m].owner.value}, {})
            && (M[m].proto != Inherit || T[M[m].owner.value].pri != T[t].pri ==> Steady(T', M', {}, {}))
  {
    assert t in M[m].queue;
    LeaveRing(T, M[m].queue, M[m].proto, t);
    LeaveAll(T, M, t, m, Without(M[m].queue, t), M[m].owner.value);
  }

  /** A waiter leaves the ring of a mutex that is being deleted. */
  lemma LeaveLimbo(T: Tasks, M: Mutexes, t: TaskId, m: MtxId, r: seq<TaskId>, o: TaskId)
    requires Steady(T, M, {}, {m}) && WaitsOn(T, t, m) && m in M && M[m].owner == Some(o)
    requires IsRing(T, M[m].proto, Members(M[m].queue) - {t}, r)
    ensures Steady(LeftT(T, t), WithRing(M, m, r), {}, {m})
  {
    var rank :| Ranked(T, M, rank);
    LeaveRest(T, M, t, m, r, rank);
    LeaveShape(T, M, {m}, t, m, r);
    LeaveBest(T, M, {m}, {}, t, m, r, o);
  }

  /** The state of a task once it is suspended, or is not any more. */
  function Halted(s: TaskState, halt: bool): TaskState {
    match s
    case Dormant => Dormant
    case Ready => if halt then Suspended else Ready
    case Suspended => if halt then Suspended else Ready
    case Waiting(on, _) => Waiting(on, halt)
  }

  predicate IsHalted(s: TaskState) {
    s.Suspended? || (s.Waiting? && s.suspended)
  }

  /** Waiting and being suspended do not mix: the end of a wait leaves a suspended task suspended,
      a wait leaves it so, and a resumption undoes a suspension in whatever state. */
  lemma HaltsApart(s: TaskState, on: WaitObject, halt: bool)
    requires !s.Dormant?
    ensures IsHalted(Halted(s, halt)) == halt && (Halted(s, halt).Waiting? <==> s.Waiting?)
    ensures !IsHalted(s) ==> Halted(Halted(s, true), false) == s
    ensures Awake(Halted(s, halt)) == Halted(Awake(s), halt) && IsHalted(Awake(s)) == IsHalted(s)
    ensures !s.Waiting? ==> Asleep(Halted(s, halt), on) == Halted(Asleep(s, on), halt) && Awake(Asleep(s, on)) == s
  {
  }

  /** Suspending and resuming change nothing that the mutexes look at. */
  lemma HaltKeeps(T: Tasks, M: Mutexes, t: TaskId, halt: bool)
    requires Steady(T, M, {}, {}) && t in T
    ensures Steady(T[t := T[t].(state := Halted(T[t].state, halt))], M, {}, {})
  {
    var T' := T[t := T[t].(state := Halted(T[t].state, halt))];
    assert forall u, k :: WaitsOn(T', u, k) <==> WaitsOn(T, u, k);
    var rank :| Ranked(T, M, rank);
    assert Ranked(T', M, rank);
    HaltShape(T, M, t, halt);
    forall u | u in T' ensures IsBest(T', M, u, T'[u].pri) {
      assert IsBest(T, M, u, T[u].pri);
      forall m | m in T[u].held ensures SameOffer(T, M, T', M, m) {
        assert m in M && (M[m].queue != [] ==> M[m].queue[0] in M[m].queue);
      }
      BestTransfer(T, M, T', M, u, T[u].pri);
    }
  }

  lemma HaltShape(T: Tasks, M: Mutexes, t: TaskId, halt: bool)
    requires Shape(T, M, {}) && t in T
    ensures Shape(T[t := T[t].(state := Halted(T[t].state, halt))], M, {})
  {
    var T' := T[t := T[t].(state := Halted(T[t].state, halt))];
    assert QueueShape(T', M) by {
      assert forall u, k :: WaitsOn(T', u, k) <==> WaitsOn(T, u, k);
      forall k | k in M && M[k].proto != Fifo ensures Sorted(T', M[k].queue) {
        SortedElsewhere(T, T', M[k].queue);
      }
    }
    assert HeldShape(T', M, {});
  }

  /** Changes of a task block that no mutex rule looks at: its state while it is
      in no ring, and everything of a task without mutexes that gets its base priority. */
  lemma PrivateChange(T: Tasks, M: Mutexes, t: TaskId, tcb: Tcb)
    requires Steady(T, M, {t}, {}) && t in T && (forall m :: !WaitsOn(T, t, m))
    requires tcb.held == T[t].held && (tcb.state.Dormant? ==> tcb.held == [])
    requires !(tcb.state.Waiting? && tcb.state.on.OnMutex?)
    requires tcb.bpri == T[t].bpri || tcb.held == []
    requires if tcb.held == [] then tcb.pri == tcb.bpri else IsBest(T, M, t, tcb.pri)
    ensures Steady(T[t := tcb], M, {}, {})
  {
    var T' := T[t := tcb];
    assert forall u, k :: WaitsOn(T', u, k) <==> WaitsOn(T, u, k);
    var rank :| Ranked(T, M, rank);
    assert Ranked(T', M, rank);
    PrivateShape(T, M, t, tcb);
    forall u | u in T' ensures IsBest(T', M, u, T'[u].pri) {
      if u != t || tcb.held != [] {
        forall k | k in T[u].held ensures SameOffer(T, M, T', M, k) {
          assert M[k].queue != [] ==> M[k].queue[0] in M[k].queue;
        }
        BestTransfer(T, M, T', M, u, T'[u].pri);
      }
    }
  }

  lemma PrivateShape(T: Tasks, M: Mutexes, t: TaskId, tcb: Tcb)
    requires Shape(T, M, {}) && t in T && (forall m :: !WaitsOn(T, t, m))
    requires tcb.held == T[t].held && (tcb.state.Dormant? ==> tcb.held == [])
    requires !(tcb.state.Waiting? && tcb.state.on.OnMutex?)
    ensures Shape(T[t := tcb], M, {})
  {
    var T' := T[t := tcb];
    assert QueueShape(T', M) by {
      assert forall u, k :: WaitsOn(T', u, k) <==> WaitsOn(T, u, k);
      forall k | k in M && M[k].proto != Fifo ensures Sorted(T', M[k].queue) {
        SortedElsewhere(T, T', M[k].queue);
      }
    }
    assert HeldShape(T', M, {});
  }

  /** knl_signal_all_mutex takes the first mutex off the chain of a dying task. */
  lemma PopHeld(T: Tasks, M: Mutexes, t: TaskId, m: MtxId)
    requires Steady(T, M, {t}, {}) && t in T && T[t].held != [] && T[t].held[0] == m
    ensures m in M && M[m].owner == Some(t) && m !in T[t].held[1..]
    ensures Steady(T[t := T[t].(held := T[t].held[1..])], M, {t}, {m})
  {
    assert m in T[t].held;
    TailNoDup(T[t].held);
    var T' := T[t := T[t].(held := T[t].held[1..])];
    assert Unlinked(T[t].held, Some(m)) == T[t].held[1..];
    UnlinkShape(T, M, {}, t, Some(m));
    assert {} + LimboSet(Some(m)) == {m};
    assert {} + {t} == {t};
    UnlinkBest(T, M, {}, {}, t, T[t].held[1..]);
    var rank :| Ranked(T, M, rank);
    assert forall u, k :: WaitsOn(T', u, k) <==> WaitsOn(T, u, k);
    assert Ranked(T', M, rank);
    assert forall k :: k in T'[t].held ==> k in T[t].held;
  }

  /** tk_chg_pri writes the base priority before it propagates. */
  lemma Rebase(T: Tasks, M: Mutexes, t: TaskId, p: int)
    requires Steady(T, M, {}, {}) && t in T
    requires ObeysCeilings(T, M, t, p)
    ensures Steady(T[t := T[t].(bpri := p)], M, {t}, {})
  {
    var T' := T[t := T[t].(bpri := p)];
    assert forall u, k :: WaitsOn(T', u, k) <==> WaitsOn(T, u, k);
    var rank :| Ranked(T, M, rank);
    assert Ranked(T', M, rank);
    RebaseShape(T, M, t, p);
    forall u | u in T' && u != t ensures IsBest(T', M, u, T'[u].pri) {
      forall k | k in T[u].held ensures SameOffer(T, M, T', M, k) {
        assert M[k].queue != [] ==> M[k].queue[0] in M[k].queue;
      }
      BestTransfer(T, M, T', M, u, T[u].pri);
    }
  }

  lemma RebaseShape(T: Tasks, M: Mutexes, t: TaskId, p: int)
    requires Shape(T, M, {}) && t in T
    ensures Shape(T[t := T[t].(bpri := p)], M, {})
  {
    var T' := T[t := T[t].(bpri := p)];
    assert QueueShape(T', M) by {
      assert forall u, k :: WaitsOn(T', u, k) <==> WaitsOn(T, u, k);
      forall k | k in M && M[k].proto != Fifo ensures Sorted(T', M[k].queue) {
        SortedElsewhere(T, T', M[k].queue);
      }
    }
    assert HeldShape(T', M, {});
  }

  /** `b` is mutex `a` after its first waiter, if any, got it. */
  predicate Inherited(a: Mtxcb, b: Mtxcb) {
    if a.queue == [] then b == a.(owner := None)
    else b == a.(owner := Some(a.queue[0]), queue := a.queue[1..])
  }

  /** `t` no longer waits; apart from priorities and ring orders, nothing else changed. */
  ghost predicate Released(T0: Tasks, M0: Mutexes, T: Tasks, M: Mutexes, t: TaskId) {
    && t in T0 && T0[t].state.Waiting?
    && if T0[t].state.on.OnOther? then T == LeftT(T0, t) && M == M0
       else
         var m := T0[t].state.on.m;
         m in M0 && SamePlumbing(LeftT(T0, t), WithRing(M0, m, Without(M0[m].queue, t)), T, M)
  }

  /** The mutexes of `held0` that are no longer in `held` went to their first waiters. */
  ghost predicate Distributed(M0: Mutexes, M: Mutexes, held0: seq<MtxId>, held: seq<MtxId>) {
    true == (
      && M.Keys == M0.Keys && (forall m :: m in held ==> m in held0)
      && (forall m :: m in M ==> if m in held0 && m !in held then Inherited(M0[m], M[m]) else M[m] == M0[m])
    )
  }

  lemma DistributedStep(M0: Mutexes, M: Mutexes, M': Mutexes, held0: seq<MtxId>, held: seq<MtxId>)
    requires Distributed(M0, M, held0, held) && held != [] && held[0] !in held[1..] && held[0] in M && held[0] in M'
    requires M' == M[held[0] := M'[held[0]]] && Inherited(M[held[0]], M'[held[0]])
    ensures Distributed(M0, M', held0, held[1..])
  {
    assert forall m :: m in held <==> m == held[0] || m in held[1..];
  }

  /** The mutexes that `t` holds are as they were. */
  ghost predicate OwnRings(T0: Tasks, M0: Mutexes, M: Mutexes, t: TaskId)
    requires t in T0
  {
    forall m :: m in T0[t].held && m in M0 ==> m in M && M[m] == M0[m]
  }

  lemma LeaveRanked(T: Tasks, M: Mutexes, t: TaskId, m: MtxId, rank: map<TaskId, nat>)
    requires Ranked(T, M, rank) && WaitsOn(T, t, m) && m in M && M[m].owner.Some? && M[m].owner.value in T
    ensures Ranked(LeftT(T, t), WithRing(M, m, Without(M[m].queue, t)), rank) && rank[M[m].owner.value] < rank[t]
  {
    var T' := LeftT(T, t);
    assert forall u, k :: WaitsOn(T', u, k) ==> WaitsOn(T, u, k);
  }

  /** What the owner of the mutex gets back does not touch the mutexes of the task that left. */
  lemma OwnRingsKept(T: Tasks, M: Mutexes, T': Tasks, M': Mutexes, t: TaskId, m: MtxId, o: TaskId,
                     rank: map<TaskId, nat>)
    requires Shape(T, M, {}) && t in T && m in M && M[m].owner == Some(o) && o in rank && t in rank && rank[o] < rank[t]
    requires SamePlumbing(LeftT(T, t), WithRing(M, m, Without(M[m].queue, t)), T', M')
    requires Upstream(LeftT(T, t), WithRing(M, m, Without(M[m].queue, t)), T', M', rank, o)
    ensures OwnRings(T, M, M', t)
  {
    var M1 := WithRing(M, m, Without(M[m].queue, t));
    forall k | k in T[t].held && k in M ensures k in M' && M'[k] == M[k] {
      assert M[k].owner == Some(t) && k != m;
      assert M1[k] == M[k] && rank[M1[k].owner.value] >= rank[o];
    }
  }

  /** `t` was terminated: its mutexes went to their first waiters, and apart from the order
      inside rings the others only lost `t` from theirs. */
  ghost predicate Terminated(T0: Tasks, M0: Mutexes, M: Mutexes, t: TaskId)
    requires t in T0
  {
    && M.Keys == M0.Keys
    && (forall m :: m in M && m in T0[t].held ==> Inherited(M0[m], M[m]))
    && (forall m :: m in M && m !in T0[t].held ==> LostFrom(M0[m], M[m], t))
    && (!T0[t].state.Waiting? ==> forall m :: m in M && m !in T0[t].held ==> M[m] == M0[m])
  }

  ghost predicate LostFrom(a: Mtxcb, b: Mtxcb, t: TaskId) {
    && b == a.(queue := b.queue) && (forall u :: u in b.queue <==> u in a.queue && u != t)
    && (a.proto == Fifo ==> b.queue == Without(a.queue, t))
  }

  lemma ReleasedRings(T0: Tasks, M0: Mutexes, T: Tasks, M: Mutexes, t: TaskId)
    requires Consistent(T0, M0) && Released(T0, M0, T, M, t)
    ensures M.Keys == M0.Keys && forall m :: m in M ==> LostFrom(M0[m], M[m], t)
  {
    forall m | m in M ensures m in M0 && LostFrom(M0[m], M[m], t) {
      assert m in M0;
      assert forall u :: u in M0[m].queue ==> WaitsOn(T0, u, m);
      WithoutNoDup(M0[m].queue, t);
    }
  }

  lemma NoRings(T: Tasks, M: Mutexes, t: TaskId)
    requires Consistent(T, M) && t in T && !T[t].state.Waiting?
    ensures forall m :: m in M ==> LostFrom(M[m], M[m], t)
  {
    forall m | m in M ensures LostFrom(M[m], M[m], t) {
      assert forall u :: u in M[m].queue ==> WaitsOn(T, u, m);
    }
  }

  lemma RetiredRings(T0: Tasks, M0: Mutexes, M1: Mutexes, M: Mutexes, t: TaskId)
    requires Consistent(T0, M0) && t in T0 && M1.Keys == M0.Keys && (forall m :: m in M1 ==> LostFrom(M0[m], M1[m], t))
    requires OwnRings(T0, M0, M1, t) && Distributed(M1, M, T0[t].held, [])
    requires !T0[t].state.Waiting? ==> M1 == M0
    ensures Terminated(T0, M0, M, t)
  {
  }

  lemma ReleasedAt(T0: Tasks, M0: Mutexes, T: Tasks, M: Mutexes, t: TaskId)
    requires Released(T0, M0, T, M, t)
    ensures T.Keys == T0.Keys && M.Keys == M0.Keys && t in T
    ensures !T[t].state.Waiting? && T[t].ipri == T0[t].ipri && T[t].held == T0[t].held
  {
  }

  /** A dormant task owns nothing and waits nowhere. */
  lemma Gone(T: Tasks, M: Mutexes, t: TaskId)
    requires Consistent(T, M) && t in T && T[t].state.Dormant?
    ensures forall m :: m in M ==> t !in M[m].queue && M[m].owner != Some(t)
  {
    forall m | m in M ensures t !in M[m].queue && M[m].owner != Some(t) {
      assert forall u :: u in M[m].queue ==> WaitsOn(T, u, m);
      assert M[m].owner.Some? ==> M[m].owner.value in T && m in T[M[m].owner.value].held;
    }
  }

  lemma Excuse(T: Tasks, M: Mutexes, S: set<TaskId>, t: TaskId)
    requires Steady(T, M, S, {})
    ensures Steady(T, M, S + {t}, {}) && Steady(T, M, {t} + S, {})
  {
  }

  /** A change of `t` that was propagated, and gave `t` its due priority. */
  lemma SettledAgain(T: Tasks, M: Mutexes, T': Tasks, M': Mutexes, rank: map<TaskId, nat>)
    requires Ranked(T, M, rank) && CeilingsRespected(T, M) && SamePlumbing(T, M, T', M')
    requires Shape(T', M', {}) && BestExcept(T', M', {})
    ensures Consistent(T', M')
  {
    PlumbingRanked(T, M, T', M', rank);
    PlumbingCeilings(T, M, T', M');
  }

  /** The ceilings that bind a new base priority `p` of `t`: those it holds and the one it awaits. */
  ghost predicate ObeysCeilings(T: Tasks, M: Mutexes, t: TaskId, p: int)
    requires t in T
  {
    && (forall m :: m in T[t].held && m in M && M[m].proto == Ceiling ==> M[m].ceil <= p)
    && (forall m :: WaitsOn(T, t, m) && m in M && M[m].proto == Ceiling ==> M[m].ceil <= p)
  }

  // ---------------------------------------------------------------- deletion

  /** (T) is (T0) after the waiters of `m` that are not in `q` any more were released. */
  ghost predicate AwokenFrom(T0: Tasks, T: Tasks, m: MtxId, q: seq<TaskId>) {
    true == (
      && T.Keys == T0.Keys
      && (forall u :: u in T ==>
            T[u] == if WaitsOn(T0, u, m) && u !in q then T0[u].(state := Awake(T0[u].state)) else T0[u])
    )
  }

  /** Halfway through knl_wait_delete on the ring of `m`. */
  ghost predicate Deleting(T0: Tasks, M0: Mutexes, T: Tasks, M: Mutexes, m: MtxId) {
    true == (
      && m in M0 && m in M && Steady(T, M, {}, {m}) && M == WithRing(M0, m, M[m].queue)
      && AwokenFrom(T0, T, m, M[m].queue)
    )
  }

  lemma DeletingStart(T: Tasks, M: Mutexes, m: MtxId)
    requires m in M && Steady(T, M, {}, {m})
    ensures Deleting(T, M, T, M, m)
  {
  }

  lemma DeletingStep(T0: Tasks, M0: Mutexes, T: Tasks, M: Mutexes, m: MtxId)
    requires Deleting(T0, M0, T, M, m) && M[m].queue != []
    ensures M[m].queue[0] in T
    ensures Deleting(T0, M0, LeftT(T, M[m].queue[0]), WithRing(M, m, M[m].queue[1..]), m)
  {
    var q := M[m].queue;
    DeletingFirst(T, M, m);
    AwokenMore(T0, T, m, q);
    assert WithRing(M, m, q[1..]) == WithRing(M0, m, q[1..]);
  }

  /** The first waiter of a mutex nobody depends on leaves. */
  lemma DeletingFirst(T: Tasks, M: Mutexes, m: MtxId)
    requires m in M && Steady(T, M, {}, {m}) && M[m].queue != []
    ensures WaitsOn(T, M[m].queue[0], m) && NoDup(M[m].queue)
    ensures Steady(LeftT(T, M[m].queue[0]), WithRing(M, m, M[m].queue[1..]), {}, {m})
  {
    var q := M[m].queue;
    assert q[0] in q && WaitsOn(T, q[0], m);
    GiveRing(T, q, M[m].proto);
    LeaveLimbo(T, M, q[0], m, q[1..], M[m].owner.value);
  }

  lemma AwokenMore(T0: Tasks, T: Tasks, m: MtxId, q: seq<TaskId>)
    requires AwokenFrom(T0, T, m, q) && q != [] && NoDup(q) && WaitsOn(T, q[0], m)
    ensures AwokenFrom(T0, LeftT(T, q[0]), m, q[1..])
  {
    TailNoDup(q);
    assert forall u :: u in q <==> u == q[0] || u in q[1..];
  }

  lemma NoOwnerLimbo(T: Tasks, M: Mutexes, m: MtxId)
    requires Steady(T, M, {}, {}) && m in M && M[m].owner.None?
    ensures Steady(T, M, {}, {m}) && M[m].queue == []
  {
    assert Shape(T, M, {m});
  }

  /** The effect of tk_del_mtx on everything but priorities and ring orders. */
  ghost predicate Deleted(T0: Tasks, M0: Mutexes, T: Tasks, M: Mutexes, m: MtxId)
    requires m in M0
  {
    && T.Keys == T0.Keys && M.Keys == M0.Keys - {m}
    && (forall u :: u in T ==>
          T[u] == T0[u].(pri := T[u].pri,
                         held := if M0[m].owner == Some(u) then Without(T0[u].held, m) else T0[u].held,
                         state := if WaitsOn(T0, u, m) then Awake(T0[u].state) else T0[u].state))
    && (forall k :: k in M ==> M[k] == M0[k].(queue := M[k].queue))
    && (forall k, u :: k in M ==> (u in M[k].queue <==> u in M0[k].queue))
    && (forall k :: k in M && M0[k].proto == Fifo ==> M[k].queue == M0[k].queue)
  }

  lemma DeletedEffect(T0: Tasks, M0: Mutexes, T1: Tasks, M1: Mutexes, T: Tasks, m: MtxId)
    requires m in M0 && AwokenFrom(T1, T, m, []) && m in M1
    requires if M0[m].owner.Some? then
               var o := M0[m].owner.value;
               o in T0 && SamePlumbing(T0[o := T0[o].(held := Without(T0[o].held, m))], M0, T1, M1)
             else T1 == T0 && M1 == M0
    ensures Deleted(T0, M0, T, WithRing(M1, m, []) - {m}, m)
  {
    if M0[m].owner.Some? {
      var o := M0[m].owner.value;
      var H := T0[o := T0[o].(held := Without(T0[o].held, m))];
      assert forall u :: WaitsOn(H, u, m) == WaitsOn(T0, u, m);
      DeletedTasks(T0, M0, H, T1, M1, T, m);
    } else {
      DeletedTasks(T0, M0, T0, T1, M1, T, m);
    }
  }

  lemma DeletedTasks(T0: Tasks, M0: Mutexes, H: Tasks, T1: Tasks, M1: Mutexes, T: Tasks, m: MtxId)
    requires m in M0 && m in M1 && AwokenFrom(T1, T, m, []) && SamePlumbing(H, M0, T1, M1) && H.Keys == T0.Keys
    requires forall u :: u in T0 ==> H[u] == T0[u].(held := if M0[m].owner == Some(u) then Without(T0[u].held, m)
                                                    else T0[u].held)
    ensures Deleted(T0, M0, T, WithRing(M1, m, []) - {m}, m)
  {
    assert forall u :: u in T0 ==> WaitsOn(T1, u, m) == WaitsOn(T0, u, m);
  }
}
