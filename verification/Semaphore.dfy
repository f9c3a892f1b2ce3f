/** Counting semaphores (semaphore.c). */
module Semaphore {
  import opened Common
  import opened WaitQueue
  import opened FirstCome

  /** An existing semaphore.  `byCount` is TA_CNT: any waiter may be served, not
      just the first.  A waiter's argument is the count it asks for. */
  datatype Sem = Sem(cnt: int, max: int, tpri: bool, byCount: bool, queue: seq<Waiter<int>>)

  type Asks = seq<Waiter<int>>

  ghost predicate AsksOk(q: Asks) {
    forall w :: w in q ==> 0 < w.arg
  }

  /** What every call keeps: the count is in range and nobody waits who could be served. */
  ghost predicate SemOk(s: Sem) {
    && 0 <= s.cnt <= s.max && Line(s.tpri, s.queue) && AsksOk(s.queue)
    && (forall w :: w in s.queue ==> w.arg <= s.max)
    && NobodyServable(s)
  }

  ghost predicate NobodyServable(s: Sem) {
    if s.byCount then forall w :: w in s.queue ==> s.cnt < w.arg
    else s.queue != [] ==> s.cnt < s.queue[0].arg
  }

  function Total(q: Asks): int {
    if q == [] then 0 else q[0].arg + Total(q[1..])
  }

  // ------------------------------------------------------------------ serving

  datatype Served = Served(cnt: int, kept: Asks, freed: Asks)

  /** One pass over the ring: serve who can be served, in order. */
  function Serve(byCount: bool, cnt: int, q: Asks): Served
    decreases |q|
  {
    if q == [] then Served(cnt, [], [])
    else if cnt >= q[0].arg then
      var r := Serve(byCount, cnt - q[0].arg, q[1..]);
      Served(r.cnt, r.kept, [q[0]] + r.freed)
    else if byCount then
      var r := Serve(byCount, cnt, q[1..]);
      Served(r.cnt, [q[0]] + r.kept, r.freed)
    else Served(cnt, q, [])
  }

  /** A pass loses no task and no count. */
  lemma {:induction false} ServeKeeps(byCount: bool, cnt: int, q: Asks)
    ensures var r := Serve(byCount, cnt, q);
            && r.cnt + Total(r.freed) == cnt && |r.kept| + |r.freed| == |q|
            && (forall w :: w in q <==> w in r.kept || w in r.freed)
    decreases |q|
  {
    if q != [] {
      assert q == [q[0]] + q[1..];
      if cnt >= q[0].arg {
        ServeKeeps(byCount, cnt - q[0].arg, q[1..]);
        var f := Serve(byCount, cnt - q[0].arg, q[1..]).freed;
        assert ([q[0]] + f)[1..] == f;
      } else if byCount {
        ServeKeeps(byCount, cnt, q[1..]);
      }
    }
  }

  /** After a pass nobody who is left can be served, and the line stays in order. */
  lemma {:induction false} ServeDone(byCount: bool, tpri: bool, cnt: int, q: Asks)
    requires 0 <= cnt && AsksOk(q) && Line(tpri, q)
    ensures var r := Serve(byCount, cnt, q);
            && 0 <= r.cnt <= cnt && Line(tpri, r.kept)
            && (byCount ==> forall w :: w in r.kept ==> r.cnt < w.arg)
            && (!byCount && r.kept != [] ==> r.cnt < r.kept[0].arg)
    decreases |q|
  {
    if q != [] {
      TailLine(tpri, q);
      assert forall w :: w in q[1..] ==> w in q;
      if cnt >= q[0].arg {
        ServeDone(byCount, tpri, cnt - q[0].arg, q[1..]);
      } else if byCount {
        ServeDone(byCount, tpri, cnt, q[1..]);
        if tpri { HeadFirst(tpri, q); }
        ServeKeeps(byCount, cnt, q[1..]);
        ConsLine(tpri, q[0], Serve(byCount, cnt, q[1..]).kept);
      }
    }
  }

  /** First-served: the released tasks are the front of the line, and those behind keep their places. */
  lemma {:induction false} ServeFront(cnt: int, q: Asks)
    ensures Serve(false, cnt, q).freed + Serve(false, cnt, q).kept == q
    decreases |q|
  {
    if q != [] && cnt >= q[0].arg {
      ServeFront(cnt - q[0].arg, q[1..]);
    }
  }

  /** A pass goes down the line: the waiter at position `i` is served exactly if enough is left
      by those that were served before it; first-served, only if all those were. */
  lemma {:induction false} ServeAt(byCount: bool, cnt: int, q: Asks, i: nat)
    requires i < |q|
    ensures var before, r := Serve(byCount, cnt, q[..i]).freed, Serve(byCount, cnt, q);
            var n := |before|;
            && n <= i && n <= |r.freed| && r.freed[..n] == before
            && (if q[i].arg <= cnt - Total(before) && (byCount || n == i) then n < |r.freed| && r.freed[n] == q[i]
                else i - n < |r.kept| && r.kept[i - n] == q[i])
    decreases |q|
  {
    if i == 0 {
      assert q[..0] == [];
    } else {
      assert q[..i][0] == q[0] && q[..i][1..] == q[1..][..i - 1];
      if cnt >= q[0].arg {
        ServeAt(byCount, cnt - q[0].arg, q[1..], i - 1);
        var b := Serve(byCount, cnt - q[0].arg, q[1..][..i - 1]).freed;
        assert Serve(byCount, cnt, q[..i]).freed == [q[0]] + b && ([q[0]] + b)[1..] == b;
      } else if byCount {
        ServeAt(byCount, cnt, q[1..], i - 1);
      }
    }
  }

  /** Nothing is left to do when the count is used up. */
  lemma {:induction false} ServeZero(byCount: bool, q: Asks)
    requires AsksOk(q)
    ensures Serve(byCount, 0, q) == Served(0, q, [])
  {
    if q != [] {
      ServeZero(byCount, q[1..]);
    }
  }

  /** The pass over `q` has come to position `i`. */
  ghost predicate Midway(byCount: bool, cnt0: int, q: Asks, i: int, cnt: int, kept: Asks, freed: Asks) {
    && 0 <= i <= |q|
    && var r := Serve(byCount, cnt, q[i..]);
       Serve(byCount, cnt0, q) == Served(r.cnt, kept + r.kept, freed + r.freed)
  }

  lemma MidwayStep(byCount: bool, cnt0: int, q: Asks, i: int, cnt: int, kept: Asks, freed: Asks)
    requires Midway(byCount, cnt0, q, i, cnt, kept, freed) && i < |q|
    ensures cnt >= q[i].arg ==> Midway(byCount, cnt0, q, i + 1, cnt - q[i].arg, kept, freed + [q[i]])
    ensures cnt < q[i].arg && byCount ==> Midway(byCount, cnt0, q, i + 1, cnt, kept + [q[i]], freed)
  {
    assert q[i..][1..] == q[i + 1..];
    var r := Serve(byCount, cnt - q[i].arg, q[i + 1..]);
    assert freed + ([q[i]] + r.freed) == freed + [q[i]] + r.freed;
    var r' := Serve(byCount, cnt, q[i + 1..]);
    assert kept + ([q[i]] + r'.kept) == kept + [q[i]] + r'.kept;
  }

  /** Where the pass stops early, the rest is kept. */
  lemma MidwayStop(byCount: bool, cnt0: int, q: Asks, i: int, cnt: int, kept: Asks, freed: Asks)
    requires Midway(byCount, cnt0, q, i, cnt, kept, freed) && AsksOk(q)
    requires i == |q| || cnt == 0 || (!byCount && cnt < q[i].arg)
    ensures Serve(byCount, cnt0, q) == Served(cnt, kept + q[i..], freed)
  {
    if cnt == 0 { ServeZero(byCount, q[i..]); }
  }

  // ---------------------------------------------------------- the calls on values

  datatype WaitResult = Answer(er: Er) | Blocked

  /** tk_sig_sem: the answer, the new semaphore and the released tasks. */
  function Signal(s: Sem, n: int): (r: (Er, Sem, Asks)) {
    if n <= 0 then (E_PAR, s, [])
    else if n > s.max - s.cnt then (E_QOVR, s, [])
    else var v := Serve(s.byCount, s.cnt + n, s.queue); (E_OK, s.(cnt := v.cnt, queue := v.kept), v.freed)
  }

  /** tk_wai_sem by task `t` of priority `pri`. */
  function Wait(s: Sem, t: TaskId, pri: int, n: int, poll: bool): (r: (WaitResult, Sem)) {
    if n <= 0 || n > s.max then (Answer(E_PAR), s)
    else if (s.byCount || Top(s.tpri, s.queue, pri)) && s.cnt >= n then (Answer(E_OK), s.(cnt := s.cnt - n))
    else if poll then (Answer(E_TMOUT), s)
    else (Blocked, s.(queue := Join(s.tpri, s.queue, Waiter(t, pri, n))))
  }

  /** The second half of sem_chg_pri. */
  function Settle(s: Sem): (r: (Sem, Asks)) {
    if s.byCount then (s, [])
    else var v := Serve(false, s.cnt, s.queue); (s.(cnt := v.cnt, queue := v.kept), v.freed)
  }

  /** Timeout or forced release of the waiting task `t`, with sem_rel_wai. */
  function Cancel(s: Sem, t: TaskId): (r: (Sem, Asks)) {
    Settle(s.(queue := Leave(s.queue, t)))
  }

  /** The priority of the waiting task `t` becomes `p`. */
  function ChangePriority(s: Sem, t: TaskId, p: int): (r: (Sem, Asks))
    requires s.tpri && Waits(s.queue, t)
  {
    Settle(s.(queue := Reorder(s.queue, t, p)))
  }

  // -------------------------------------------------------------- what they keep

  /** When tk_sig_sem answers what; an error changes nothing. */
  lemma SignalExact(s: Sem, n: int)
    ensures var r := Signal(s, n);
            && (r.0 == E_PAR <==> n <= 0) && (r.0 == E_QOVR <==> 0 < n && s.cnt + n > s.max)
            && (r.0 == E_OK <==> 0 < n && s.cnt + n <= s.max) && (r.0 != E_OK ==> r.1 == s && r.2 == [])
  {
  }

  /** When tk_wai_sem answers what: a request is granted exactly if there is enough and nobody
      would be before the caller in the line, or the order does not count. */
  lemma WaitExact(s: Sem, t: TaskId, pri: int, n: int, poll: bool)
    requires SemOk(s) && !Waits(s.queue, t)
    ensures var r, w := Wait(s, t, pri, n, poll), Waiter(t, pri, n);
            var ok := 0 < n <= s.max && n <= s.cnt && (s.byCount || Join(s.tpri, s.queue, w)[0] == w);
            && (r.0 == Answer(E_PAR) <==> !(0 < n <= s.max)) && (r.0 == Answer(E_OK) <==> ok)
            && (r.0 == Answer(E_TMOUT) <==> 0 < n <= s.max && !ok && poll)
            && (r.0.Blocked? <==> 0 < n <= s.max && !ok && !poll)
            && (r.0.Blocked? ==> r.1 == s.(queue := Join(s.tpri, s.queue, w)))
            && (r.0 == Answer(E_OK) ==> r.1 == s.(cnt := s.cnt - n)) && (r.0.Answer? && r.0.er != E_OK ==> r.1 == s)
  {
    JoinLine(s.tpri, s.queue, Waiter(t, pri, n));
    if s.queue != [] { assert s.queue[0] in s.queue; }
  }

  lemma SignalOk(s: Sem, n: int)
    requires SemOk(s)
    ensures SemOk(Signal(s, n).1)
    ensures Signal(s, n).1.cnt + Total(Signal(s, n).2) == s.cnt + (if Signal(s, n).0 == E_OK then n else 0)
    ensures forall w :: w in s.queue <==> w in Signal(s, n).1.queue || w in Signal(s, n).2
  {
    if 0 < n <= s.max - s.cnt {
      ServeDone(s.byCount, s.tpri, s.cnt + n, s.queue);
      ServeKeeps(s.byCount, s.cnt + n, s.queue);
    }
  }

  lemma WaitOk(s: Sem, t: TaskId, pri: int, n: int, poll: bool)
    requires SemOk(s) && !Waits(s.queue, t)
    ensures SemOk(Wait(s, t, pri, n, poll).1)
    ensures Wait(s, t, pri, n, poll).1.cnt == s.cnt - (if Wait(s, t, pri, n, poll).0 == Answer(E_OK) then n else 0)
    ensures forall w :: w in Wait(s, t, pri, n, poll).1.queue <==>
                        w in s.queue || (Wait(s, t, pri, n, poll).0.Blocked? && w == Waiter(t, pri, n))
  {
    JoinLine(s.tpri, s.queue, Waiter(t, pri, n));
  }

  /** Serving from the head restores the invariant after a change of the line. */
  lemma SettleOk(s: Sem)
    requires 0 <= s.cnt <= s.max && Line(s.tpri, s.queue) && AsksOk(s.queue)
    requires forall w :: w in s.queue ==> w.arg <= s.max
    requires s.byCount ==> NobodyServable(s)
    ensures SemOk(Settle(s).0) && Settle(s).0.cnt + Total(Settle(s).1) == s.cnt
    ensures forall w :: w in s.queue <==> w in Settle(s).0.queue || w in Settle(s).1
    ensures Settle(s).1 + Settle(s).0.queue == s.queue
  {
    if !s.byCount {
      ServeFront(s.cnt, s.queue);
      ServeDone(false, s.tpri, s.cnt, s.queue);
      ServeKeeps(false, s.cnt, s.queue);
    }
  }

  lemma CancelOk(s: Sem, t: TaskId)
    requires SemOk(s)
    ensures SemOk(Cancel(s, t).0) && !Waits(Cancel(s, t).0.queue, t)
    ensures Cancel(s, t).0.cnt + Total(Cancel(s, t).1) == s.cnt
    ensures forall w :: w in s.queue && w.tid != t <==> w in Cancel(s, t).0.queue || w in Cancel(s, t).1
    ensures Cancel(s, t).1 + Cancel(s, t).0.queue == Leave(s.queue, t)
  {
    LeaveLine(s.tpri, s.queue, t);
    SettleOk(s.(queue := Leave(s.queue, t)));
  }

  lemma ChangePriorityOk(s: Sem, t: TaskId, p: int)
    requires SemOk(s) && s.tpri && Waits(s.queue, t)
    ensures SemOk(ChangePriority(s, t, p).0)
    ensures ChangePriority(s, t, p).0.cnt + Total(ChangePriority(s, t, p).1) == s.cnt
    ensures forall w :: w in ChangePriority(s, t, p).0.queue || w in ChangePriority(s, t, p).1 <==>
                        w == Find(s.queue, t).(pri := p) || (w in s.queue && w.tid != t)
    ensures ChangePriority(s, t, p).1 + ChangePriority(s, t, p).0.queue == Reorder(s.queue, t, p)
  {
    ReorderLine(s.queue, t, p);
    SettleOk(s.(queue := Reorder(s.queue, t, p)));
  }

  /** A wait that blocked and is given up leaves the semaphore as it was. */
  lemma GivingUpUndoesWaiting(s: Sem, t: TaskId, pri: int, n: int)
    requires SemOk(s) && !Waits(s.queue, t) && Wait(s, t, pri, n, false).0.Blocked?
    ensures Cancel(Wait(s, t, pri, n, false).1, t) == (s, [])
  {
    LeaveUndoesJoin(s.tpri, s.queue, Waiter(t, pri, n));
  }

  // ------------------------------------------- semaphores used one count at a time

  /** First-served, and every waiter asks for one. */
  ghost predicate Unit(s: Sem) {
    SemOk(s) && !s.byCount && forall w :: w in s.queue ==> w.arg == 1
  }

  /** A signal goes to the first waiter if there is one, else into the count. */
  lemma SignalUnit(s: Sem)
    requires Unit(s)
    ensures s.queue != [] ==> s.cnt == 0
    ensures Signal(s, 1) ==
              if s.max == s.cnt then (E_QOVR, s, [])
              else if s.queue == [] then (E_OK, s.(cnt := s.cnt + 1), [])
              else (E_OK, s.(queue := s.queue[1..]), [s.queue[0]])
    ensures Unit(Signal(s, 1).1)
  {
    SignalOk(s, 1);
    if s.queue != [] {
      assert s.queue[0] in s.queue;
      var q := s.queue[1..];
      assert AsksOk(q) by { forall w | w in q ensures 0 < w.arg { assert w in s.queue; } }
      ServeZero(false, q);
      assert Serve(false, 1, s.queue) == Served(0, q, [s.queue[0]]);
      assert forall w :: w in q ==> w in s.queue;
    }
  }

  /** A task that gives up takes nothing with it and lets nobody in. */
  lemma CancelUnit(s: Sem, t: TaskId)
    requires Unit(s) && Waits(s.queue, t)
    ensures Cancel(s, t) == (s.(queue := Leave(s.queue, t)), []) && Unit(Cancel(s, t).0)
  {
    CancelOk(s, t);
    assert s.queue[0] in s.queue;
    var q := Leave(s.queue, t);
    assert q != [] ==> q[0] in q;
  }

  /** A task that waits takes a count or joins the line. */
  lemma WaitUnit(s: Sem, t: TaskId, pri: int, poll: bool)
    requires Unit(s) && !Waits(s.queue, t) && 1 <= s.max
    ensures var r := Wait(s, t, pri, 1, poll);
            && Unit(r.1)
            && (if s.cnt > 0 then r == (Answer(E_OK), s.(cnt := s.cnt - 1))
                else if poll then r == (Answer(E_TMOUT), s)
                else r == (Blocked, s.(queue := Join(s.tpri, s.queue, Waiter(t, pri, 1)))))
    ensures forall u :: Waits(Join(s.tpri, s.queue, Waiter(t, pri, 1)), u) <==> u == t || Waits(s.queue, u)
  {
    WaitOk(s, t, pri, 1, poll);
    var w := Waiter(t, pri, 1);
    var q := Join(s.tpri, s.queue, w);
    JoinLine(s.tpri, s.queue, w);
    assert s.queue != [] ==> s.queue[0] in s.queue;
    assert w in q;
    forall u | Waits(s.queue, u) ensures Waits(q, u) {
      var v :| v in s.queue && v.tid == u;
      assert v in q;
    }
  }

  // ------------------------------------------------------------------- every run

  datatype Call =
    | Sig(n: int)
    | Wai(t: TaskId, pri: int, n: int, poll: bool)
    | Release(t: TaskId)
    | ChgPri(t: TaskId, p: int)

  /** A waiting task makes no calls, and only waiting tasks' priority changes reach the ring. */
  ghost predicate Legal(s: Sem, c: Call) {
    match c
    case Sig(_) => true
    case Wai(t, _, _, _) => !Waits(s.queue, t)
    case Release(t) => Waits(s.queue, t)
    case ChgPri(t, _) => s.tpri && Waits(s.queue, t)
  }

  /** The next semaphore, the counts given to it and the counts handed out. */
  ghost function Do(s: Sem, c: Call): (Sem, int, int)
    requires Legal(s, c)
  {
    match c
    case Sig(n) => var r := Signal(s, n); (r.1, if r.0 == E_OK then n else 0, Total(r.2))
    case Wai(t, pri, n, poll) => var r := Wait(s, t, pri, n, poll); (r.1, 0, if r.0 == Answer(E_OK) then n else 0)
    case Release(t) => var r := Cancel(s, t); (r.0, 0, Total(r.1))
    case ChgPri(t, p) => var r := ChangePriority(s, t, p); (r.0, 0, Total(r.1))
  }

  ghost predicate IsRun(s: Sem, cs: seq<Call>)
    decreases |cs|
  {
    cs == [] || (Legal(s, cs[0]) && IsRun(Do(s, cs[0]).0, cs[1..]))
  }

  /** State, given and handed out after a run. */
  ghost function After(s: Sem, cs: seq<Call>): (Sem, int, int)
    requires IsRun(s, cs)
    decreases |cs|
  {
    if cs == [] then (s, 0, 0)
    else
      var d := Do(s, cs[0]);
      var r := After(d.0, cs[1..]);
      (r.0, d.1 + r.1, d.2 + r.2)
  }

  /** Over every run the count stays in range, counts are conserved, and nobody waits
      who could be served. */
  lemma {:induction false} EveryRun(s: Sem, cs: seq<Call>)
    requires SemOk(s) && IsRun(s, cs)
    ensures SemOk(After(s, cs).0)
    ensures After(s, cs).0.cnt + After(s, cs).2 == s.cnt + After(s, cs).1
    decreases |cs|
  {
    if cs != [] {
      CallKeeps(s, cs[0]);
      EveryRun(Do(s, cs[0]).0, cs[1..]);
    }
  }

  // -------------------------------------------------------------- first come, first served

  /** What a call does to the line: a request that is granted at once comes and is served. */
  ghost function Events(s: Sem, c: Call): seq<Event>
    requires Legal(s, c)
  {
    match c
    case Sig(n) => [Serves(Tids(Signal(s, n).2))]
    case Wai(t, pri, n, poll) =>
      var r := Wait(s, t, pri, n, poll).0;
      if r.Blocked? then [Comes(t)] else if r.er == E_OK then [Comes(t), Serves([t])] else []
    case Release(t) => [Quits(t), Serves(Tids(Cancel(s, t).1))]
    case ChgPri(_, _) => []
  }

  ghost function History(s: Sem, cs: seq<Call>): seq<Event>
    requires IsRun(s, cs)
    decreases |cs|
  {
    if cs == [] then [] else Events(s, cs[0]) + History(Do(s, cs[0]).0, cs[1..])
  }

  lemma FrontServed(q: Asks, freed: Asks, kept: Asks)
    requires freed + kept == q
    ensures Leads(Tids(q), [Serves(Tids(freed))], Tids(kept))
  {
    TidsFrom(q, |freed|);
    assert q[..|freed|] == freed && q[|freed|..] == kept;
    LeadsOne(Tids(q), Serves(Tids(freed)));
  }

  lemma WaitEvents(s: Sem, t: TaskId, pri: int, n: int, poll: bool)
    requires SemOk(s) && !s.tpri && !s.byCount && !Waits(s.queue, t)
    ensures Leads(Tids(s.queue), Events(s, Wai(t, pri, n, poll)), Tids(Wait(s, t, pri, n, poll).1.queue))
  {
    var r := Wait(s, t, pri, n, poll);
    var q := Tids(s.queue);
    TidsIn(s.queue, t);
    if r.0.Blocked? {
      TidsJoin(s.queue, Waiter(t, pri, n));
      LeadsOne(q, Comes(t));
    } else if r.0.er == E_OK {
      LeadsOne(q, Comes(t));
      LeadsOne([t], Serves([t]));
      LeadsJoin(q, [Comes(t)], [t], [Serves([t])], []);
      assert [Comes(t)] + [Serves([t])] == [Comes(t), Serves([t])];
    }
  }

  lemma CancelEvents(s: Sem, t: TaskId)
    requires SemOk(s) && !s.byCount && Waits(s.queue, t)
    ensures Leads(Tids(s.queue), Events(s, Release(t)), Tids(Cancel(s, t).0.queue))
  {
    var q1, r := Leave(s.queue, t), Cancel(s, t);
    TidsIn(s.queue, t);
    TidsLeave(s.queue, t);
    LeadsOne(Tids(s.queue), Quits(t));
    ServeFront(s.cnt, q1);
    FrontServed(q1, r.1, r.0.queue);
    LeadsJoin(Tids(s.queue), [Quits(t)], Tids(q1), [Serves(Tids(r.1))], Tids(r.0.queue));
    assert [Quits(t)] + [Serves(Tids(r.1))] == Events(s, Release(t));
  }

  lemma CallEvents(s: Sem, c: Call)
    requires SemOk(s) && !s.tpri && !s.byCount && Legal(s, c)
    ensures Leads(Tids(s.queue), Events(s, c), Tids(Do(s, c).0.queue))
  {
    match c {
      case Sig(n) =>
        if 0 < n <= s.max - s.cnt { ServeFront(s.cnt + n, s.queue); }
        FrontServed(s.queue, Signal(s, n).2, Signal(s, n).1.queue);
      case Wai(t, pri, n, poll) => WaitEvents(s, t, pri, n, poll);
      case Release(t) => CancelEvents(s, t);
    }
  }

  lemma CallKeeps(s: Sem, c: Call)
    requires SemOk(s) && Legal(s, c)
    ensures var s' := Do(s, c).0; SemOk(s') && s'.tpri == s.tpri && s'.byCount == s.byCount
    ensures Do(s, c).0.cnt + Do(s, c).2 == s.cnt + Do(s, c).1
  {
    match c {
      case Sig(n) => SignalOk(s, n);
      case Wai(t, pri, n, poll) => WaitOk(s, t, pri, n, poll);
      case Release(t) => CancelOk(s, t);
      case ChgPri(t, p) => ChangePriorityOk(s, t, p);
    }
  }

  lemma {:induction false} RunEvents(s: Sem, cs: seq<Call>)
    requires SemOk(s) && !s.tpri && !s.byCount && IsRun(s, cs)
    ensures Leads(Tids(s.queue), History(s, cs), Tids(After(s, cs).0.queue))
    decreases |cs|
  {
    if cs != [] {
      var s1 := Do(s, cs[0]).0;
      CallKeeps(s, cs[0]);
      CallEvents(s, cs[0]);
      RunEvents(s1, cs[1..]);
      LeadsJoin(Tids(s.queue), Events(s, cs[0]), Tids(s1.queue), History(s1, cs[1..]), Tids(After(s, cs).0.queue));
    }
  }

  /** With TA_TFIFO and TA_FIRST, over every run, tasks are served in the order in which they
      came, but for those that gave up, and the rest is still waiting in that order. */
  lemma FirstServed(s: Sem, cs: seq<Call>)
    requires SemOk(s) && !s.tpri && !s.byCount && IsRun(s, cs)
    ensures Standing(Tids(s.queue), History(s, cs)) == Done(History(s, cs)) + Tids(After(s, cs).0.queue)
  {
    TidsNoDup(s.tpri, s.queue);
    RunEvents(s, cs);
    InOrder([], Tids(s.queue), History(s, cs), Tids(After(s, cs).0.queue));
    assert [] + Tids(s.queue) == Tids(s.queue) && [] + Done(History(s, cs)) == Done(History(s, cs));
  }

  // ------------------------------------------------------------- the control block

  class SemControl {
    var semcnt: int
    const maxsem: int
    const tpri: bool
    const byCount: bool
    var queue: Asks

    ghost function State(): Sem
      reads this
    {
      Sem(semcnt, maxsem, tpri, byCount, queue)
    }

    /** tk_cre_sem, with arguments it accepts. */
    constructor (isemcnt: int, maxsem: int, tpri: bool, byCount: bool)
      requires 0 <= isemcnt <= maxsem
      ensures State() == Sem(isemcnt, maxsem, tpri, byCount, []) && SemOk(State())
    {
      semcnt, queue := isemcnt, [];
      this.maxsem, this.tpri, this.byCount := maxsem, tpri, byCount;
    }

    method TkSigSem(cnt: int) returns (er: Er, freed: Asks)
      requires SemOk(State())
      modifies this
      ensures SemOk(State()) && (er, State(), freed) == Signal(old(State()), cnt)
    {
      SignalOk(State(), cnt);
      if cnt <= 0 { return E_PAR, []; }
      if cnt > maxsem - semcnt { return E_QOVR, []; }
      semcnt := semcnt + cnt;
      freed := FreeWaiters();
      er := E_OK;
    }

    /** The loop of tk_sig_sem. */
    method FreeWaiters() returns (freed: Asks)
      requires 0 <= semcnt && AsksOk(queue)
      modifies this
      ensures Served(semcnt, queue, freed) == Serve(byCount, old(semcnt), old(queue))
    {
      var q, kept, i := queue, [], 0;
      freed := [];
      while i < |q|
        invariant semcnt >= 0 && Midway(byCount, old(semcnt), q, i, semcnt, kept, freed)
        decreases |q| - i
      {
        MidwayStep(byCount, old(semcnt), q, i, semcnt, kept, freed);
        if semcnt < q[i].arg {
          if !byCount { break; }
          kept := kept + [q[i]];
          i := i + 1;
          continue;
        }
        freed := freed + [q[i]];
        semcnt := semcnt - q[i].arg;
        i := i + 1;
        if semcnt <= 0 { break; }
      }
      MidwayStop(byCount, old(semcnt), q, i, semcnt, kept, freed);
      queue := kept + q[i..];
    }

    /** The second half of sem_chg_pri. */
    method ServeHeads() returns (freed: Asks)
      requires 0 <= semcnt && AsksOk(queue)
      modifies this
      ensures (State(), freed) == Settle(old(State()))
    {
      freed := [];
      if byCount { return; }
      var q, i := queue, 0;
      while i < |q| && semcnt >= q[i].arg
        invariant semcnt >= 0 && Midway(false, old(semcnt), q, i, semcnt, [], freed)
      {
        MidwayStep(false, old(semcnt), q, i, semcnt, [], freed);
        freed := freed + [q[i]];
        semcnt := semcnt - q[i].arg;
        i := i + 1;
      }
      MidwayStop(false, old(semcnt), q, i, semcnt, [], freed);
      assert [] + q[i..] == q[i..];
      queue := q[i..];
    }

    /** The waiting task `t` is released by timeout or tk_rel_wai. */
    method ReleaseWait(t: TaskId) returns (freed: Asks)
      requires SemOk(State()) && Waits(queue, t)
      modifies this
      ensures SemOk(State()) && (State(), freed) == Cancel(old(State()), t)
    {
      CancelOk(State(), t);
      queue := Leave(queue, t);
      freed := ServeHeads();
    }

    method SemChgPri(t: TaskId, p: int) returns (freed: Asks)
      requires SemOk(State()) && tpri && Waits(queue, t)
      modifies this
      ensures SemOk(State()) && (State(), freed) == ChangePriority(old(State()), t, p)
    {
      ChangePriorityOk(State(), t, p);
      ReorderLine(queue, t, p);
      queue := Reorder(queue, t, p);
      freed := ServeHeads();
    }

    method TkWaiSem(t: TaskId, pri: int, cnt: int, poll: bool) returns (r: WaitResult)
      requires SemOk(State()) && !Waits(queue, t)
      modifies this
      ensures SemOk(State()) && (r, State()) == Wait(old(State()), t, pri, cnt, poll)
    {
      WaitOk(State(), t, pri, cnt, poll);
      if cnt <= 0 || cnt > maxsem { return Answer(E_PAR); }
      if (byCount || Top(tpri, queue, pri)) && semcnt >= cnt {
        semcnt := semcnt - cnt;
        r := Answer(E_OK);
      } else if poll {
        r := Answer(E_TMOUT);
      } else {
        queue := Join(tpri, queue, Waiter(t, pri, cnt));
        r := Blocked;
      }
    }
  }
}
