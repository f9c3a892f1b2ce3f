/** Cyclic handlers (time_calls.h, time_calls.c): when the next activation is due, and
    that a started handler keeps its phase. */
module Cyclic {
  import opened Common
  import opened Arith
  import opened Timer

  /** knl_cyc_next_time in 32-bit words: `time` is the last activation time, `tim` the period. */
  function CycNextTime(time: int, tim: int, cur: int): int
    requires 0 < tim
  {
    var tm := Word(time + tim);
    if AbstimReached(cur, tm) then Word((Word(cur - time) / tim + 1) * tim + time) else tm
  }

  /** `next` is the first time after `now` that is a whole number of periods, one at
      least, after `last`. */
  ghost predicate IsNext(last: int, tim: int, now: int, next: int) {
    && next > now
    && (exists k :: k >= 1 && next == last + k * tim)
    && (forall k :: k >= 1 && last + k * tim > now ==> next <= last + k * tim)
  }

  lemma IsNextAt(last: int, tim: int, now: int, k: int)
    requires 0 < tim && k >= 1 && last + k * tim > now && (k == 1 || last + (k - 1) * tim <= now)
    ensures IsNext(last, tim, now, last + k * tim)
  {
    forall j | j >= 1 && last + j * tim > now ensures last + k * tim <= last + j * tim {
      if j < k {
        assert j * tim <= (k - 1) * tim by { Scale(j, k - 1, tim); }
      } else {
        Scale(k, j, tim);
      }
    }
  }

  lemma NextExists(last: int, tim: int, now: int)
    requires 0 < tim && last <= now
    ensures var k := (now - last) / tim + 1;
            k >= 1 && last + k * tim > now && (k == 1 || last + (k - 1) * tim <= now) && k * tim <= now - last + tim
  {
    var d := now - last;
    assert d == d / tim * tim + d % tim;
    assert (d / tim + 1) * tim == d / tim * tim + tim;
  }

  /** With the last activation reached less than half a word ago, or set for the next tick
      as at an immediate first call, the word computed is that of the next activation;
      the product does not overflow, and the time is within sight of the timer queue. */
  lemma NextActivation(last: int, tim: int, now: int) returns (next: int)
    requires 0 < tim < HALF && now - DIFF_MIN <= last <= now + 1
    ensures IsNext(last, tim, now, next) && now < next <= now + HALF
    ensures CycNextTime(Word(last), tim, Word(now)) == Word(next)
    ensures last <= now ==> Word(Word(now) - Word(last)) == now - last && ((now - last) / tim + 1) * tim < WORD
  {
    ElapsedWord(last, tim, now);
    if last + tim > now {
      next := last + tim;
      NextNear(last, tim, now);
    } else {
      next := last + ((now - last) / tim + 1) * tim;
      NextFar(last, tim, now);
    }
  }

  /** One period after the last activation is still to come. */
  lemma NextNear(last: int, tim: int, now: int)
    requires 0 < tim < HALF && now - DIFF_MIN <= last <= now + 1 && last + tim > now
    ensures IsNext(last, tim, now, last + tim) && CycNextTime(Word(last), tim, Word(now)) == Word(last + tim)
  {
    WordSum(last, tim);
    ReachedIsPast(now, last + tim);
    IsNextAt(last, tim, now, 1);
    assert last + 1 * tim == last + tim;
  }

  /** It has come: the branch with the division. */
  lemma NextFar(last: int, tim: int, now: int)
    requires 0 < tim < HALF && now - DIFF_MIN <= last && last + tim <= now
    ensures var next := last + ((now - last) / tim + 1) * tim;
            && IsNext(last, tim, now, next) && now < next <= now + HALF
            && CycNextTime(Word(last), tim, Word(now)) == Word(next)
  {
    var k := (now - last) / tim + 1;
    WordSum(last, tim);
    ReachedIsPast(now, last + tim);
    ElapsedWord(last, tim, now);
    NextExists(last, tim, now);
    IsNextAt(last, tim, now, k);
    WordSum(last, k * tim);
  }

  /** The elapsed time is computed without overflow, and so is the product. */
  lemma ElapsedWord(last: int, tim: int, now: int)
    requires 0 < tim < HALF && now - DIFF_MIN <= last
    ensures last <= now ==> Word(Word(now) - Word(last)) == now - last && ((now - last) / tim + 1) * tim < WORD
  {
    WordDiff(now, last);
    WordSmall(now - last);
    if last <= now { NextExists(last, tim, now); }
  }

  /** A handler called at its time is due again exactly one period later. */
  lemma NextOnTime(now: int, tim: int)
    requires 0 < tim < HALF
    ensures CycNextTime(Word(now), tim, Word(now)) == Word(now + tim)
  {
    var next := NextActivation(now, tim, now);
    assert now + 1 * tim > now;
    assert next <= now + 1 * tim;
    var k :| k >= 1 && next == now + k * tim;
    Scale(1, k, tim);
  }

  // ----------------------------------------------------------- keeping the phase

  /** Only the callback of `id` itself touches the event `id`. */
  ghost predicate OthersSpare(cb: Callbacks, id: nat) {
    forall x {:trigger Does(cb, x)} :: x != id ==> Spared(Does(cb, x), id)
  }

  /** An event that is not due in this tick stays. */
  lemma {:induction false} LateStays(ag: Agenda, now: int, cb: Callbacks, e: Entry)
    requires Sorted(ag) && Visible(ag, now) && Friendly(cb, now) && OthersSpare(cb, e.id)
    requires e in ag && e.due > now
    ensures e in Fire(ag, now, cb).0
    decreases Dues(ag, now)
  {
    if ag[0].due <= now {
      RestKeeps(ag, now, cb, e);
      FireFirst(ag, now, cb, e);
      LateStays(Rest(ag, cb), now, cb, e);
    }
  }

  lemma ArmedAgain(ag: Agenda, id: nat, due: int)
    requires Sorted(ag)
    ensures Entry(id, due) in DoAll(ag, [Arm(id, due)])
  {
    var op := Arm(id, due);
    assert [op][1..] == [] && DoAll(ag, [op]) == Do(ag, op);
    DropSorted(ag, id);
    InsertSorted(Drop(ag, id), Entry(id, due));
  }

  /** knl_call_cychdr at its time: fired, and queued again one period later. */
  lemma {:induction false} FireCyclic(ag: Agenda, now: int, cb: Callbacks, id: nat, tim: int)
    requires Sorted(ag) && Visible(ag, now) && Friendly(cb, now) && OthersSpare(cb, id)
    requires 0 < tim < HALF && Entry(id, now) in ag && Does(cb, id) == [Arm(id, now + tim)]
    ensures Entry(id, now) in Fire(ag, now, cb).1 && Entry(id, now + tim) in Fire(ag, now, cb).0
    decreases Dues(ag, now)
  {
    TailSorted(ag);
    FireFirst(ag, now, cb, Entry(id, now));
    RestKeeps(ag, now, cb, Entry(id, now));
    if ag[0].id == id {
      ArmedAgain(ag[1..], id, now + tim);
      LateStays(Rest(ag, cb), now, cb, Entry(id, now + tim));
    } else {
      FireCyclic(Rest(ag, cb), now, cb, id, tim);
    }
  }

  /** Only events that were queued are fired. */
  lemma {:induction false} FireOnly(ag: Agenda, now: int, cb: Callbacks, e: Entry)
    requires Sorted(ag) && Visible(ag, now) && Friendly(cb, now) && OthersSpare(cb, e.id)
    requires var ops := Does(cb, e.id); ops == [] || (|ops| == 1 && ops[0].Arm? && ops[0].id == e.id)
    requires e in Fire(ag, now, cb).1
    ensures e in ag
    decreases Dues(ag, now)
  {
    if e != ag[0] {
      var rest := Rest(ag, cb);
      RestKeeps(ag, now, cb, e);
      FireFirst(ag, now, cb, e);
      FireOnly(rest, now, cb, e);
      if ag[0].id == e.id {
        FireDone(rest, now, cb, now - DIFF_MIN);
        SelfArmed(ag, now, cb, e);
      }
    }
  }

  /** An event that its own callback has set is not due. */
  lemma SelfArmed(ag: Agenda, now: int, cb: Callbacks, e: Entry)
    requires Sorted(ag) && ag != [] && ag[0].id == e.id && Friendly(cb, now) && e in Rest(ag, cb)
    requires var ops := Does(cb, e.id); ops == [] || (|ops| == 1 && ops[0].Arm? && ops[0].id == e.id)
    ensures e.due > now
  {
    var ops := Does(cb, e.id);
    TailSorted(ag);
    if ops != [] {
      var op := ops[0];
      assert ops == [op] && ops[1..] == [];
      assert DoAll(Do(ag[1..], op), ops[1..]) == Do(ag[1..], op);
      assert Future(now, op);
      DropSorted(ag[1..], op.id);
      InsertSorted(Drop(ag[1..], op.id), Entry(op.id, op.due));
    }
  }

  // ---------------------------------------------------------- the first activation

  ghost predicate Names(es: seq<Entry>, id: nat) {
    exists e :: e in es && e.id == id
  }

  /** The queue once tk_cre_cyc with TA_STA has set the first activation of `id`; nobody has
      checked the phase. */
  function Started(ag: Agenda, now: int, id: nat, phs: int): Agenda {
    Insert(ag, Entry(id, Meant(now, Word(now + phs + 1))))
  }

  ghost predicate Logged(log: Log, id: nat) {
    exists x :: x in log && x.1.id == id
  }

  /** Only the handler itself sets or cancels the event `id`. */
  ghost predicate LeavesTo(a: Step, id: nat) {
    match a
    case Call(op) => op.id != id
    case Tick(cb) => OthersSpare(cb, id)
  }

  /** The run leads past now and not beyond `due`. */
  ghost predicate Towards(s: Clock, run: seq<Step>, id: nat, due: int) {
    && IsRun(s, run) && (forall i :: 0 <= i < |run| ==> LeavesTo(run[i], id))
    && s.now < After(s, run).0.now <= due
  }

  /** Nothing that is due is left, and `id` has been fired exactly if its time has come. */
  ghost predicate GoodRun(s: Clock, run: seq<Step>, id: nat, due: int)
    requires IsRun(s, run)
  {
    var r := After(s, run); NothingDue(r.0.ag, r.0.now) && (Logged(r.1, id) <==> r.0.now == due)
  }

  /** Whatever is set, cancelled and called back until the first activation, every tick fires
      all that is due, and the handler is fired at its time and not before. */
  ghost predicate StartsWell(s: Clock, id: nat, due: int) {
    forall run :: Towards(s, run, id, due) ==> GoodRun(s, run, id, due)
  }

  /** Before its own callback ran, an event is fired exactly if it is due. */
  lemma {:induction false} FireFirstTime(ag: Agenda, now: int, cb: Callbacks, e: Entry)
    requires Sorted(ag) && Visible(ag, now) && Friendly(cb, now) && OthersSpare(cb, e.id) && e in ag
    ensures Names(Fire(ag, now, cb).1, e.id) <==> e.due <= now
    ensures e.due > now ==> e in Fire(ag, now, cb).0
    decreases Dues(ag, now)
  {
    if ag[0].due <= now {
      RestKeeps(ag, now, cb, e);
      FireFirst(ag, now, cb, ag[0]);
      if ag[0].id == e.id {
        assert ag[0] in Fire(ag, now, cb).1;
      } else {
        FireFirstTime(Rest(ag, cb), now, cb, e);
        DoAllDues(ag[1..], Does(cb, ag[0].id), now);
        assert Fire(ag, now, cb).1 == [ag[0]] + Fire(Rest(ag, cb), now, cb).1;
      }
    } else {
      TailSorted(ag);
    }
  }

  /** A queue in order and within sight that holds `e`.  (An equation, so that the verifier
      hands it on as one fact.) */
  ghost predicate Holds(q: Agenda, now: int, e: Entry) {
    true == (Sorted(q) && Visible(q, now) && e in q)
  }

  lemma StartedIs(ag: Agenda, now: int, id: nat, phs: int)
    requires AgendaOk(ag, now) && !Queued(ag, id) && 0 < phs < WORD
    ensures var q := Started(ag, now, id, phs);
            && (phs < HALF ==> AgendaOk(q, now) && Entry(id, now + phs + 1) in q)
            && (phs == HALF ==> q == [Entry(id, now - DIFF_MIN)] + ag)
            && (phs > HALF ==> Holds(q, now + 1, Entry(id, now + phs + 1 - WORD)))
  {
    var e := Entry(id, Meant(now, Word(now + phs + 1)));
    MeantExactly(now, phs + 1);
    InsertSorted(ag, e);
    if phs == HALF {
      assert ag != [] ==> ag[0] in ag;
      assert Place(ag, e.due) == 0;
    }
  }

  lemma LoggedStamped(now: int, es: seq<Entry>, id: nat)
    ensures Logged(Stamped(now, es), id) <==> Names(es, id)
  {
    if e :| e in es && e.id == id {
      StampedHas(now, es, e);
      assert (now, e) in Stamped(now, es);
    }
    if x :| x in Stamped(now, es) && x.1.id == id {
      StampedHas(now, es, x.1);
    }
  }

  lemma LoggedJoin(a: Log, b: Log, id: nat)
    ensures Logged(a + b, id) <==> Logged(a, id) || Logged(b, id)
  {
    if x :| x in a && x.1.id == id { assert x in a + b; }
    if x :| x in b && x.1.id == id { assert x in a + b; }
  }

  /** A step from `s` led to `d.0` while `e` was queued: it was fired exactly if its time came.
      (An equation, so that the verifier hands it on as one fact.) */
  ghost predicate Neared(s: Clock, d: (Clock, Log), e: Entry) {
    true == (
      && d.0.now <= s.now + 1 && (Logged(d.1, e.id) <==> e.due == d.0.now) && (e.due > d.0.now ==> e in d.0.ag)
    )
  }

  lemma NearStep(s: Clock, a: Step, e: Entry)
    requires AgendaOk(s.ag, s.now) && Enabled(s, a) && LeavesTo(a, e.id) && e in s.ag
    ensures Neared(s, Next(s, a), e)
  {
    match a {
      case Call(op) => NearCall(s, op, e);
      case Tick(cb) => NearTick(s, cb, e, s.now + 1);
    }
  }

  lemma NearCall(s: Clock, op: Op, e: Entry)
    requires AgendaOk(s.ag, s.now) && Future(s.now, op) && op.id != e.id && e in s.ag
    ensures Neared(s, Next(s, Call(op)), e)
  {
    DoKeeps(s.ag, op, s.now + 1, s.now + HALF);
  }

  lemma NearTick(s: Clock, cb: Callbacks, e: Entry, n: int)
    requires AgendaOk(s.ag, s.now) && n == s.now + 1 && Friendly(cb, n) && OthersSpare(cb, e.id) && e in s.ag
    ensures Neared(s, Next(s, Tick(cb)), e)
  {
    TickKeeps(s.ag, s.now, n, cb);
    FireFirstTime(s.ag, n, cb, e);
    LoggedStamped(n, TickTo(s.ag, n, cb).1, e.id);
  }

  /** A first activation at most 2^31 ticks ahead. */
  lemma {:induction false} NearRun(s: Clock, run: seq<Step>, e: Entry)
    requires AgendaOk(s.ag, s.now) && e in s.ag && IsRun(s, run) && After(s, run).0.now <= e.due
    requires forall i :: 0 <= i < |run| ==> LeavesTo(run[i], e.id)
    ensures Logged(After(s, run).1, e.id) <==> After(s, run).0.now == e.due
    decreases |run|
  {
    if run != [] {
      var d := Next(s, run[0]);
      StepKeeps(s, run[0]);
      NearStep(s, run[0], e);
      assert forall i :: 0 <= i < |run[1..]| ==> LeavesTo(run[1..][i], e.id);
      LoggedJoin(d.1, After(d.0, run[1..]).1, e.id);
      TimePasses(d.0, run[1..]);
      if e.due > d.0.now {
        NearRun(d.0, run[1..], e);
      }
    }
  }

  lemma StartNear(s: Clock, id: nat, due: int)
    requires AgendaOk(s.ag, s.now) && Entry(id, due) in s.ag
    ensures StartsWell(s, id, due)
  {
    forall run | Towards(s, run, id, due) ensures GoodRun(s, run, id, due) {
      EveryRun(s, run);
      NearRun(s, run, Entry(id, due));
    }
  }

  /** The events that are queued, and those that are set before the next tick, are behind an
      event 2^31 + 1 ahead... */
  lemma SetBehind(ag: Agenda, now: int, id: nat, op: Op)
    requires AgendaOk(ag, now) && Future(now, op) && op.id != id
    ensures AgendaOk(Do(ag, op), now)
    ensures Do([Entry(id, now - DIFF_MIN)] + ag, op) == [Entry(id, now - DIFF_MIN)] + Do(ag, op)
  {
    DoKeeps(ag, op, now + 1, now + HALF);
    DropBehind(Entry(id, now - DIFF_MIN), ag, op.id);
    if op.Arm? {
      InsertBehind(Entry(id, now - DIFF_MIN), Drop(ag, op.id), Entry(op.id, op.due));
    }
  }

  lemma DropBehind(h: Entry, ag: Agenda, id: nat)
    requires h.id != id
    ensures Drop([h] + ag, id) == [h] + Drop(ag, id)
  {
    assert ([h] + ag)[1..] == ag;
  }

  lemma InsertBehind(h: Entry, ag: Agenda, e: Entry)
    requires h.due <= e.due
    ensures Insert([h] + ag, e) == [h] + Insert(ag, e)
  {
    assert ([h] + ag)[1..] == ag;
    PlaceStep([h] + ag, e.due);
  }

  lemma {:induction false} AllBehind(ag: Agenda, now: int, id: nat, ops: seq<Op>)
    requires AgendaOk(ag, now) && AllFuture(now, ops) && Spared(ops, id)
    ensures AgendaOk(DoAll(ag, ops), now)
    ensures DoAll([Entry(id, now - DIFF_MIN)] + ag, ops) == [Entry(id, now - DIFF_MIN)] + DoAll(ag, ops)
    decreases |ops|
  {
    if ops != [] {
      assert Future(now, ops[0]);
      SetBehind(ag, now, id, ops[0]);
      AllBehind(Do(ag, ops[0]), now, id, ops[1..]);
    }
  }

  /** ...and are held up there: for 2^31 ticks none is fired. */
  lemma HeldUp(ag: Agenda, now: int, id: nat, ops: seq<Op>, cbs: int -> Callbacks, k: nat)
    requires AllFriendly(cbs) && AgendaOk(ag, now) && !Queued(ag, id) && 0 < k <= HALF
    requires AllFuture(now, ops) && Spared(ops, id)
    ensures var q := DoAll(Started(ag, now, id, HALF), ops);
            && FiredIn(q, now, cbs, k) == [] && forall e :: e in DoAll(ag, ops) ==> e in Ticks(q, now, cbs, k)
  {
    StartedIs(ag, now, id, HALF);
    AllBehind(ag, now, id, ops);
    Stalled(DoAll(ag, ops), now, cbs, id, k);
  }

  /** A timeout that is set before the next tick and due at it stays unfired. */
  lemma StartAtHalf(ag: Agenda, now: int, id: nat)
    requires AgendaOk(ag, now) && !Queued(ag, id)
    ensures !StartsWell(Clock(now, Started(ag, now, id, HALF)), id, now + HALF + 1)
  {
    assert Started(ag, now, id, HALF) == [Entry(id, now - DIFF_MIN)] + ag by { StartedIs(ag, now, id, HALF); }
    LateTimeout(ag, now, id);
  }

  lemma LateTimeout(ag: Agenda, now: int, id: nat)
    requires AgendaOk(ag, now)
    ensures !StartsWell(Clock(now, [Entry(id, now - DIFF_MIN)] + ag), id, now + HALF + 1)
  {
    var n, q0, op := now + 1, [Entry(id, now - DIFF_MIN)] + ag, Arm(id + 1, now + 1);
    var q := Do(q0, op);
    assert q != [] && q[0] == Entry(id, now - DIFF_MIN) && Entry(op.id, n) in q by {
      SetBehind(ag, now, id, op);
      InsertMembers(Drop(q0, op.id), Entry(op.id, n));
    }
    HeadBlocks(q, n, id, Entry(op.id, n));
    BadPair(Clock(now, q0), Call(op), Clock(now, q), map[], id, now + HALF + 1);
  }

  /** A call and a tick that leave something due. */
  lemma BadPair(s: Clock, a: Step, s1: Clock, cb: Callbacks, id: nat, due: int)
    requires a.Call? && Enabled(s, a) && Next(s, a).0 == s1 && LeavesTo(a, id) && LeavesTo(Tick(cb), id)
    requires Friendly(cb, s1.now + 1) && s.now < s1.now + 1 <= due
    requires !NothingDue(TickTo(s1.ag, s1.now + 1, cb).0, s1.now + 1)
    ensures !StartsWell(s, id, due)
  {
    var run := [a, Tick(cb)];
    TwoSteps(s, a, Tick(cb));
    assert forall i :: 0 <= i < |run| ==> LeavesTo(run[i], id);
    assert Towards(s, run, id, due) && !GoodRun(s, run, id, due);
  }

  lemma HeadBlocks(q: Agenda, n: int, id: nat, e: Entry)
    requires q != [] && q[0] == Entry(id, n - 1 - DIFF_MIN) && e in q && e.due == n
    ensures !NothingDue(TickTo(q, n, map[]).0, n)
  {
    assert Renewed(q, n)[0] == Entry(id, n + HALF);
    Overdue(q, e, n);
  }

  lemma Overdue(q: Agenda, e: Entry, now: int)
    requires e in q && e.due == now
    ensures e in Renewed(q, now) && !NothingDue(Renewed(q, now), now)
  {
    var i :| 0 <= i < |q| && q[i] == e;
    assert Renewed(q, now)[i] == e;
  }

  lemma TwoSteps(s: Clock, a: Step, b: Step)
    requires Enabled(s, a) && Enabled(Next(s, a).0, b)
    ensures IsRun(s, [a, b]) && After(s, [a, b]).0 == Next(Next(s, a).0, b).0
  {
    assert [a, b][1..] == [b];
    OneStep(Next(s, a).0, b);
  }

  /** Above 2^31 the handler is fired at the next tick, whatever is called back. */
  lemma StartFar(ag: Agenda, now: int, id: nat, phs: int, cb: Callbacks)
    requires AgendaOk(ag, now) && !Queued(ag, id) && HALF < phs < WORD
    requires Friendly(cb, now + 1) && OthersSpare(cb, id)
    ensures Names(TickTo(Started(ag, now, id, phs), now + 1, cb).1, id)
    ensures !StartsWell(Clock(now, Started(ag, now, id, phs)), id, now + phs + 1)
  {
    var q, e := Started(ag, now, id, phs), Entry(id, now + phs + 1 - WORD);
    assert Holds(q, now + 1, e) by { StartedIs(ag, now, id, phs); }
    FarTick(q, now + 1, e, cb);
    FiredEarly(Clock(now, q), id, now + phs + 1, cb, now + 1);
  }

  lemma FarTick(q: Agenda, n: int, e: Entry, cb: Callbacks)
    requires Holds(q, n, e) && e.due < n && Friendly(cb, n) && OthersSpare(cb, e.id)
    ensures Names(TickTo(q, n, cb).1, e.id)
  {
    RenewedSame(q, n);
    FireFirstTime(q, n, cb, e);
  }

  lemma FiredEarly(s: Clock, id: nat, due: int, cb: Callbacks, n: int)
    requires n == s.now + 1 < due && Friendly(cb, n) && OthersSpare(cb, id) && Names(TickTo(s.ag, n, cb).1, id)
    ensures !StartsWell(s, id, due)
  {
    var run := [Tick(cb)];
    LoggedStamped(n, TickTo(s.ag, n, cb).1, id);
    OneStep(s, Tick(cb));
    assert Towards(s, run, id, due) && !GoodRun(s, run, id, due);
  }

  lemma OneStep(s: Clock, a: Step)
    requires Enabled(s, a)
    ensures IsRun(s, [a]) && After(s, [a]) == Next(s, a)
  {
    assert [a][1..] == [];
    assert Next(s, a).1 + [] == Next(s, a).1;
  }

  /** A handler is started well, whatever else happens, exactly if its phase is less than
      2^31.  At 2^31 it holds up all events that are queued or set before the next tick; above,
      it is itself fired at the next tick. */
  lemma FirstActivation(ag: Agenda, now: int, id: nat, phs: int)
    requires AgendaOk(ag, now) && !Queued(ag, id) && 0 < phs < WORD
    ensures StartsWell(Clock(now, Started(ag, now, id, phs)), id, now + phs + 1) <==> phs < HALF
  {
    if phs < HALF {
      StartedIs(ag, now, id, phs);
      StartNear(Clock(now, Started(ag, now, id, phs)), id, now + phs + 1);
    } else if phs == HALF {
      StartAtHalf(ag, now, id);
    } else {
      StartFar(ag, now, id, phs, map[]);
    }
  }

  // ------------------------------------------------------------ times in words

  /** The time from `now` on that the word stands for. */
  function Unwrapped(now: int, w: int): int {
    now + Word(w - now)
  }

  lemma UnwrappedIs(now: int, d: int)
    requires now <= d < now + WORD
    ensures Unwrapped(now, Word(d)) == d
  {
    WordDiff(d, now);
    WordSmall(d - now);
  }

  /** What knl_call_cychdr passes to the timer queue at time `now`. */
  function Rearm(mark: int, tim: int, now: int): int
    requires 0 < tim
  {
    Unwrapped(now, CycNextTime(Word(mark), tim, Word(now)))
  }

  /** The activation time that tk_sta_cyc with TA_PHS computes from the old one. */
  function Continued(mark: int, tim: int, now: int): int
    requires 0 < tim
  {
    var tm := Word(mark);
    Unwrapped(now, if AbstimReached(Word(now), tm) then CycNextTime(tm, tim, Word(now)) else tm)
  }

  // ------------------------------------------------------- continuing after a stop

  /** The time that the word of `mark` stands for at `now`: whole words later than `mark`
      if the handler was stopped for too long, and a word earlier if it was created with a
      phase beyond sight. */
  function Seen(mark: int, now: int): int {
    mark + (now - mark + HALF) / WORD * WORD
  }

  lemma SeenInSight(mark: int, now: int)
    ensures InSight(now, Seen(mark, now)) && Word(Seen(mark, now)) == Word(mark)
    ensures -HALF <= now - mark < HALF <==> Seen(mark, now) == mark
  {
    var d := now - mark + HALF;
    assert d == d / WORD * WORD + d % WORD;
    WordShift(mark, d / WORD);
  }

  /** Where a continued handler goes on: at the time its word stands for, or at the first
      whole number of periods after it that is still to come. */
  lemma ContinuedAt(mark: int, tim: int, now: int)
    requires 0 < tim < HALF
    ensures var d, a := Continued(mark, tim, now), Seen(mark, now);
            now < d <= now + HALF && if a > now then d == a else IsNext(a, tim, now, d)
  {
    var a := Seen(mark, now);
    SeenInSight(mark, now);
    ReachedIsPast(now, a);
    if a > now {
      UnwrappedIs(now, a);
    } else {
      var next := NextActivation(a, tim, now);
      UnwrappedIs(now, next);
    }
  }

  predicate SamePhase(a: int, b: int, tim: int)
    requires 0 < tim
  {
    (b - a) % tim == 0
  }

  /** tk_sta_cyc with TA_PHS keeps the phase exactly if the periods divide the whole words
      by which the old time is misread; there is none if it is less than 2^31 ticks ago and
      at most 2^31 ahead. */
  lemma PhaseKeptIff(mark: int, tim: int, now: int)
    requires 0 < tim < HALF
    ensures SamePhase(mark, Continued(mark, tim, now), tim) <==> ((now - mark + HALF) / WORD * WORD) % tim == 0
    ensures -HALF <= now - mark < HALF ==> SamePhase(mark, Continued(mark, tim, now), tim)
  {
    var d, a := Continued(mark, tim, now), Seen(mark, now);
    ContinuedAt(mark, tim, now);
    SeenInSight(mark, now);
    if a <= now {
      var k :| k >= 1 && d == a + k * tim;
      ModShift(a - mark, k, tim);
    }
  }

  /** A handler with period 3 that was stopped for 2^31 ticks goes on out of phase. */
  lemma PhaseLost()
    ensures Continued(0, 3, HALF) == WORD && !SamePhase(0, Continued(0, 3, HALF), 3)
  {
    ContinuedAt(0, 3, HALF);
    assert Seen(0, HALF) == WORD;
  }

  /** How activation times follow each other: at a call of the handler, and when it is
      continued after a stop; the arguments are the old time and the current one. */
  datatype Rule = Rule(tim: int, rearm: (int, int) -> int, resume: (int, int) -> int)

  /** The rule of the code, for a period `tim`. */
  function Code(tim: int): Rule
    requires 0 < tim
  {
    Rule(tim, (m: int, n: int) => if 0 < tim then Rearm(m, tim, n) else 0,
              (m: int, n: int) => if 0 < tim then Continued(m, tim, n) else 0)
  }

  /** A handler called on time is due one period later; a continued one is due in sight. */
  ghost predicate Regular(k: Rule) {
    && 0 < k.tim < HALF
    && (forall now {:trigger k.rearm(now, now)} :: k.rearm(now, now) == now + k.tim)
    && (forall m, now {:trigger k.resume(m, now)} :: now < k.resume(m, now) <= now + HALF)
  }

  lemma CodeRegular(tim: int)
    requires 0 < tim < HALF
    ensures Regular(Code(tim))
  {
    var k := Code(tim);
    forall now ensures k.rearm(now, now) == now + k.tim { RearmOnTime(now, tim); }
    forall m, now ensures now < k.resume(m, now) <= now + HALF { ContinuedAt(m, tim, now); }
  }

  /** When the handler is due, its callback sets it one period ahead: the code computes it. */
  lemma RearmOnTime(now: int, tim: int)
    requires 0 < tim < HALF
    ensures Rearm(now, tim, now) == now + tim
  {
    NextOnTime(now, tim);
    UnwrappedIs(now, now + tim);
  }

  // -------------------------------------------------------------- the machine

  /** The timer queue and one cyclic handler.  `mark` is the unwrapped time of which its
      control block holds the word cyctmeb.time; `on` is TCYC_STA. */
  datatype Cyc = Cyc(now: int, ag: Agenda, mark: int, on: bool)

  type Log = seq<(int, Entry)>

  /** Other kernel code sets or cancels an event; a tick with what other callbacks do;
      tk_stp_cyc; tk_sta_cyc with TA_PHS and without. */
  datatype Act = Other(op: Op) | Elapse(cb: Callbacks) | Stop | Continue | Restart

  /** The callbacks of a tick; that of `id` runs only if it is due. */
  function Calls(s: Cyc, cb: Callbacks, id: nat, k: Rule): Callbacks {
    if s.on && s.mark <= s.now + 1 then cb[id := [Arm(id, k.rearm(s.mark, s.now + 1))]] else cb - {id}
  }

  ghost predicate CanTick(s: Cyc, cb: Callbacks, id: nat, k: Rule) {
    OthersSpare(cb, id) && Friendly(Calls(s, cb, id, k), s.now + 1)
  }

  ghost function Ticked(s: Cyc, cb: Callbacks, id: nat, k: Rule): (Cyc, Log)
    requires CanTick(s, cb, id, k)
  {
    var now := s.now + 1;
    var r := Fire(s.ag, now, Calls(s, cb, id, k));
    (Cyc(now, r.0, if s.on && s.mark <= now then k.rearm(s.mark, now) else s.mark, s.on), Stamped(now, r.1))
  }

  /** The first activation of a handler started without TA_PHS. */
  function FirstTime(now: int, tim: int): int {
    now + tim + 1
  }

  predicate CanCall(s: Cyc, a: Act, id: nat) {
    match a
    case Other(op) => op.id != id && Future(s.now, op)
    case Elapse(_) => false
    case _ => true
  }

  function Called(s: Cyc, a: Act, id: nat, k: Rule): Cyc
    requires CanCall(s, a, id)
  {
    match a
    case Other(op) => s.(ag := Do(s.ag, op))
    case Stop => if s.on then s.(ag := Drop(s.ag, id), on := false) else s
    case Continue => if s.on then s else Set(s, id, k.resume(s.mark, s.now))
    case Restart => Set(s, id, FirstTime(s.now, k.tim))
  }

  /** The step `a` leads from `s` to `s'` and fires `log`. */
  ghost predicate Steps(s: Cyc, a: Act, id: nat, k: Rule, s': Cyc, log: Log) {
    if a.Elapse? then CanTick(s, a.cb, id, k) && (s', log) == Ticked(s, a.cb, id, k)
    else CanCall(s, a, id) && s' == Called(s, a, id, k) && log == []
  }

  /** The event is queued for `due`, after its earlier setting is deleted. */
  function Set(s: Cyc, id: nat, due: int): Cyc {
    Cyc(s.now, Do(s.ag, Arm(id, due)), due, true)
  }

  /** A started handler is queued for its time, a stopped one is not queued.  (An equation,
      so that the verifier hands it on as one fact.) */
  ghost predicate CycOk(s: Cyc, id: nat) {
    true == (
      && AgendaOk(s.ag, s.now)
      && if s.on then Entry(id, s.mark) in s.ag else !Queued(s.ag, id)
    )
  }

  // ---------------------------------------------------------------- one step

  /** What a step means for a started handler: fired and set again when its time has come. */
  ghost predicate OnBeat(s: Cyc, s': Cyc, log: Log, id: nat, tim: int) {
    && s'.on && s'.now >= s.now && s'.mark > s'.now
    && if s'.now >= s.mark then s'.mark == s.mark + tim && (s.mark, Entry(id, s.mark)) in log else s'.mark == s.mark
  }

  /** If `id` is fired, then at `t`. */
  ghost predicate FiredAt(log: Log, id: nat, t: int) {
    forall x :: x in log && x.1.id == id ==> x.0 == t
  }

  lemma ElapseOn(s: Cyc, cb: Callbacks, id: nat, k: Rule)
    requires CycOk(s, id) && s.on && Regular(k) && CanTick(s, cb, id, k)
    ensures var r := Ticked(s, cb, id, k);
            CycOk(r.0, id) && OnBeat(s, r.0, r.1, id, k.tim) && FiredAt(r.1, id, s.mark)
  {
    var now, e := s.now + 1, Entry(id, s.mark);
    var calls := Calls(s, cb, id, k);
    SparesStill(s, cb, id, k);
    assert e.due > s.now;
    FireDone(s.ag, now, calls, now);
    if s.mark > now {
      LateStays(s.ag, now, calls, e);
    } else {
      assert k.rearm(now, now) == now + k.tim;
      FireCyclic(s.ag, now, calls, id, k.tim);
      StampedHas(now, Fire(s.ag, now, calls).1, e);
    }
    FiredInTime(s, calls, id);
  }

  /** Only the time for which it is queued can see the event `id` fired. */
  lemma FiredInTime(s: Cyc, calls: Callbacks, id: nat)
    requires CycOk(s, id) && Friendly(calls, s.now + 1) && OthersSpare(calls, id)
    requires var ops := Does(calls, id); ops == [] || (|ops| == 1 && ops[0].Arm? && ops[0].id == id)
    ensures forall x :: x in Stamped(s.now + 1, Fire(s.ag, s.now + 1, calls).1) && x.1.id == id ==>
            s.on && x.0 == s.mark
  {
    var now := s.now + 1;
    var fired := Fire(s.ag, now, calls).1;
    FireDone(s.ag, now, calls, now);
    forall x | x in Stamped(now, fired) && x.1.id == id ensures s.on && x.0 == s.mark {
      StampedHas(now, fired, x.1);
      assert x.0 == now && x.1 in fired;
      FireOnly(s.ag, now, calls, x.1);
      if s.on && x.1 != Entry(id, s.mark) { SameEvent(s.ag, x.1, Entry(id, s.mark)); }
    }
  }

  lemma SameEvent(ag: Agenda, e: Entry, f: Entry)
    requires Sorted(ag) && e in ag && f in ag && e.id == f.id
    ensures e == f
  {
    var i :| 0 <= i < |ag| && ag[i] == e;
    var j :| 0 <= j < |ag| && ag[j] == f;
    assert i < j ==> Before(ag, i, j);
    assert j < i ==> Before(ag, j, i);
  }

  lemma SparesStill(s: Cyc, cb: Callbacks, id: nat, k: Rule)
    requires OthersSpare(cb, id)
    ensures OthersSpare(Calls(s, cb, id, k), id)
    ensures var ops := Does(Calls(s, cb, id, k), id);
            ops == if s.on && s.mark <= s.now + 1 then [Arm(id, k.rearm(s.mark, s.now + 1))] else []
  {
    forall x | x != id ensures Spared(Does(Calls(s, cb, id, k), x), id) {
      assert Does(Calls(s, cb, id, k), x) == Does(cb, x);
    }
  }

  lemma ElapseOff(s: Cyc, cb: Callbacks, id: nat, k: Rule)
    requires CycOk(s, id) && !s.on && CanTick(s, cb, id, k)
    ensures var r := Ticked(s, cb, id, k);
            CycOk(r.0, id) && r.0.mark == s.mark && !r.0.on && FiredAt(r.1, id, s.mark)
  {
    var now := s.now + 1;
    var calls := Calls(s, cb, id, k);
    SparesStill(s, cb, id, k);
    FireDone(s.ag, now, calls, now);
    forall e | e in Fire(s.ag, now, calls).0 ensures e.id != id {
      if e.id == id { StaysAway(s.ag, now, calls, e); }
    }
    FiredInTime(s, calls, id);
  }

  /** An event that is not queued and that no callback touches is not queued after a tick. */
  lemma StaysAway(ag: Agenda, now: int, cb: Callbacks, e: Entry)
    requires Sorted(ag) && Visible(ag, now) && Friendly(cb, now) && OthersSpare(cb, e.id)
             && Does(cb, e.id) == []
    requires e in Fire(ag, now, cb).0
    ensures e in ag
  {
    forall x ensures Spared(Does(cb, x), e.id) { }
    FireOne(ag, now, cb, e);
  }

  lemma SetKeeps(s: Cyc, id: nat, due: int)
    requires CycOk(s, id) && s.now < due <= s.now + HALF
    ensures CycOk(Set(s, id, due), id)
  {
    DoKeeps(s.ag, Arm(id, due), s.now + 1, s.now + HALF);
    DropSorted(s.ag, id);
    InsertSorted(Drop(s.ag, id), Entry(id, due));
  }

  lemma StopKeeps(s: Cyc, id: nat, k: Rule)
    requires CycOk(s, id)
    ensures CycOk(Called(s, Stop, id, k), id)
  {
    DropSorted(s.ag, id);
  }

  lemma OtherKeeps(s: Cyc, op: Op, id: nat, k: Rule)
    requires CycOk(s, id) && CanCall(s, Other(op), id)
    ensures CycOk(Called(s, Other(op), id, k), id)
  {
    DoKeeps(s.ag, op, s.now + 1, s.now + HALF);
  }

  lemma ContinueKeeps(s: Cyc, id: nat, k: Rule)
    requires CycOk(s, id) && Regular(k)
    ensures CycOk(Called(s, Continue, id, k), id)
  {
    SetKeeps(s, id, k.resume(s.mark, s.now));
  }

  lemma RestartKeeps(s: Cyc, id: nat, k: Rule)
    requires CycOk(s, id) && Regular(k)
    ensures CycOk(Called(s, Restart, id, k), id)
  {
    var due := FirstTime(s.now, k.tim);
    SetKeeps(s, id, due);
    assert Called(s, Restart, id, k) == Set(s, id, due);
  }

  lemma CallKeeps(s: Cyc, a: Act, id: nat, k: Rule)
    requires CycOk(s, id) && Regular(k) && CanCall(s, a, id)
    ensures CycOk(Called(s, a, id, k), id)
  {
    match a {
      case Other(op) => OtherKeeps(s, op, id, k);
      case Stop => StopKeeps(s, id, k);
      case Continue => ContinueKeeps(s, id, k);
      case Restart => RestartKeeps(s, id, k);
    }
  }

  lemma ActKeeps(s: Cyc, a: Act, id: nat, k: Rule, s': Cyc, log: Log)
    requires CycOk(s, id) && Regular(k) && Steps(s, a, id, k, s', log)
    ensures CycOk(s', id) && FiredAt(log, id, s.mark)
  {
    if !a.Elapse? {
      CallKeeps(s, a, id, k);
    } else if s.on {
      ElapseOn(s, a.cb, id, k);
    } else {
      ElapseOff(s, a.cb, id, k);
    }
  }

  // --------------------------------------------------------------------- every run

  /** States, steps and what the steps fire. */
  ghost predicate IsTrace(ss: seq<Cyc>, run: seq<Act>, logs: seq<Log>, id: nat, k: Rule) {
    && |ss| == |run| + 1 && |logs| == |run|
    && forall i {:trigger run[i]} :: 0 <= i < |run| ==> Steps(ss[i], run[i], id, k, ss[i + 1], logs[i])
  }

  lemma {:induction false} TraceOk(ss: seq<Cyc>, run: seq<Act>, logs: seq<Log>, id: nat, k: Rule, n: nat)
    requires Regular(k) && IsTrace(ss, run, logs, id, k) && CycOk(ss[0], id) && n < |ss|
    ensures CycOk(ss[n], id)
  {
    if n > 0 {
      TraceOk(ss, run, logs, id, k, n - 1);
      ActKeeps(ss[n - 1], run[n - 1], id, k, ss[n], logs[n - 1]);
    }
  }

  /** A started handler is fired at the time for which it is queued, and at no other. */
  lemma TraceFires(ss: seq<Cyc>, run: seq<Act>, logs: seq<Log>, id: nat, k: Rule, n: nat)
    requires Regular(k) && IsTrace(ss, run, logs, id, k) && CycOk(ss[0], id) && n < |run|
    ensures FiredAt(logs[n], id, ss[n].mark)
  {
    TraceOk(ss, run, logs, id, k, n);
    ActKeeps(ss[n], run[n], id, k, ss[n + 1], logs[n]);
  }

  /** One step keeps the phase exactly if it is no continuation that loses it. */
  lemma StepPhase(s: Cyc, a: Act, id: nat, k: Rule, s': Cyc, log: Log)
    requires CycOk(s, id) && Regular(k) && Steps(s, a, id, k, s', log) && a != Restart
    ensures SamePhase(s.mark, s'.mark, k.tim) <==>
            (a == Continue && !s.on ==> SamePhase(s.mark, k.resume(s.mark, s.now), k.tim))
  {
    if a.Elapse? {
      if s.on {
        ElapseOn(s, a.cb, id, k);
        ModShift(0, 1, k.tim);
      } else {
        ElapseOff(s, a.cb, id, k);
      }
    }
  }

  /** Step `i` keeps the phase of the activation time. */
  predicate StepInPhase(ss: seq<Cyc>, i: int, tim: int)
    requires 0 < tim && 0 <= i < |ss| - 1
  {
    SamePhase(ss[i].mark, ss[i + 1].mark, tim)
  }

  /** A stopped handler that is continued has been misread by whole periods only. */
  predicate InTime(s: Cyc, a: Act, tim: int)
    requires 0 < tim
  {
    a == Continue && !s.on ==> ((s.now - s.mark + HALF) / WORD * WORD) % tim == 0
  }

  lemma InTimeIs(s: Cyc, a: Act, id: nat, tim: int, s': Cyc, log: Log)
    requires CycOk(s, id) && 0 < tim < HALF && Steps(s, a, id, Code(tim), s', log) && a != Restart
    ensures SamePhase(s.mark, s'.mark, tim) <==> InTime(s, a, tim)
  {
    CodeRegular(tim);
    StepPhase(s, a, id, Code(tim), s', log);
    PhaseKeptIff(s.mark, tim, s.now);
    assert Code(tim).resume(s.mark, s.now) == Continued(s.mark, tim, s.now);
  }

  /** Over every run of ticks, other calls, stops and continuations: the phase is kept at
      every step exactly if no continuation comes too late... */
  lemma PhaseKeptExactly(ss: seq<Cyc>, run: seq<Act>, logs: seq<Log>, id: nat, tim: int)
    requires 0 < tim < HALF && IsTrace(ss, run, logs, id, Code(tim)) && CycOk(ss[0], id)
    requires forall i :: 0 <= i < |run| ==> run[i] != Restart
    ensures (forall i :: 0 <= i < |run| ==> StepInPhase(ss, i, tim))
            <==> (forall i :: 0 <= i < |run| ==> InTime(ss[i], run[i], tim))
  {
    forall i | 0 <= i < |run| ensures StepInPhase(ss, i, tim) <==> InTime(ss[i], run[i], tim) {
      CodeRegular(tim);
      TraceOk(ss, run, logs, id, Code(tim), i);
      InTimeIs(ss[i], run[i], id, tim, ss[i + 1], logs[i]);
    }
  }

  /** ...and then the handler is fired only at times in phase with the first. */
  lemma FiredInPhase(ss: seq<Cyc>, run: seq<Act>, logs: seq<Log>, id: nat, tim: int, n: nat)
    requires 0 < tim < HALF && IsTrace(ss, run, logs, id, Code(tim)) && CycOk(ss[0], id) && n < |run|
    requires forall i :: 0 <= i < |run| ==> run[i] != Restart && InTime(ss[i], run[i], tim)
    ensures FiredAt(logs[n], id, ss[n].mark) && SamePhase(ss[0].mark, ss[n].mark, tim)
  {
    CodeRegular(tim);
    TraceFires(ss, run, logs, id, Code(tim), n);
    TracePhase(ss, run, logs, id, tim, n);
  }

  lemma TracePhase(ss: seq<Cyc>, run: seq<Act>, logs: seq<Log>, id: nat, tim: int, n: nat)
    requires 0 < tim < HALF && IsTrace(ss, run, logs, id, Code(tim)) && CycOk(ss[0], id) && n < |run|
    requires forall i :: 0 <= i < |run| ==> run[i] != Restart && InTime(ss[i], run[i], tim)
    ensures SamePhase(ss[0].mark, ss[n].mark, tim)
  {
    PhaseKeptExactly(ss, run, logs, id, tim);
    MarksInPhase(ss, run, tim, n);
  }

  lemma {:induction false} MarksInPhase(ss: seq<Cyc>, run: seq<Act>, tim: int, n: nat)
    requires 0 < tim && |ss| == |run| + 1 && n < |ss|
    requires forall i :: 0 <= i < |run| ==> StepInPhase(ss, i, tim)
    ensures SamePhase(ss[0].mark, ss[n].mark, tim)
  {
    if n > 0 {
      MarksInPhase(ss, run, tim, n - 1);
      assert StepInPhase(ss, n - 1, tim);
      PhaseChain(ss[0].mark, ss[n - 1].mark, ss[n].mark, tim);
    }
  }

  lemma PhaseChain(a: int, b: int, c: int, tim: int)
    requires 0 < tim && SamePhase(a, b, tim) && SamePhase(b, c, tim)
    ensures SamePhase(a, c, tim)
  {
    var k := (c - b) / tim;
    assert c - b == k * tim + (c - b) % tim;
    ModShift(b - a, k, tim);
  }

  // ----------------------------------------------------------- while it is started

  /** Every step of the trace is on the beat. */
  ghost predicate Beats(ss: seq<Cyc>, logs: seq<Log>, id: nat, tim: int) {
    |ss| == |logs| + 1 && ss[0].mark > ss[0].now
    && forall i {:trigger logs[i]} :: 0 <= i < |logs| ==> OnBeat(ss[i], ss[i + 1], logs[i], id, tim)
  }

  lemma TraceBeats(ss: seq<Cyc>, run: seq<Act>, logs: seq<Log>, id: nat, k: Rule)
    requires Regular(k) && IsTrace(ss, run, logs, id, k) && CycOk(ss[0], id) && ss[0].on
    requires forall i :: 0 <= i < |run| ==> run[i].Other? || run[i].Elapse?
    ensures Beats(ss, logs, id, k.tim)
  {
    OnThroughout(ss, run, logs, id, k, 0);
    assert Entry(id, ss[0].mark).due > ss[0].now;
    forall i | 0 <= i < |logs| ensures OnBeat(ss[i], ss[i + 1], logs[i], id, k.tim) {
      OnThroughout(ss, run, logs, id, k, i);
      OnThroughout(ss, run, logs, id, k, i + 1);
      assert Entry(id, ss[i].mark).due > ss[i].now && Entry(id, ss[i + 1].mark).due > ss[i + 1].now;
      if run[i].Elapse? { ElapseOn(ss[i], run[i].cb, id, k); }
    }
  }

  lemma {:induction false} OnThroughout(ss: seq<Cyc>, run: seq<Act>, logs: seq<Log>, id: nat, k: Rule, n: nat)
    requires Regular(k) && IsTrace(ss, run, logs, id, k) && CycOk(ss[0], id) && ss[0].on && n < |ss|
    requires forall i :: 0 <= i < |run| ==> run[i].Other? || run[i].Elapse?
    ensures CycOk(ss[n], id) && ss[n].on
  {
    if n > 0 {
      OnThroughout(ss, run, logs, id, k, n - 1);
      ActKeeps(ss[n - 1], run[n - 1], id, k, ss[n], logs[n - 1]);
    }
  }

  /** The activation after `due` at or before `now` is the first beyond `now`. */
  function Coming(due: int, tim: int, now: int): int
    requires 0 < tim
  {
    if due > now then due else due + ((now - due) / tim + 1) * tim
  }

  lemma ComingOn(due: int, tim: int, now: int)
    requires 0 < tim && due <= now
    ensures Coming(due + tim, tim, now) == Coming(due, tim, now)
  {
    var d := now - due;
    Division(d, tim);
    if due + tim > now {
      DivUnique(d, tim, 0, d);
    } else {
      OneLess(d, tim);
      var q := d / tim;
      assert (q + 1) * tim == tim + q * tim;
    }
  }

  lemma OneLess(d: int, tim: int)
    requires 0 < tim <= d
    ensures (d - tim) / tim == d / tim - 1
  {
    var q, r := d / tim, d % tim;
    assert d - tim == (q - 1) * tim + r;
    DivUnique(d - tim, tim, q - 1, r);
  }

  /** A started handler stays due at the first of `mark`, `mark + tim`, `mark + 2 * tim` and
      so on that is still to come. */
  lemma {:induction false} KeepsPhase(ss: seq<Cyc>, logs: seq<Log>, id: nat, tim: int)
    requires Beats(ss, logs, id, tim) && 0 < tim
    ensures ss[|logs|].now >= ss[0].now && ss[|logs|].mark == Coming(ss[0].mark, tim, ss[|logs|].now)
    decreases |logs|
  {
    if logs != [] {
      assert OnBeat(ss[0], ss[1], logs[0], id, tim);
      BeatsRest(ss, logs, id, tim);
      KeepsPhase(ss[1..], logs[1..], id, tim);
      if ss[1].now >= ss[0].mark { ComingOn(ss[0].mark, tim, ss[|logs|].now); }
    }
  }

  lemma BeatsRest(ss: seq<Cyc>, logs: seq<Log>, id: nat, tim: int)
    requires Beats(ss, logs, id, tim) && logs != []
    ensures Beats(ss[1..], logs[1..], id, tim)
  {
    assert OnBeat(ss[0], ss[1], logs[0], id, tim);
    forall i | 0 <= i < |logs[1..]| ensures OnBeat(ss[1..][i], ss[1..][i + 1], logs[1..][i], id, tim) {
      assert OnBeat(ss[i + 1], ss[i + 2], logs[i + 1], id, tim);
    }
  }

  /** The n-th activation after the one at `due`. */
  function Nth(due: int, tim: int, n: nat): (t: int)
    requires 0 < tim
    ensures due <= t
    decreases n
  {
    if n == 0 then due else Nth(due + tim, tim, n - 1)
  }

  lemma {:induction false} NthTime(due: int, tim: int, n: nat)
    requires 0 < tim
    ensures Nth(due, tim, n) == due + n * tim
    decreases n
  {
    if n > 0 {
      NthTime(due + tim, tim, n - 1);
      assert due + n * tim == due + tim + (n - 1) * tim;
    }
  }

  /** The n-th activation, at `t`, is fired at its time once that has come. */
  lemma {:induction false} FiresForever(ss: seq<Cyc>, logs: seq<Log>, id: nat, tim: int, n: nat, t: int)
    requires Beats(ss, logs, id, tim) && 0 < tim && t == Nth(ss[0].mark, tim, n) && t <= ss[|logs|].now
    ensures exists i :: 0 <= i < |logs| && (t, Entry(id, t)) in logs[i]
    decreases |logs|
  {
    assert OnBeat(ss[0], ss[1], logs[0], id, tim);
    BeatsRest(ss, logs, id, tim);
    if ss[1].now >= ss[0].mark && n == 0 {
      assert (t, Entry(id, t)) in logs[0];
    } else {
      FiresForever(ss[1..], logs[1..], id, tim, if ss[1].now >= ss[0].mark then n - 1 else n, t);
      var i :| 0 <= i < |logs[1..]| && (t, Entry(id, t)) in logs[1..][i];
      assert logs[1..][i] == logs[i + 1];
    }
  }

  /** A handler that stays started fires at all times `mark + n * tim` that have come, and
      is queued for the next of them, by what knl_cyc_next_time computes in words. */
  lemma CyclicHandler(ss: seq<Cyc>, run: seq<Act>, logs: seq<Log>, id: nat, tim: int, n: nat)
    requires 0 < tim < HALF && IsTrace(ss, run, logs, id, Code(tim)) && CycOk(ss[0], id) && ss[0].on
    requires forall i :: 0 <= i < |run| ==> run[i].Other? || run[i].Elapse?
    ensures Entry(id, Coming(ss[0].mark, tim, ss[|run|].now)) in ss[|run|].ag
    ensures var t := ss[0].mark + n * tim;
            t <= ss[|run|].now ==> exists i :: 0 <= i < |run| && (t, Entry(id, t)) in logs[i]
  {
    CodeRegular(tim);
    TraceBeats(ss, run, logs, id, Code(tim));
    KeepsPhase(ss, logs, id, tim);
    OnThroughout(ss, run, logs, id, Code(tim), |run|);
    NthTime(ss[0].mark, tim, n);
    var t := Nth(ss[0].mark, tim, n);
    if t <= ss[|run|].now { FiresForever(ss, logs, id, tim, n, t); }
  }

  // ------------------------------------------------------------- stop and restart

  /** The event is not in the log. */
  ghost predicate Silent(log: Log, id: nat) {
    forall x :: x in log ==> x.1.id != id
  }

  lemma SilentTick(s: Cyc, cb: Callbacks, id: nat, k: Rule)
    requires CycOk(s, id) && !s.on && CanTick(s, cb, id, k)
    ensures Silent(Ticked(s, cb, id, k).1, id)
  {
    var now, calls := s.now + 1, Calls(s, cb, id, k);
    SparesStill(s, cb, id, k);
    var es := Fire(s.ag, now, calls).1;
    forall e | e in es ensures e.id != id {
      if e.id == id {
        forall x ensures Spared(Does(calls, x), id) { }
        FireOne(s.ag, now, calls, e);
      }
    }
    forall x | x in Stamped(now, es) ensures x.1.id != id {
      var i :| 0 <= i < |es| && Stamped(now, es)[i] == x;
      assert es[i] in es;
    }
  }

  /** A handler that was stopped is not fired again until it is started again, and keeps the
      time at which it was due. */
  lemma {:induction false} StoppedIsSilent(ss: seq<Cyc>, run: seq<Act>, logs: seq<Log>, id: nat, k: Rule, n: nat)
    requires Regular(k) && IsTrace(ss, run, logs, id, k) && CycOk(ss[0], id) && n < |run| && run[0] == Stop
    requires forall i :: 0 <= i < |run| ==> run[i] != Continue && run[i] != Restart
    ensures CycOk(ss[n + 1], id) && !ss[n + 1].on && ss[n + 1].mark == ss[0].mark && Silent(logs[n], id)
  {
    ActKeeps(ss[0], run[0], id, k, ss[1], logs[0]);
    if n > 0 {
      StoppedIsSilent(ss, run, logs, id, k, n - 1);
      ActKeeps(ss[n], run[n], id, k, ss[n + 1], logs[n]);
      if run[n].Elapse? {
        SilentTick(ss[n], run[n].cb, id, k);
        ElapseOff(ss[n], run[n].cb, id, k);
      }
    }
  }

  /** A handler started without TA_PHS, running before or not, fires one period and a tick
      later and every period after that. */
  lemma RestartedFires(ss: seq<Cyc>, run: seq<Act>, logs: seq<Log>, id: nat, tim: int, n: nat)
    requires 0 < tim < HALF && IsTrace(ss, run, logs, id, Code(tim)) && CycOk(ss[0], id)
    requires run != [] && run[0] == Restart
    requires forall i :: 1 <= i < |run| ==> run[i].Other? || run[i].Elapse?
    ensures var t := ss[0].now + 1 + tim + n * tim;
            t <= ss[|run|].now ==> exists i :: 0 <= i < |run| && (t, Entry(id, t)) in logs[i]
  {
    CodeRegular(tim);
    JustStarted(ss[0], ss[1], logs[0], id, tim);
    TraceRest(ss, run, logs, id, Code(tim));
    CyclicHandler(ss[1..], run[1..], logs[1..], id, tim, n);
    var t := ss[1].mark + n * tim;
    if t <= ss[|run|].now {
      var i :| 0 <= i < |run[1..]| && (t, Entry(id, t)) in logs[1..][i];
      assert logs[1..][i] == logs[i + 1];
    }
  }

  /** A stopped handler started again with TA_PHS fires at the time at which it goes on and every
      period after that. */
  lemma ContinuedFires(ss: seq<Cyc>, run: seq<Act>, logs: seq<Log>, id: nat, tim: int, n: nat)
    requires 0 < tim < HALF && IsTrace(ss, run, logs, id, Code(tim)) && CycOk(ss[0], id) && !ss[0].on
    requires run != [] && run[0] == Continue
    requires forall i :: 1 <= i < |run| ==> run[i].Other? || run[i].Elapse?
    ensures var t := Continued(ss[0].mark, tim, ss[0].now) + n * tim;
            t <= ss[|run|].now ==> exists i :: 0 <= i < |run| && (t, Entry(id, t)) in logs[i]
  {
    CodeRegular(tim);
    JustContinued(ss[0], ss[1], logs[0], id, tim);
    TraceRest(ss, run, logs, id, Code(tim));
    CyclicHandler(ss[1..], run[1..], logs[1..], id, tim, n);
    var t := ss[1].mark + n * tim;
    if t <= ss[|run|].now {
      var i :| 0 <= i < |run[1..]| && (t, Entry(id, t)) in logs[1..][i];
      assert logs[1..][i] == logs[i + 1];
    }
  }

  lemma JustContinued(s: Cyc, s': Cyc, log: Log, id: nat, tim: int)
    requires 0 < tim < HALF && CycOk(s, id) && !s.on && Steps(s, Continue, id, Code(tim), s', log)
    ensures CycOk(s', id) && s'.on && s'.mark == Continued(s.mark, tim, s.now)
  {
    CodeRegular(tim);
    ActKeeps(s, Continue, id, Code(tim), s', log);
  }

  lemma JustStarted(s: Cyc, s': Cyc, log: Log, id: nat, tim: int)
    requires 0 < tim < HALF && CycOk(s, id) && Steps(s, Restart, id, Code(tim), s', log)
    ensures CycOk(s', id) && s'.on && s'.mark == s.now + 1 + tim
  {
    CodeRegular(tim);
    ActKeeps(s, Restart, id, Code(tim), s', log);
  }

  lemma TraceRest(ss: seq<Cyc>, run: seq<Act>, logs: seq<Log>, id: nat, k: Rule)
    requires IsTrace(ss, run, logs, id, k) && run != []
    ensures IsTrace(ss[1..], run[1..], logs[1..], id, k)
  {
    forall i | 0 <= i < |run[1..]| ensures Steps(ss[1..][i], run[1..][i], id, k, ss[1..][i + 1], logs[1..][i]) {
      assert run[1..][i] == run[i + 1];
    }
  }
}
