/**
 The timer event queue (timer.c, timer.h).  Event times are 32-bit words compared
 relative to the current time; the model relates them to unwrapped times, for any
 number of wraps of the clock.  The period of the timer is 1.
 */
module Timer {
  import opened Common

  const HALF := 0x8000_0000

  /** ABSTIM_DIFF_MIN. */
  const DIFF_MIN := 0x7FFF_FFFF

  /** Truncation to ABSTIM. */
  function Word(x: int): int { x % WORD }

  /** knl_abstim_reached. */
  predicate AbstimReached(cur: int, evt: int) {
    Word(cur - evt) <= DIFF_MIN
  }

  /** The value by which knl_enqueue_tmeb orders an event time. */
  function Key(cur: int, time: int): int {
    Word(time - Word(cur - DIFF_MIN))
  }

  /** The times that 32 bits tell apart at time `now`. */
  predicate InSight(now: int, due: int) {
    now - DIFF_MIN <= due <= now + HALF
  }

  lemma WordDiff(a: int, b: int)
    ensures Word(Word(a) - Word(b)) == Word(a - b) && Word(a - Word(b)) == Word(a - b)
            && Word(Word(a) - b) == Word(a - b)
  {
    var p, q := a / WORD, b / WORD;
    assert a == p * WORD + Word(a) && b == q * WORD + Word(b);
    WordShift(Word(a) - Word(b), p - q);
    WordShift(a - Word(b), -q);
    WordShift(Word(a) - b, p);
  }

  lemma WordSum(a: int, b: int)
    ensures Word(Word(a) + b) == Word(a + b)
  {
    WordDiff(a, -b);
  }

  lemma WordShift(x: int, k: int)
    ensures Word(x + k * WORD) == Word(x)
  {
    var q := x / WORD;
    assert x + k * WORD == (q + k) * WORD + Word(x);
  }

  lemma WordSmall(x: int)
    ensures 0 <= x < WORD ==> Word(x) == x
    ensures -WORD <= x < 0 ==> Word(x) == x + WORD
  {
    WordShift(x, 1);
  }

  /** Within sight, the word comparison is the comparison of unwrapped times. */
  lemma KeyIsDistance(now: int, due: int)
    requires InSight(now, due)
    ensures Key(Word(now), Word(due)) == due - now + DIFF_MIN
  {
    WordDiff(due, Word(now) - DIFF_MIN);
    WordDiff(now, DIFF_MIN);
    WordSmall(DIFF_MIN);
    WordDiff(due, now - DIFF_MIN);
    WordSmall(due - now + DIFF_MIN);
  }

  lemma ReachedIsPast(now: int, due: int)
    requires InSight(now, due)
    ensures AbstimReached(Word(now), Word(due)) <==> due <= now
  {
    WordDiff(now, due);
    WordSmall(now - due);
  }

  /** Beyond sight the test is wrong: what is more than 2^31 ahead counts as reached. */
  lemma ReachedExactly(now: int, due: int)
    requires now - DIFF_MIN <= due < now + WORD
    ensures AbstimReached(Word(now), Word(due)) <==> due <= now || due > now + HALF
  {
    WordDiff(now, due);
    WordSmall(now - due);
  }

  /** The time within sight that a word means. */
  function Meant(now: int, time: int): int {
    now - DIFF_MIN + Key(Word(now), time)
  }

  lemma MeantIs(now: int, time: int)
    requires 0 <= time < WORD
    ensures InSight(now, Meant(now, time)) && Word(Meant(now, time)) == time
  {
    var k := Word(now) - DIFF_MIN;
    WordDiff(time, k);
    WordDiff(now, DIFF_MIN);
    WordSmall(DIFF_MIN);
    WordDiff(now - DIFF_MIN, time);
    WordSum(time - (now - DIFF_MIN), now - DIFF_MIN);
    WordDiff(time, now - DIFF_MIN);
    WordSmall(time);
  }

  /** A time up to 2^32 ahead is meant exactly if it is at most 2^31 ahead; beyond, its word
      means a time in the past. */
  lemma MeantExactly(now: int, d: int)
    requires 0 < d <= WORD
    ensures Meant(now, Word(now + d)) == if d <= HALF then now + d else now + d - WORD
  {
    if d <= HALF {
      KeyIsDistance(now, now + d);
    } else {
      KeyIsDistance(now, now + d - WORD);
      WordShift(now + d, -1);
    }
  }

  lemma MeantFuture(now: int, due: int)
    requires now < due <= now + HALF
    ensures 0 <= Word(due) < WORD && Meant(now, Word(due)) == due
  {
    MeantExactly(now, due - now);
  }

  // ----------------------------------------------------------------- the agenda

  /** A queued event and its unwrapped time. */
  datatype Entry = Entry(id: nat, due: int)

  type Agenda = seq<Entry>

  /** In order of time, and an event is queued once at most. */
  ghost predicate Sorted(ag: Agenda) {
    forall i, j {:trigger Before(ag, i, j)} :: Before(ag, i, j) ==> ag[i].due <= ag[j].due && ag[i].id != ag[j].id
  }

  ghost predicate Once(ag: Agenda) {
    forall i, j {:trigger Before(ag, i, j)} :: Before(ag, i, j) ==> ag[i].id != ag[j].id
  }

  ghost predicate Within(ag: Agenda, lo: int, hi: int) {
    forall e :: e in ag ==> lo <= e.due <= hi
  }

  /** All events are within sight; some may be overdue. */
  ghost predicate Visible(ag: Agenda, now: int) {
    Within(ag, now - DIFF_MIN, now + HALF)
  }

  /** What holds between two calls, and between the steps of a tick. */
  ghost predicate AgendaOk(ag: Agenda, now: int) {
    Sorted(ag) && Within(ag, now + 1, now + HALF)
  }

  ghost predicate Queued(ag: Agenda, id: nat) {
    exists e :: e in ag && e.id == id
  }

  /** Where an event due at `due` goes: behind all that are due then or before. */
  function Place(ag: Agenda, due: int): (k: nat)
    ensures k <= |ag| && (forall i :: 0 <= i < k ==> ag[i].due <= due) && (k < |ag| ==> ag[k].due > due)
  {
    var keys := seq(|ag|, i requires 0 <= i < |ag| => ag[i].due);
    assert forall i :: 0 <= i < |ag| ==> keys[i] == ag[i].due;
    FirstAbove(keys, due)
  }

  lemma PlaceStep(ag: Agenda, due: int)
    ensures Place(ag, due) == if ag == [] || ag[0].due > due then 0 else 1 + Place(ag[1..], due)
  {
    if ag != [] && ag[0].due <= due {
      var k := Place(ag[1..], due);
      assert forall i :: 0 <= i < k ==> ag[i + 1] == ag[1..][i];
      PlaceUnique(ag, due, k + 1);
    }
  }

  lemma PlaceUnique(ag: Agenda, due: int, k: int)
    requires 0 <= k <= |ag| && (forall i :: 0 <= i < k ==> ag[i].due <= due) && (k < |ag| ==> ag[k].due > due)
    ensures Place(ag, due) == k
  {
  }

  function Insert(ag: Agenda, e: Entry): Agenda {
    ag[..Place(ag, e.due)] + [e] + ag[Place(ag, e.due)..]
  }

  function Drop(ag: Agenda, id: nat): (r: Agenda)
    ensures forall e :: e in r ==> e in ag
    ensures forall e :: e in ag && e.id != id ==> e in r
  {
    if ag == [] then [] else if ag[0].id == id then ag[1..] else [ag[0]] + Drop(ag[1..], id)
  }

  lemma InsertSorted(ag: Agenda, e: Entry)
    requires Sorted(ag) && !Queued(ag, e.id)
    ensures Sorted(Insert(ag, e)) && forall x :: x in Insert(ag, e) <==> x == e || x in ag
  {
    InsertMembers(ag, e);
    InsertOrder(ag, e, Place(ag, e.due));
  }

  lemma InsertMembers(ag: Agenda, e: Entry)
    ensures forall x :: x in Insert(ag, e) <==> x == e || x in ag
  {
    var k, r := Place(ag, e.due), Insert(ag, e);
    forall x | x in ag ensures x in r {
      var i :| 0 <= i < |ag| && ag[i] == x;
      assert r[if i < k then i else i + 1] == x;
    }
    assert r[k] == e;
  }

  lemma InsertOrder(ag: Agenda, e: Entry, k: nat)
    requires Sorted(ag) && !Queued(ag, e.id) && k <= |ag|
    requires (forall i :: 0 <= i < k ==> ag[i].due <= e.due) && (k < |ag| ==> ag[k].due > e.due)
    ensures Sorted(ag[..k] + [e] + ag[k..])
  {
    var r := ag[..k] + [e] + ag[k..];
    forall i, j | Before(r, i, j) ensures r[i].due <= r[j].due && r[i].id != r[j].id {
      var i', j' := if i < k then i else i - 1, if j < k then j else j - 1;
      if i == k {
        assert ag[j'] in ag && (k < j' ==> Before(ag, k, j'));
      } else if j == k {
        assert ag[i'] in ag;
      } else {
        assert Before(ag, i', j');
      }
    }
  }

  lemma TailSorted(ag: Agenda)
    requires Sorted(ag) && ag != []
    ensures Sorted(ag[1..]) && !Queued(ag[1..], ag[0].id) && forall e :: e in ag ==> ag[0].due <= e.due
  {
    forall i, j | Before(ag[1..], i, j) ensures ag[1..][i].due <= ag[1..][j].due && ag[1..][i].id != ag[1..][j].id {
      assert Before(ag, i + 1, j + 1);
    }
    forall e | e in ag ensures ag[0].due <= e.due && (e in ag[1..] ==> e.id != ag[0].id) {
      var i :| 0 <= i < |ag| && ag[i] == e;
      assert i > 0 ==> Before(ag, 0, i);
      if e in ag[1..] {
        var j :| 0 <= j < |ag[1..]| && ag[1..][j] == e;
        assert Before(ag, 0, j + 1);
      }
    }
  }

  lemma ConsSorted(e: Entry, ag: Agenda)
    requires Sorted(ag) && !Queued(ag, e.id) && forall x :: x in ag ==> e.due <= x.due
    ensures Sorted([e] + ag)
  {
    var r := [e] + ag;
    forall i, j | Before(r, i, j) ensures r[i].due <= r[j].due && r[i].id != r[j].id {
      if i > 0 { assert Before(ag, i - 1, j - 1); } else { assert r[j] in ag; }
    }
  }

  lemma {:induction false} DropSorted(ag: Agenda, id: nat)
    requires Sorted(ag)
    ensures Sorted(Drop(ag, id)) && !Queued(Drop(ag, id), id)
  {
    if ag != [] {
      TailSorted(ag);
      if ag[0].id != id {
        DropSorted(ag[1..], id);
        ConsSorted(ag[0], Drop(ag[1..], id));
      }
    }
  }

  // ------------------------------------------------- queues that are not in order

  lemma InsertOnce(ag: Agenda, e: Entry)
    requires Once(ag) && !Queued(ag, e.id)
    ensures Once(Insert(ag, e))
  {
    var k, r := Place(ag, e.due), Insert(ag, e);
    forall i, j | Before(r, i, j) ensures r[i].id != r[j].id {
      var i', j' := if i < k then i else i - 1, if j < k then j else j - 1;
      if i == k {
        assert ag[j'] in ag;
      } else if j == k {
        assert ag[i'] in ag;
      } else {
        assert Before(ag, i', j');
      }
    }
  }

  lemma TailOnce(ag: Agenda)
    requires Once(ag) && ag != []
    ensures Once(ag[1..]) && !Queued(ag[1..], ag[0].id)
  {
    forall i, j | Before(ag[1..], i, j) ensures ag[1..][i].id != ag[1..][j].id { assert Before(ag, i + 1, j + 1); }
    forall e | e in ag[1..] ensures e.id != ag[0].id {
      var j :| 0 <= j < |ag[1..]| && ag[1..][j] == e;
      assert Before(ag, 0, j + 1);
    }
  }

  lemma {:induction false} DropOnce(ag: Agenda, id: nat)
    requires Once(ag)
    ensures Once(Drop(ag, id)) && !Queued(Drop(ag, id), id)
  {
    if ag != [] {
      TailOnce(ag);
      if ag[0].id != id {
        DropOnce(ag[1..], id);
        var d := Drop(ag[1..], id);
        var r := [ag[0]] + d;
        forall i, j | Before(r, i, j) ensures r[i].id != r[j].id {
          if i > 0 { assert Before(d, i - 1, j - 1); } else { assert r[j] in d; }
        }
      }
    }
  }

  // ------------------------------------------------------------------ operations

  /** What kernel code does with timer events: set one to a future time, cancelling
      an earlier setting of the same event, or cancel one. */
  datatype Op = Arm(id: nat, due: int) | Cancel(id: nat)

  predicate Future(now: int, op: Op) {
    op.Arm? ==> now < op.due <= now + HALF
  }

  predicate AllFuture(now: int, ops: seq<Op>) {
    forall i :: 0 <= i < |ops| ==> Future(now, ops[i])
  }

  function Do(ag: Agenda, op: Op): Agenda {
    var r := Drop(ag, op.id);
    if op.Arm? then Insert(r, Entry(op.id, op.due)) else r
  }

  function DoAll(ag: Agenda, ops: seq<Op>): Agenda
    decreases |ops|
  {
    if ops == [] then ag else DoAll(Do(ag, ops[0]), ops[1..])
  }

  /** How many events are due. */
  function Dues(ag: Agenda, now: int): nat {
    if ag == [] then 0 else (if ag[0].due <= now then 1 else 0) + Dues(ag[1..], now)
  }

  lemma {:induction false} DropDues(ag: Agenda, id: nat, now: int)
    ensures Dues(Drop(ag, id), now) <= Dues(ag, now)
  {
    if ag != [] && ag[0].id != id {
      DropDues(ag[1..], id, now);
      assert ([ag[0]] + Drop(ag[1..], id))[1..] == Drop(ag[1..], id);
    }
  }

  lemma {:induction false} InsertDues(ag: Agenda, e: Entry, now: int)
    requires e.due > now
    ensures Dues(Insert(ag, e), now) == Dues(ag, now)
  {
    var r := Insert(ag, e);
    PlaceStep(ag, e.due);
    if ag == [] || ag[0].due > e.due {
      assert r == [e] + ag && r[1..] == ag;
    } else {
      InsertDues(ag[1..], e, now);
      assert r == [ag[0]] + Insert(ag[1..], e) && r[1..] == Insert(ag[1..], e);
    }
  }

  lemma {:induction false} DoAllDues(ag: Agenda, ops: seq<Op>, now: int)
    requires AllFuture(now, ops)
    ensures Dues(DoAll(ag, ops), now) <= Dues(ag, now)
    decreases |ops|
  {
    if ops != [] {
      var op := ops[0];
      DropDues(ag, op.id, now);
      assert Future(now, op);
      if op.Arm? { InsertDues(Drop(ag, op.id), Entry(op.id, op.due), now); }
      DoAllDues(Do(ag, op), ops[1..], now);
    }
  }

  lemma DoKeeps(ag: Agenda, op: Op, lo: int, hi: int)
    requires Sorted(ag) && Within(ag, lo, hi) && (op.Arm? ==> lo <= op.due <= hi)
    ensures Sorted(Do(ag, op)) && Within(Do(ag, op), lo, hi)
    ensures forall e: Entry :: e.id != op.id ==> (e in Do(ag, op) <==> e in ag)
  {
    DropSorted(ag, op.id);
    if op.Arm? { InsertSorted(Drop(ag, op.id), Entry(op.id, op.due)); }
  }

  lemma {:induction false} DoAllKeeps(ag: Agenda, ops: seq<Op>, now: int, lo: int)
    requires Sorted(ag) && Within(ag, lo, now + HALF) && AllFuture(now, ops) && lo <= now
    ensures Sorted(DoAll(ag, ops)) && Within(DoAll(ag, ops), lo, now + HALF)
    decreases |ops|
  {
    if ops != [] {
      assert Future(now, ops[0]);
      DoKeeps(ag, ops[0], lo, now + HALF);
      DoAllKeeps(Do(ag, ops[0]), ops[1..], now, lo);
    }
  }

  /** None of the operations is about the event `id`. */
  ghost predicate Spared(ops: seq<Op>, id: nat) {
    forall i :: 0 <= i < |ops| ==> ops[i].id != id
  }

  lemma {:induction false} DoAllSpares(ag: Agenda, ops: seq<Op>, now: int, e: Entry)
    requires Sorted(ag) && Visible(ag, now) && AllFuture(now, ops) && Spared(ops, e.id)
    ensures e in DoAll(ag, ops) <==> e in ag
    decreases |ops|
  {
    if ops != [] {
      assert Future(now, ops[0]);
      DoKeeps(ag, ops[0], now - DIFF_MIN, now + HALF);
      DoAllSpares(Do(ag, ops[0]), ops[1..], now, e);
    }
  }

  // ------------------------------------------------------------------- one tick

  /** What each event's callback does with the timer queue. */
  type Callbacks = map<nat, seq<Op>>

  function Does(cb: Callbacks, id: nat): seq<Op> {
    if id in cb then cb[id] else []
  }

  /** Callbacks set events for the future only. */
  ghost predicate Friendly(cb: Callbacks, now: int) {
    forall id {:trigger Does(cb, id)} :: AllFuture(now, Does(cb, id))
  }

  /** The loop of knl_timer_handler: the agenda left and the events fired. */
  ghost function Fire(ag: Agenda, now: int, cb: Callbacks): (Agenda, seq<Entry>)
    requires Friendly(cb, now)
    decreases Dues(ag, now)
  {
    if ag == [] || ag[0].due > now then (ag, [])
    else
      DoAllDues(ag[1..], Does(cb, ag[0].id), now);
      var r := Fire(DoAll(ag[1..], Does(cb, ag[0].id)), now, cb);
      (r.0, [ag[0]] + r.1)
  }

  /** An event that time has left out of sight behind: its word now means a time ahead. */
  function Renew(e: Entry, now: int): Entry {
    if e.due < now - DIFF_MIN then Entry(e.id, e.due + WORD) else e
  }

  function Renewed(ag: Agenda, now: int): (r: Agenda)
    ensures |r| == |ag| && forall i :: 0 <= i < |ag| ==> r[i] == Renew(ag[i], now)
  {
    seq(|ag|, i requires 0 <= i < |ag| => Renew(ag[i], now))
  }

  lemma RenewedSame(ag: Agenda, now: int)
    requires forall e :: e in ag ==> now - DIFF_MIN <= e.due
    ensures Renewed(ag, now) == ag
  {
    forall i | 0 <= i < |ag| ensures Renewed(ag, now)[i] == ag[i] { assert ag[i] in ag; }
  }

  /** knl_timer_handler: the tick to time `now`. */
  ghost function TickTo(ag: Agenda, now: int, cb: Callbacks): (Agenda, seq<Entry>)
    requires Friendly(cb, now)
  {
    Fire(Renewed(ag, now), now, cb)
  }

  /** The queue after the first event was fired and its callback done. */
  function Rest(ag: Agenda, cb: Callbacks): Agenda
    requires ag != []
  {
    DoAll(ag[1..], Does(cb, ag[0].id))
  }

  /** An event in the queue, other than the first, that this callback does not touch. */
  lemma RestKeeps(ag: Agenda, now: int, cb: Callbacks, e: Entry)
    requires Sorted(ag) && Visible(ag, now) && Friendly(cb, now) && ag != [] && ag[0].due <= now
    ensures Sorted(Rest(ag, cb)) && Visible(Rest(ag, cb), now) && Dues(Rest(ag, cb), now) < Dues(ag, now)
    ensures Spared(Does(cb, ag[0].id), e.id) ==> (e in Rest(ag, cb) <==> e in ag && e.id != ag[0].id)
    ensures e in ag && e.id == ag[0].id ==> e == ag[0]
  {
    var ops := Does(cb, ag[0].id);
    TailSorted(ag);
    assert ag == [ag[0]] + ag[1..];
    DoAllDues(ag[1..], ops, now);
    DoAllKeeps(ag[1..], ops, now, now - DIFF_MIN);
    if Spared(ops, e.id) { DoAllSpares(ag[1..], ops, now, e); }
  }

  /** The first event fired and the rest. */
  lemma FireFirst(ag: Agenda, now: int, cb: Callbacks, e: Entry)
    requires Friendly(cb, now) && ag != [] && ag[0].due <= now
    ensures var r := Fire(Rest(ag, cb), now, cb);
            Fire(ag, now, cb).0 == r.0 && (e in Fire(ag, now, cb).1 <==> e == ag[0] || e in r.1)
  {
    DoAllDues(ag[1..], Does(cb, ag[0].id), now);
  }

  /** After a tick nothing that is due is left, and only due events were fired: those of this
      tick, if none before `lo == now` was queued. */
  lemma {:induction false} FireDone(ag: Agenda, now: int, cb: Callbacks, lo: int)
    requires Sorted(ag) && Within(ag, lo, now + HALF) && Friendly(cb, now) && lo <= now
    ensures AgendaOk(Fire(ag, now, cb).0, now)
    ensures forall e :: e in Fire(ag, now, cb).1 ==> lo <= e.due <= now
    decreases Dues(ag, now)
  {
    if ag != [] {
      TailSorted(ag);
      assert ag[0] in ag;
      if ag[0].due <= now {
        DoAllDues(ag[1..], Does(cb, ag[0].id), now);
        DoAllKeeps(ag[1..], Does(cb, ag[0].id), now, lo);
        FireDone(DoAll(ag[1..], Does(cb, ag[0].id)), now, cb, lo);
      }
    }
  }

  /** No callback sets or cancels the event `id`. */
  ghost predicate Untouched(cb: Callbacks, id: nat) {
    forall x {:trigger Does(cb, x)} :: Spared(Does(cb, x), id)
  }

  /** An event that no callback touches is fired in this tick iff it is due. */
  lemma {:induction false} FireOne(ag: Agenda, now: int, cb: Callbacks, e: Entry)
    requires Sorted(ag) && Visible(ag, now) && Friendly(cb, now) && Untouched(cb, e.id)
    ensures e in Fire(ag, now, cb).1 <==> e in ag && e.due <= now
    ensures e in Fire(ag, now, cb).0 <==> e in ag && e.due > now
    decreases Dues(ag, now)
  {
    if ag != [] {
      TailSorted(ag);
      assert ag == [ag[0]] + ag[1..];
      if ag[0].due <= now {
        var rest := DoAll(ag[1..], Does(cb, ag[0].id));
        DoAllDues(ag[1..], Does(cb, ag[0].id), now);
        DoAllKeeps(ag[1..], Does(cb, ag[0].id), now, now - DIFF_MIN);
        DoAllSpares(ag[1..], Does(cb, ag[0].id), now, e);
        FireOne(rest, now, cb, e);
        assert ag[0] in ag;
        assert e == ag[0] ==> e !in ag[1..];
      }
    }
  }

  /** When no callback touches an event that is due, exactly the due events are fired,
      in the order of the queue. */
  lemma {:induction false} FireInOrder(ag: Agenda, now: int, cb: Callbacks)
    requires Sorted(ag) && Visible(ag, now) && Friendly(cb, now)
    requires forall e :: e in ag && e.due <= now ==> Untouched(cb, e.id)
    ensures Fire(ag, now, cb).1 == Front(ag, now)
    decreases Dues(ag, now)
  {
    if ag != [] && ag[0].due <= now {
      TailSorted(ag);
      var rest := DoAll(ag[1..], Does(cb, ag[0].id));
      DoAllDues(ag[1..], Does(cb, ag[0].id), now);
      DoAllKeeps(ag[1..], Does(cb, ag[0].id), now, now - DIFF_MIN);
      FrontIn(ag[1..], now);
      forall e | e in Front(ag[1..], now) ensures Spared(Does(cb, ag[0].id), e.id) {
        assert e in ag && Untouched(cb, e.id);
      }
      DoAllFront(ag[1..], Does(cb, ag[0].id), now);
      FrontIn(rest, now);
      forall e | e in rest && e.due <= now ensures Untouched(cb, e.id) {
        assert e in Front(rest, now);
      }
      FireInOrder(rest, now, cb);
    }
  }

  /** The due events at the front of the queue. */
  function Front(ag: Agenda, now: int): Agenda {
    if ag == [] || ag[0].due > now then [] else [ag[0]] + Front(ag[1..], now)
  }

  lemma {:induction false} FrontIn(ag: Agenda, now: int)
    requires Sorted(ag)
    ensures forall e :: e in Front(ag, now) <==> e in ag && e.due <= now
  {
    if ag != [] {
      TailSorted(ag);
      assert ag == [ag[0]] + ag[1..];
      FrontIn(ag[1..], now);
    }
  }

  lemma {:induction false} DropFront(ag: Agenda, id: nat, now: int)
    requires Sorted(ag) && forall e :: e in Front(ag, now) ==> e.id != id
    ensures Front(Drop(ag, id), now) == Front(ag, now)
  {
    if ag != [] {
      TailSorted(ag);
      var r := Drop(ag, id);
      if ag[0].due <= now {
        assert ag[0] in Front(ag, now);
        assert forall e :: e in Front(ag[1..], now) ==> e in Front(ag, now);
        DropFront(ag[1..], id, now);
        assert r[1..] == Drop(ag[1..], id);
      } else {
        assert r != [] ==> r[0] in ag;
      }
    }
  }

  lemma {:induction false} InsertFront(ag: Agenda, e: Entry, now: int)
    requires e.due > now
    ensures Front(Insert(ag, e), now) == Front(ag, now)
  {
    var r := Insert(ag, e);
    PlaceStep(ag, e.due);
    if ag == [] || ag[0].due > e.due {
      assert r == [e] + ag;
    } else {
      InsertFront(ag[1..], e, now);
      assert r == [ag[0]] + Insert(ag[1..], e) && r[1..] == Insert(ag[1..], e);
    }
  }

  lemma {:induction false} DoAllFront(ag: Agenda, ops: seq<Op>, now: int)
    requires Sorted(ag) && Visible(ag, now) && AllFuture(now, ops)
    requires forall e :: e in Front(ag, now) ==> Spared(ops, e.id)
    ensures Front(DoAll(ag, ops), now) == Front(ag, now)
    decreases |ops|
  {
    if ops != [] {
      var op := ops[0];
      assert Future(now, op);
      forall e | e in Front(ag, now) ensures e.id != op.id && Spared(ops[1..], e.id) {
        assert Spared(ops, e.id);
      }
      DropFront(ag, op.id, now);
      if op.Arm? { InsertFront(Drop(ag, op.id), Entry(op.id, op.due), now); }
      DoKeeps(ag, op, now - DIFF_MIN, now + HALF);
      DoAllFront(Do(ag, op), ops[1..], now);
    }
  }

  // ---------------------------------------------------------------- many ticks

  datatype Clock = Clock(now: int, ag: Agenda)

  /** Between ticks kernel code sets and cancels events; a tick advances the time by one. */
  datatype Step = Call(op: Op) | Tick(cb: Callbacks)

  ghost predicate Enabled(s: Clock, a: Step) {
    match a
    case Call(op) => Future(s.now, op)
    case Tick(cb) => Friendly(cb, s.now + 1)
  }

  /** The next state, and what is fired at what time. */
  ghost function Next(s: Clock, a: Step): (Clock, seq<(int, Entry)>)
    requires Enabled(s, a)
  {
    match a
    case Call(op) => (Clock(s.now, Do(s.ag, op)), [])
    case Tick(cb) =>
      var r := TickTo(s.ag, s.now + 1, cb);
      (Clock(s.now + 1, r.0), Stamped(s.now + 1, r.1))
  }

  ghost function Stamped(now: int, es: seq<Entry>): seq<(int, Entry)> {
    seq(|es|, i requires 0 <= i < |es| => (now, es[i]))
  }

  lemma StampedHas(now: int, es: seq<Entry>, e: Entry)
    ensures (now, e) in Stamped(now, es) <==> e in es
  {
    if e in es {
      var i :| 0 <= i < |es| && es[i] == e;
      assert Stamped(now, es)[i] == (now, e);
    }
  }

  ghost predicate IsRun(s: Clock, run: seq<Step>)
    decreases |run|
  {
    run == [] || (Enabled(s, run[0]) && IsRun(Next(s, run[0]).0, run[1..]))
  }

  ghost function After(s: Clock, run: seq<Step>): (Clock, seq<(int, Entry)>)
    requires IsRun(s, run)
    decreases |run|
  {
    if run == [] then (s, [])
    else
      var d := Next(s, run[0]);
      var r := After(d.0, run[1..]);
      (r.0, d.1 + r.1)
  }

  lemma {:induction false} TimePasses(s: Clock, run: seq<Step>)
    requires IsRun(s, run)
    ensures After(s, run).0.now >= s.now
    decreases |run|
  {
    if run != [] { TimePasses(Next(s, run[0]).0, run[1..]); }
  }

  lemma StepKeeps(s: Clock, a: Step)
    requires AgendaOk(s.ag, s.now) && Enabled(s, a)
    ensures var s' := Next(s, a).0; AgendaOk(s'.ag, s'.now) && s'.now >= s.now
    ensures forall x :: x in Next(s, a).1 ==> x.0 == x.1.due == s.now + 1
  {
    match a {
      case Call(op) => DoKeeps(s.ag, op, s.now + 1, s.now + HALF);
      case Tick(cb) => RenewedSame(s.ag, s.now + 1); FireDone(s.ag, s.now + 1, cb, s.now + 1);
    }
  }

  /** Over every run, whatever the callbacks do, the queue stays sorted and within sight,
      and an event fires at its time and at no other. */
  lemma {:induction false} EveryRun(s: Clock, run: seq<Step>)
    requires AgendaOk(s.ag, s.now) && IsRun(s, run)
    ensures var r := After(s, run); AgendaOk(r.0.ag, r.0.now) && forall x :: x in r.1 ==> x.0 == x.1.due
    decreases |run|
  {
    if run != [] {
      StepKeeps(s, run[0]);
      EveryRun(Next(s, run[0]).0, run[1..]);
    }
  }

  /** The step neither sets nor cancels the event `id`. */
  ghost predicate Spares(a: Step, id: nat) {
    match a
    case Call(op) => op.id != id
    case Tick(cb) => Untouched(cb, id)
  }

  lemma StepOne(s: Clock, a: Step, e: Entry)
    requires AgendaOk(s.ag, s.now) && Enabled(s, a) && Spares(a, e.id)
    ensures var r := Next(s, a);
            && (e in r.0.ag <==> e in s.ag && e.due > r.0.now)
            && ((e.due, e) in r.1 <==> e in s.ag && e.due <= r.0.now)
  {
    match a {
      case Call(op) => DoKeeps(s.ag, op, s.now + 1, s.now + HALF);
      case Tick(cb) =>
        var now := s.now + 1;
        RenewedSame(s.ag, now);
        FireDone(s.ag, now, cb, now);
        FireOne(s.ag, now, cb, e);
        StampedHas(now, Fire(s.ag, now, cb).1, e);
    }
  }

  /** A queued event that nobody sets again or cancels fires exactly when its time comes:
      it is queued until then and is fired then. */
  lemma {:induction false} FiresWhenDue(s: Clock, run: seq<Step>, e: Entry)
    requires AgendaOk(s.ag, s.now) && IsRun(s, run) && e in s.ag
    requires forall i :: 0 <= i < |run| ==> Spares(run[i], e.id)
    ensures var r := After(s, run);
            && (e in r.0.ag <==> r.0.now < e.due)
            && ((e.due, e) in r.1 <==> r.0.now >= e.due)
    decreases |run|
  {
    if run != [] {
      var d := Next(s, run[0]);
      StepKeeps(s, run[0]);
      StepOne(s, run[0], e);
      assert forall i :: 0 <= i < |run[1..]| ==> Spares(run[1..][i], e.id);
      if e in d.0.ag {
        FiresWhenDue(d.0, run[1..], e);
      } else {
        GoneForGood(d.0, run[1..], e);
      }
    }
  }

  lemma {:induction false} GoneForGood(s: Clock, run: seq<Step>, e: Entry)
    requires AgendaOk(s.ag, s.now) && IsRun(s, run) && e !in s.ag
    requires forall i :: 0 <= i < |run| ==> Spares(run[i], e.id)
    ensures var r := After(s, run); e !in r.0.ag && (e.due, e) !in r.1 && r.0.now >= s.now
    decreases |run|
  {
    if run != [] {
      StepKeeps(s, run[0]);
      StepOne(s, run[0], e);
      assert forall i :: 0 <= i < |run[1..]| ==> Spares(run[1..][i], e.id);
      GoneForGood(Next(s, run[0]).0, run[1..], e);
    }
  }

  /** When a timeout of `tmout` that is set at `now` ends. */
  function DueAt(now: int, tmout: int): int {
    now + (tmout + 1)
  }

  /** A wait of `d`, set at any time and never released otherwise, ends at tick `d + 1`:
      not before, and not later. */
  lemma WaitEnds(s: Clock, id: nat, d: int, run: seq<Step>)
    requires AgendaOk(s.ag, s.now) && 0 <= d < HALF
    requires forall i :: 0 <= i < |run| ==> Spares(run[i], id)
    requires IsRun(Clock(s.now, Do(s.ag, Arm(id, DueAt(s.now, d)))), run)
    ensures var s0 := Clock(s.now, Do(s.ag, Arm(id, DueAt(s.now, d))));
            var e := Entry(id, DueAt(s.now, d));
            (e.due, e) in After(s0, run).1 <==> After(s0, run).0.now - s.now >= d + 1
  {
    var op := Arm(id, DueAt(s.now, d));
    DoKeeps(s.ag, op, s.now + 1, s.now + HALF);
    DropSorted(s.ag, id);
    InsertSorted(Drop(s.ag, id), Entry(id, op.due));
    FiresWhenDue(Clock(s.now, Do(s.ag, op)), run, Entry(id, op.due));
  }

  // ------------------------------------------------------------ who fires first

  /** `x` comes before `y`. */
  ghost predicate Ahead<T>(s: seq<T>, x: T, y: T) {
    exists i, j :: Before(s, i, j) && s[i] == x && s[j] == y
  }

  lemma AheadAt<T>(s: seq<T>, x: T, y: T, i: int, j: int)
    requires 0 <= i < j < |s| && s[i] == x && s[j] == y
    ensures Ahead(s, x, y)
  {
    assert Before(s, i, j);
  }

  lemma AheadJoined<T>(a: seq<T>, b: seq<T>, x: T, y: T)
    ensures Ahead(a, x, y) || Ahead(b, x, y) || (x in a && y in b) ==> Ahead(a + b, x, y)
  {
    var r := a + b;
    if Ahead(a, x, y) {
      var i, j :| Before(a, i, j) && a[i] == x && a[j] == y;
      AheadAt(r, x, y, i, j);
    } else if Ahead(b, x, y) {
      var i, j :| Before(b, i, j) && b[i] == x && b[j] == y;
      AheadAt(r, x, y, |a| + i, |a| + j);
    } else if x in a && y in b {
      var i :| 0 <= i < |a| && a[i] == x;
      var j :| 0 <= j < |b| && b[j] == y;
      AheadAt(r, x, y, i, |a| + j);
    }
  }

  lemma AheadTail<T>(s: seq<T>, x: T, y: T)
    requires Ahead(s, x, y)
    ensures s != [] && (s[0] == x ==> y in s[1..]) && (s[0] != x ==> Ahead(s[1..], x, y))
  {
    var i, j :| Before(s, i, j) && s[i] == x && s[j] == y;
    assert s[1..][j - 1] == y;
    if i > 0 { AheadAt(s[1..], x, y, i - 1, j - 1); }
  }

  /** An event is set behind all that are due then or before. */
  lemma SetBehind(ag: Agenda, e: Entry, f: Entry)
    requires Sorted(ag) && e in ag && e.due <= f.due
    ensures Ahead(Insert(ag, f), e, f)
  {
    var k := Place(ag, f.due);
    var i :| 0 <= i < |ag| && ag[i] == e;
    assert k <= i ==> k == i || Before(ag, k, i);
    AheadAt(Insert(ag, f), e, f, i, k);
  }

  lemma AheadInsert(ag: Agenda, x: Entry, e: Entry, f: Entry)
    requires Ahead(ag, e, f)
    ensures Ahead(Insert(ag, x), e, f)
  {
    var k := Place(ag, x.due);
    var i, j :| Before(ag, i, j) && ag[i] == e && ag[j] == f;
    AheadAt(Insert(ag, x), e, f, if i < k then i else i + 1, if j < k then j else j + 1);
  }

  lemma {:induction false} AheadDrop(ag: Agenda, id: nat, e: Entry, f: Entry)
    requires Ahead(ag, e, f) && e.id != id && f.id != id
    ensures Ahead(Drop(ag, id), e, f)
  {
    AheadTail(ag, e, f);
    if ag[0].id != id {
      if ag[0] != e { AheadDrop(ag[1..], id, e, f); }
      AheadJoined([ag[0]], Drop(ag[1..], id), e, f);
    }
  }

  lemma {:induction false} AheadDoAll(ag: Agenda, ops: seq<Op>, e: Entry, f: Entry)
    requires Ahead(ag, e, f) && Spared(ops, e.id) && Spared(ops, f.id)
    ensures Ahead(DoAll(ag, ops), e, f)
    decreases |ops|
  {
    if ops != [] {
      AheadDo(ag, ops[0], e, f);
      AheadDoAll(Do(ag, ops[0]), ops[1..], e, f);
    }
  }

  lemma AheadDo(ag: Agenda, op: Op, e: Entry, f: Entry)
    requires Ahead(ag, e, f) && e.id != op.id && f.id != op.id
    ensures Ahead(Do(ag, op), e, f)
  {
    AheadDrop(ag, op.id, e, f);
    if op.Arm? { AheadInsert(Drop(ag, op.id), Entry(op.id, op.due), e, f); }
  }

  /** Of two events that no callback touches the one ahead is fired first, and if neither is
      fired it stays ahead. */
  lemma {:induction false} FireAhead(ag: Agenda, now: int, cb: Callbacks, e: Entry, f: Entry)
    requires Sorted(ag) && Visible(ag, now) && Friendly(cb, now) && Untouched(cb, e.id) && Untouched(cb, f.id)
    requires Ahead(ag, e, f)
    ensures if e.due > now then Ahead(Fire(ag, now, cb).0, e, f)
            else f in Fire(ag, now, cb).1 ==> Ahead(Fire(ag, now, cb).1, e, f)
    decreases Dues(ag, now)
  {
    AheadTail(ag, e, f);
    if ag[0].due <= now {
      var r := Fire(Rest(ag, cb), now, cb);
      RestKeeps(ag, now, cb, e);
      RestKeeps(ag, now, cb, f);
      assert Fire(ag, now, cb) == (r.0, [ag[0]] + r.1) by { DoAllDues(ag[1..], Does(cb, ag[0].id), now); }
      if ag[0] != e {
        assert ag[0].id != f.id by {
          var i, j :| Before(ag, i, j) && ag[i] == e && ag[j] == f;
          assert Before(ag, 0, j);
        }
        AheadDoAll(ag[1..], Does(cb, ag[0].id), e, f);
        FireAhead(Rest(ag, cb), now, cb, e, f);
      }
      AheadJoined([ag[0]], r.1, e, f);
    } else {
      assert e in ag;
      TailSorted(ag);
    }
  }

  lemma AheadStamped(now: int, es: seq<Entry>, e: Entry, f: Entry)
    requires Ahead(es, e, f)
    ensures Ahead(Stamped(now, es), (now, e), (now, f))
  {
    var i, j :| Before(es, i, j) && es[i] == e && es[j] == f;
    AheadAt(Stamped(now, es), (now, e), (now, f), i, j);
  }

  /** One step: the event ahead stays ahead, or is fired, before the other. */
  lemma StepAhead(s: Clock, a: Step, e: Entry, f: Entry)
    requires AgendaOk(s.ag, s.now) && Enabled(s, a) && Spares(a, e.id) && Spares(a, f.id) && Ahead(s.ag, e, f)
    ensures var r := Next(s, a);
            if e in r.0.ag then Ahead(r.0.ag, e, f) && (f.due, f) !in r.1
            else (e.due, e) in r.1 && ((f.due, f) in r.1 ==> Ahead(r.1, (e.due, e), (f.due, f)))
  {
    assert e in s.ag && f in s.ag && e.due <= f.due;
    StepOne(s, a, e);
    StepOne(s, a, f);
    match a {
      case Call(op) => AheadDo(s.ag, op, e, f);
      case Tick(cb) =>
        var now := s.now + 1;
        RenewedSame(s.ag, now);
        FireAhead(s.ag, now, cb, e, f);
        StepKeeps(s, a);
        var es := Fire(s.ag, now, cb).1;
        StampedHas(now, es, f);
        if Ahead(es, e, f) { AheadStamped(now, es, e, f); }
    }
  }

  /** Over every run, of two queued events that nobody sets again or cancels the one ahead in
      the queue fires first. */
  lemma {:induction false} FiresFirst(s: Clock, run: seq<Step>, e: Entry, f: Entry)
    requires AgendaOk(s.ag, s.now) && IsRun(s, run) && Ahead(s.ag, e, f)
    requires forall i :: 0 <= i < |run| ==> Spares(run[i], e.id) && Spares(run[i], f.id)
    ensures (f.due, f) in After(s, run).1 ==> Ahead(After(s, run).1, (e.due, e), (f.due, f))
    decreases |run|
  {
    if run != [] {
      var d := Next(s, run[0]);
      StepKeeps(s, run[0]);
      StepAhead(s, run[0], e, f);
      assert forall i :: 0 <= i < |run[1..]| ==> Spares(run[1..][i], e.id) && Spares(run[1..][i], f.id);
      if e in d.0.ag { FiresFirst(d.0, run[1..], e, f); }
      AheadJoined(d.1, After(d.0, run[1..]).1, (e.due, e), (f.due, f));
    }
  }

  /** In particular events set for the same time fire in the order in which they were set. */
  lemma SetFirstFiresFirst(s: Clock, e: Entry, f: Entry, run: seq<Step>)
    requires AgendaOk(s.ag, s.now) && e in s.ag && e.id != f.id && s.now < e.due <= f.due <= s.now + HALF
    requires IsRun(Clock(s.now, Do(s.ag, Arm(f.id, f.due))), run)
    requires forall i :: 0 <= i < |run| ==> Spares(run[i], e.id) && Spares(run[i], f.id)
    ensures var log := After(Clock(s.now, Do(s.ag, Arm(f.id, f.due))), run).1;
            (f.due, f) in log ==> Ahead(log, (e.due, e), (f.due, f))
  {
    var op := Arm(f.id, f.due);
    DropSorted(s.ag, f.id);
    SetBehind(Drop(s.ag, f.id), e, f);
    DoKeeps(s.ag, op, s.now + 1, s.now + HALF);
    FiresFirst(Clock(s.now, Do(s.ag, op)), run, e, f);
  }

  // -------------------------------------------------------------- ticks in a row

  ghost predicate AllFriendly(cbs: int -> Callbacks) {
    forall n {:trigger cbs(n)} :: Friendly(cbs(n), n)
  }

  /** The queue `k` ticks after `now`, with nothing but callbacks in between... */
  ghost function Ticks(ag: Agenda, now: int, cbs: int -> Callbacks, k: nat): Agenda
    requires AllFriendly(cbs)
  {
    if k == 0 then ag else TickTo(Ticks(ag, now, cbs, k - 1), now + k, cbs(now + k)).0
  }

  /** ...and what the last of these ticks fires. */
  ghost function FiredIn(ag: Agenda, now: int, cbs: int -> Callbacks, k: nat): seq<Entry>
    requires AllFriendly(cbs) && k > 0
  {
    TickTo(Ticks(ag, now, cbs, k - 1), now + k, cbs(now + k)).1
  }

  ghost predicate NothingDue(ag: Agenda, now: int) {
    forall e :: e in ag ==> e.due > now
  }

  lemma TicksNext(ag: Agenda, now: int, cbs: int -> Callbacks, k: nat)
    requires AllFriendly(cbs) && k > 0
    ensures Friendly(cbs(now + k), now + k)
    ensures (Ticks(ag, now, cbs, k), FiredIn(ag, now, cbs, k)) ==
            TickTo(Ticks(ag, now, cbs, k - 1), now + k, cbs(now + k))
  {
  }

  /** A tick of a queue in order. */
  lemma TickKeeps(ag: Agenda, was: int, now: int, cb: Callbacks)
    requires AgendaOk(ag, was) && now == was + 1 && Friendly(cb, now)
    ensures Renewed(ag, now) == ag && AgendaOk(TickTo(ag, now, cb).0, now)
  {
    RenewedSame(ag, now);
    FireDone(ag, now, cb, now);
  }

  lemma NextKeeps(ag: Agenda, now: int, cbs: int -> Callbacks, k: nat, was: int, n: int)
    requires AllFriendly(cbs) && k > 0 && n == now + k && n == was + 1 && AgendaOk(Ticks(ag, now, cbs, k - 1), was)
    ensures AgendaOk(Ticks(ag, now, cbs, k), n)
  {
    var a := Ticks(ag, now, cbs, k - 1);
    assert Friendly(cbs(n), n);
    TickKeeps(a, was, n, cbs(n));
  }

  lemma {:induction false} TicksKeep(ag: Agenda, now: int, cbs: int -> Callbacks, k: nat)
    requires AllFriendly(cbs) && AgendaOk(ag, now)
    ensures AgendaOk(Ticks(ag, now, cbs, k), now + k)
  {
    if k > 0 {
      TicksKeep(ag, now, cbs, k - 1);
      NextKeeps(ag, now, cbs, k, now + (k - 1), now + k);
    }
  }

  /** An event 2^31 + 1 ahead of the current time is taken for one 2^31 - 1 ago, goes to the
      head of the queue, and is out of sight at the next tick: until its time has come nothing
      fires, whatever is due behind it. */
  lemma {:induction false} Stalled(ag: Agenda, now: int, cbs: int -> Callbacks, id: nat, k: nat)
    requires AllFriendly(cbs) && AgendaOk(ag, now) && 0 < k <= HALF
    ensures var q := [Entry(id, now - DIFF_MIN)] + ag;
            && Ticks(q, now, cbs, k) == [Entry(id, now + HALF + 1)] + ag && FiredIn(q, now, cbs, k) == []
  {
    var q := [Entry(id, now - DIFF_MIN)] + ag;
    var head := [Entry(id, now + HALF + 1)] + ag;
    if k > 1 { Stalled(ag, now, cbs, id, k - 1); }
    var a := Ticks(q, now, cbs, k - 1);
    assert Renewed(a, now + k) == head by {
      forall i | 0 <= i < |head| ensures Renewed(a, now + k)[i] == head[i] {
        if i > 0 { assert a[i] == ag[i - 1] && ag[i - 1] in ag; }
      }
    }
  }

  // ----------------------------------------------------------- the queue in words

  /** A timer event block: the event and its 32-bit time. */
  datatype Tmeb = Tmeb(id: nat, time: int)

  ghost predicate Codes(q: seq<Tmeb>, ag: Agenda) {
    |q| == |ag| && forall i :: 0 <= i < |q| ==> q[i] == Tmeb(ag[i].id, Word(ag[i].due))
  }

  lemma CodesDropped(q: seq<Tmeb>, ag: Agenda, i: int)
    requires Codes(q, ag) && 0 <= i < |q|
    ensures Codes(q[..i] + q[i + 1..], ag[..i] + ag[i + 1..])
  {
  }

  lemma CodesInserted(q: seq<Tmeb>, ag: Agenda, i: int, id: nat, due: int)
    requires Codes(q, ag) && 0 <= i <= |q|
    ensures Codes(q[..i] + [Tmeb(id, Word(due))] + q[i..], ag[..i] + [Entry(id, due)] + ag[i..])
  {
  }

  lemma CodesRenewed(q: seq<Tmeb>, ag: Agenda, now: int)
    requires Codes(q, ag) && Once(ag) && Visible(ag, now - 1)
    ensures Codes(q, Renewed(ag, now)) && Once(Renewed(ag, now)) && Visible(Renewed(ag, now), now)
  {
    var r := Renewed(ag, now);
    forall i | 0 <= i < |q| ensures q[i] == Tmeb(r[i].id, Word(r[i].due)) { WordShift(ag[i].due, 1); }
    forall i, j | Before(r, i, j) ensures r[i].id != r[j].id { assert Before(ag, i, j); }
    forall e | e in r ensures now - DIFF_MIN <= e.due <= now + HALF {
      var i :| 0 <= i < |r| && r[i] == e;
      assert ag[i] in ag;
    }
  }

  function Ids(es: seq<Entry>): seq<nat> {
    if es == [] then [] else [es[0].id] + Ids(es[1..])
  }

  lemma {:induction false} IdsSnoc(es: seq<Entry>, e: Entry)
    ensures Ids(es + [e]) == Ids(es) + [e.id]
  {
    if es == [] {
      assert es + [e] == [e] && [e][1..] == [];
    } else {
      assert (es + [e])[1..] == es[1..] + [e];
      IdsSnoc(es[1..], e);
    }
  }

  class TimerQueue {
    var current: int
    var queue: seq<Tmeb>
    ghost var agenda: Agenda

    /** The words stand for the times of the agenda, all of them within sight; they need not
        be in order. */
    ghost predicate Valid()
      reads this
    {
      Codes(queue, agenda) && Once(agenda) && Visible(agenda, current)
    }

    /** knl_timer_startup. */
    constructor ()
      ensures Valid() && current == 0 && agenda == []
    {
      current, queue, agenda := 0, [], [];
    }

    /** knl_enqueue_tmeb.  `due` is the time within sight that is meant by the word `time`. */
    method EnqueueTmeb(id: nat, time: int, ghost due: int)
      requires Valid() && time == Word(due) && InSight(current, due) && !Queued(agenda, id)
      modifies this`queue, this`agenda
      ensures Valid() && agenda == Insert(old(agenda), Entry(id, due))
    {
      var cur, q, i := Word(current), queue, 0;
      ghost var now, ag := current, agenda;
      KeyIsDistance(now, due);
      while i < |q| && Key(cur, time) >= Key(cur, q[i].time)
        invariant 0 <= i <= |q| && forall k :: 0 <= k < i ==> ag[k].due <= due
      {
        KeyIsDistance(now, ag[i].due);
        i := i + 1;
      }
      if i < |q| { KeyIsDistance(now, ag[i].due); }
      PlaceUnique(ag, due, i);
      InsertOnce(ag, Entry(id, due));
      InsertMembers(ag, Entry(id, due));
      agenda := Insert(ag, Entry(id, due));
      queue := q[..i] + [Tmeb(id, time)] + q[i..];
      CodesInserted(q, ag, i, id, due);
    }

    /** knl_timer_insert, for any timeout; TMO_FEVR, which is -1, is not queued. */
    method TimerInsert(id: nat, tmout: int)
      requires Valid() && -1 <= tmout < HALF && !Queued(agenda, id)
      modifies this`queue, this`agenda
      ensures Valid()
      ensures agenda == if tmout == -1 then old(agenda) else Insert(old(agenda), Entry(id, DueAt(current, tmout)))
    {
      if tmout != -1 {
        WordSum(current, tmout + 1);
        var time := Word(Word(current) + (tmout + 1));
        EnqueueTmeb(id, time, DueAt(current, tmout));
      }
    }

    /** knl_timer_insert_abs, for any word `time`. */
    method TimerInsertAbs(id: nat, time: int)
      requires Valid() && 0 <= time < WORD && !Queued(agenda, id)
      modifies this`queue, this`agenda
      ensures Valid() && agenda == Insert(old(agenda), Entry(id, Meant(current, time)))
    {
      MeantIs(current, time);
      EnqueueTmeb(id, time, Meant(current, time));
    }

    /** knl_timer_delete; an event that is not queued is linked to itself. */
    method TimerDelete(id: nat)
      requires Valid()
      modifies this`queue, this`agenda
      ensures Valid() && agenda == Drop(old(agenda), id) && !Queued(agenda, id)
    {
      var q, i := queue, 0;
      ghost var ag := agenda;
      while i < |q| && q[i].id != id
        invariant 0 <= i <= |q| && forall k :: 0 <= k < i ==> ag[k].id != id
      {
        i := i + 1;
      }
      DropAt(ag, id, i);
      DropOnce(ag, id);
      agenda := Drop(ag, id);
      if i < |q| {
        queue := q[..i] + q[i + 1..];
        CodesDropped(q, ag, i);
      }
    }

    method PerformOne(op: Op)
      requires Valid() && Future(current, op)
      modifies this`queue, this`agenda
      ensures Valid() && agenda == Do(old(agenda), op)
    {
      TimerDelete(op.id);
      if op.Arm? {
        MeantFuture(current, op.due);
        TimerInsertAbs(op.id, Word(op.due));
      }
    }

    /** What a callback, or kernel code between two ticks, does with the queue. */
    method Perform(ops: seq<Op>)
      requires Valid() && AllFuture(current, ops)
      modifies this`queue, this`agenda
      ensures Valid() && agenda == DoAll(old(agenda), ops)
    {
      var i := 0;
      while i < |ops|
        invariant 0 <= i <= |ops| && Valid() && DoAll(agenda, ops[i..]) == DoAll(old(agenda), ops)
      {
        assert ops[i..][1..] == ops[i + 1..];
        PerformOne(ops[i]);
        i := i + 1;
      }
    }

    /** knl_timer_handler, for every queue.  It ends because callbacks set events for the
        future only. */
    method TimerHandler(cb: Callbacks) returns (fired: seq<nat>)
      requires Valid() && Friendly(cb, current + 1)
      modifies this
      ensures Valid() && current == old(current) + 1
      ensures agenda == TickTo(old(agenda), current, cb).0 && fired == Ids(TickTo(old(agenda), current, cb).1)
    {
      current := current + 1;
      var cur := Word(current);
      fired := [];
      ghost var log: seq<Entry> := [];
      CodesRenewed(queue, agenda, current);
      agenda := Renewed(agenda, current);
      ghost var ag := agenda;
      FiringStart(agenda, current, cb);
      while queue != []
        invariant Valid() && current == old(current) + 1 && fired == Ids(log)
        invariant Firing(ag, current, cb, log, agenda)
        decreases Dues(agenda, current)
      {
        var event := queue[0];
        assert agenda[0] in agenda;
        ReachedIsPast(current, agenda[0].due);
        if !AbstimReached(cur, event.time) { break; }
        TailOnce(agenda);
        FiringStep(ag, current, cb, log, agenda);
        IdsSnoc(log, agenda[0]);
        log := log + [agenda[0]];
        queue, agenda := queue[1..], agenda[1..];
        assert AllFuture(current, Does(cb, event.id));
        Perform(Does(cb, event.id));
        fired := fired + [event.id];
      }
      FiringEnd(ag, current, cb, log, agenda);
    }
  }

  /** The tick that began with `ag0` has fired `log` and come to `ag`. */
  ghost predicate Firing(ag0: Agenda, now: int, cb: Callbacks, log: seq<Entry>, ag: Agenda)
    requires Friendly(cb, now)
  {
    var r := Fire(ag, now, cb); Fire(ag0, now, cb) == (r.0, log + r.1)
  }

  lemma FiringStart(ag: Agenda, now: int, cb: Callbacks)
    requires Friendly(cb, now)
    ensures Firing(ag, now, cb, [], ag)
  {
    assert [] + Fire(ag, now, cb).1 == Fire(ag, now, cb).1;
  }

  lemma FiringStep(ag0: Agenda, now: int, cb: Callbacks, log: seq<Entry>, ag: Agenda)
    requires Friendly(cb, now) && Firing(ag0, now, cb, log, ag) && ag != [] && ag[0].due <= now
    ensures var rest := DoAll(ag[1..], Does(cb, ag[0].id));
            Firing(ag0, now, cb, log + [ag[0]], rest) && Dues(rest, now) < Dues(ag, now)
  {
    var rest := DoAll(ag[1..], Does(cb, ag[0].id));
    DoAllDues(ag[1..], Does(cb, ag[0].id), now);
    assert log + ([ag[0]] + Fire(rest, now, cb).1) == log + [ag[0]] + Fire(rest, now, cb).1;
  }

  lemma FiringEnd(ag0: Agenda, now: int, cb: Callbacks, log: seq<Entry>, ag: Agenda)
    requires Friendly(cb, now) && Firing(ag0, now, cb, log, ag) && (ag == [] || ag[0].due > now)
    ensures Fire(ag0, now, cb) == (ag, log)
  {
    assert Fire(ag, now, cb) == (ag, []);
    assert log + [] == log;
  }

  lemma {:induction false} DropAt(ag: Agenda, id: nat, k: int)
    requires 0 <= k <= |ag| && (forall i :: 0 <= i < k ==> ag[i].id != id) && (k < |ag| ==> ag[k].id == id)
    ensures Drop(ag, id) == if k < |ag| then ag[..k] + ag[k + 1..] else ag
  {
    if k > 0 {
      DropAt(ag[1..], id, k - 1);
      if k < |ag| {
        assert ag[..k] + ag[k + 1..] == [ag[0]] + (ag[1..][..k - 1] + ag[1..][k..]);
      }
    }
  }
}
