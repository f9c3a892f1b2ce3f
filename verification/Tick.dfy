/** The hardware tick: crediting missed periods (sys_timer.c) and the interrupt handler
    that replays them (interrupt.c). */
module Tick {
  import opened Common
  import opened Arith
  import opened Timer

  /** SYSTIM_MAX_CATCHUP_PERIODS for a period of one millisecond. */
  const MAX_CATCHUP := 1000

  datatype Reading = Reading(last: int, credited: int, dropped: int)

  /** How many whole periods the counter is beyond the reference, as the UW the code computes. */
  function Missed(last: int, period: int, counter: int): int
    requires 0 < period
  {
    Word((counter - last) / period)
  }

  /** One query at `counter`: at most MAX_CATCHUP periods are credited, the rest is dropped. */
  function Query(r: Reading, period: int, counter: int): Reading
    requires 0 < period
  {
    var n := Missed(r.last, period, counter);
    var slip := if n > MAX_CATCHUP then n - MAX_CATCHUP else 0;
    Reading(r.last + n * period, r.credited + (n - slip), r.dropped + slip)
  }

  /** The reference started at `start` and has moved by whole periods, all accounted for. */
  predicate Accounted(r: Reading, start: int, period: int) {
    r.last == start + (r.credited + r.dropped) * period && 0 <= r.credited && 0 <= r.dropped
  }

  function Min(a: int, b: int): int { if a < b then a else b }

  /** As many of the missed periods are credited as may be.  The reference never passes the
      counter, and credited plus dropped periods are all whole periods so far exactly if
      fewer than 2^32 were missed. */
  lemma QueryExact(r: Reading, start: int, period: int, counter: int)
    requires 0 < period && Accounted(r, start, period) && r.last <= counter
    ensures var r' := Query(r, period, counter);
            && Accounted(r', start, period) && r.last <= r'.last <= counter
            && r'.credited - r.credited == Min((counter - r.last) / period % WORD, MAX_CATCHUP)
            && (r'.credited + r'.dropped == (counter - start) / period <==> (counter - r.last) / period < WORD)
  {
    var q := (counter - r.last) / period;
    var n := Missed(r.last, period, counter);
    Division(counter - r.last, period);
    WordSmall(q);
    assert n <= q by { assert q == q / WORD * WORD + n; }
    Scale(n, q, period);
    Scale(0, n, period);
    var total := r.credited + r.dropped;
    assert (total + n) * period == total * period + n * period;
    assert (counter - start) / period == total + q by { DivideSum(counter - start, period, total); }
    assert q < WORD <==> n == q;
  }

  lemma DivideSum(d: int, p: int, k: int)
    requires 0 < p && k * p <= d
    ensures d / p == k + (d - k * p) / p
  {
    var e := d - k * p;
    Division(e, p);
    var q := e / p;
    assert d == (k + q) * p + e % p by { assert e == q * p + e % p; assert (k + q) * p == k * p + q * p; }
    DivUnique(d, p, k + q, e % p);
  }

  /** Whole periods that the counter shows. */
  function Periods(start: int, period: int, counter: int): int
    requires 0 < period
  {
    (counter - start) / period
  }

  /** What a query leaves uncounted are whole words of the periods that were uncounted. */
  lemma QueryRest(r: Reading, start: int, period: int, counter: int)
    requires 0 < period && Accounted(r, start, period) && r.last <= counter
    ensures var r' := Query(r, period, counter); var f := Periods(start, period, counter);
            && Accounted(r', start, period) && r.last <= r'.last <= counter && r.credited + r.dropped <= f
            && f - (r'.credited + r'.dropped) == (f - (r.credited + r.dropped)) / WORD * WORD
  {
    QueryExact(r, start, period, counter);
    var total := r.credited + r.dropped;
    DivideSum(counter - start, period, total);
    Division(counter - r.last, period);
    var d := (counter - r.last) / period;
    assert d == d / WORD * WORD + Word(d);
  }

  ghost predicate Rising(cs: seq<int>, from: int) {
    forall i :: 0 <= i < |cs| ==> from <= cs[i] && (i > 0 ==> cs[i - 1] <= cs[i])
  }

  function Queries(r: Reading, period: int, cs: seq<int>): Reading
    requires 0 < period
  {
    if cs == [] then r else Query(Queries(r, period, cs[..|cs| - 1]), period, cs[|cs| - 1])
  }

  /** Periods between the query `i` and the one before it. */
  function Gap(start: int, period: int, cs: seq<int>, i: int): int
    requires 0 < period && 0 <= i < |cs|
  {
    Periods(start, period, cs[i]) - (if i == 0 then 0 else Periods(start, period, cs[i - 1]))
  }

  /** The counter at the last query. */
  function Latest(start: int, cs: seq<int>): int {
    if cs == [] then start else cs[|cs| - 1]
  }

  /** Over every sequence of interrupts, early, late or missed: the reference never passes
      the counter, and credited plus dropped periods are the counter divided by the period
      exactly if never 2^32 periods or more went by between two queries. */
  lemma {:induction false} EveryTickAccounted(start: int, period: int, cs: seq<int>)
    requires 0 < period && Rising(cs, start)
    ensures var r := Queries(Reading(start, 0, 0), period, cs);
            var rest := Periods(start, period, Latest(start, cs)) - (r.credited + r.dropped);
            && Accounted(r, start, period) && r.last <= Latest(start, cs) && rest >= 0 && rest % WORD == 0
            && (rest == 0 <==> forall i :: 0 <= i < |cs| ==> Gap(start, period, cs, i) < WORD)
    decreases |cs|
  {
    if cs == [] {
      DivUnique(0, period, 0, 0);
    } else {
      var n := |cs| - 1;
      var init, c := cs[..n], cs[n];
      assert forall i :: 0 <= i < |init| ==> init[i] == cs[i];
      EveryTickAccounted(start, period, init);
      var before := Latest(start, init);
      assert before <= c && (n > 0 ==> before == cs[n - 1]);
      AccountStep(Queries(Reading(start, 0, 0), period, init), start, period, before, c);
      if n == 0 { DivUnique(0, period, 0, 0); }
      GapsOf(start, period, cs);
    }
  }

  /** One more query, when whole words may already be uncounted. */
  lemma AccountStep(r: Reading, start: int, period: int, before: int, c: int)
    requires 0 < period && Accounted(r, start, period) && r.last <= before <= c
    requires var rest := Periods(start, period, before) - (r.credited + r.dropped); rest >= 0 && rest % WORD == 0
    ensures var r' := Query(r, period, c);
            var rest := Periods(start, period, before) - (r.credited + r.dropped);
            var rest' := Periods(start, period, c) - (r'.credited + r'.dropped);
            && Accounted(r', start, period) && r'.last <= c && rest' >= 0 && rest' % WORD == 0
            && (rest' == 0 <==> rest == 0 && Periods(start, period, c) - Periods(start, period, before) < WORD)
  {
    QueryRest(r, start, period, c);
    Monotone(before - start, c - start, period);
    var f, f' := Periods(start, period, before), Periods(start, period, c);
    RestGrows(f - (r.credited + r.dropped), f' - f);
  }

  lemma Monotone(a: int, b: int, p: int)
    requires 0 < p && a <= b
    ensures a / p <= b / p
  {
    var x, y := a / p, b / p;
    assert a == x * p + a % p && b == y * p + b % p;
    if y < x { Scale(y + 1, x, p); }
  }

  /** Whole words uncounted before and a further gap: nothing is uncounted after exactly if
      nothing was and the gap is less than a word. */
  lemma RestGrows(rest: int, gap: int)
    requires rest >= 0 && rest % WORD == 0 && gap >= 0
    ensures var rest' := (rest + gap) / WORD * WORD;
            rest' >= 0 && rest' % WORD == 0 && (rest' == 0 <==> rest == 0 && gap < WORD)
  {
    ModShift(0, (rest + gap) / WORD, WORD);
  }

  lemma GapsOf(start: int, period: int, cs: seq<int>)
    requires 0 < period && cs != []
    ensures var n := |cs| - 1;
            (forall i :: 0 <= i < |cs| ==> Gap(start, period, cs, i) < WORD) <==>
            (forall i :: 0 <= i < n ==> Gap(start, period, cs[..n], i) < WORD) && Gap(start, period, cs, n) < WORD
  {
    var n := |cs| - 1;
    assert forall i :: 0 <= i < n ==> Gap(start, period, cs[..n], i) == Gap(start, period, cs, i);
  }

  lemma Distribute(a: int, b: int, p: int)
    ensures a * p + b * p == (a + b) * p
  {
  }

  class SystemTimer {
    const period: int
    var last: int
    var slipped: int
    ghost const start: int
    ghost var credited: int
    ghost var dropped: int

    ghost predicate Valid()
      reads this
    {
      && 0 <= period && slipped == Word(dropped) && 0 <= last
      && (period > 0 ==> Accounted(Reading(last, credited, dropped), start, period))
    }

    constructor (period: int, counter: int)
      requires 0 <= period && 0 <= counter
      ensures Valid() && this.period == period && last == counter && credited == 0 && dropped == 0
    {
      this.period, last, slipped, start, credited, dropped := period, counter, 0, counter, 0, 0;
    }

    /** knl_get_hw_timer_elapsed_periods_impl; `counter` is what the hardware shows. */
    method ElapsedPeriods(counter: int) returns (periods: int)
      requires Valid() && last <= counter
      modifies this`last, this`slipped, this`credited, this`dropped
      ensures Valid() && last <= counter
      ensures period == 0 ==> periods == 1 && last == old(last)
      ensures period > 0 ==> Reading(last, credited, dropped) ==
                             Query(old(Reading(last, credited, dropped)), period, counter)
      ensures period > 0 ==> periods == credited - old(credited) && 0 <= periods <= MAX_CATCHUP
    {
      if period == 0 { return 1; }
      QueryExact(Reading(last, credited, dropped), start, period, counter);
      periods := Word((counter - last) / period);
      if periods > MAX_CATCHUP {
        var slip := periods - MAX_CATCHUP;
        WordSum(dropped, slip);
        Distribute(slip, MAX_CATCHUP, period);
        slipped := Word(slipped + slip);
        dropped := dropped + slip;
        last := last + slip * period;
        periods := MAX_CATCHUP;
      }
      last := last + periods * period;
      credited := credited + periods;
    }

    /** knl_systim_inthdr: the kernel's time advances by the credited periods, one tick after
        the other; `fired` lists the events of each. */
    method SystimInthdr(counter: int, q: TimerQueue, cbs: int -> Callbacks) returns (fired: seq<seq<nat>>)
      requires Valid() && last <= counter && q.Valid() && AllFriendly(cbs)
      modifies this`last, this`slipped, this`credited, this`dropped, q
      ensures Valid() && last <= counter && q.Valid() && q.current == old(q.current) + |fired|
      ensures q.agenda == Ticks(old(q.agenda), old(q.current), cbs, |fired|)
      ensures FiredList(fired, old(q.agenda), old(q.current), cbs)
      ensures AgendaOk(old(q.agenda), old(q.current)) ==> AgendaOk(q.agenda, q.current)
      ensures if period == 0 then |fired| == 1 && last == old(last) else |fired| == credited - old(credited)
      ensures period > 0 ==> Reading(last, credited, dropped) ==
                             Query(old(Reading(last, credited, dropped)), period, counter)
    {
      var n := ElapsedPeriods(counter);
      fired := Advance(q, n, cbs);
      if AgendaOk(old(q.agenda), old(q.current)) { TicksKeep(old(q.agenda), old(q.current), cbs, |fired|); }
    }

    /** The loop of knl_systim_inthdr: `n` calls of knl_timer_handler. */
    method Advance(q: TimerQueue, n: nat, cbs: int -> Callbacks) returns (fired: seq<seq<nat>>)
      requires q.Valid() && AllFriendly(cbs)
      modifies q
      ensures |fired| == n && q.Valid() && q.current == old(q.current) + n
      ensures q.agenda == Ticks(old(q.agenda), old(q.current), cbs, n)
      ensures FiredList(fired, old(q.agenda), old(q.current), cbs)
    {
      fired := [];
      ghost var ag, now := q.agenda, q.current;
      while |fired| < n
        invariant |fired| <= n && q.Valid() && q.current == now + |fired|
        invariant q.agenda == Ticks(ag, now, cbs, |fired|) && FiredList(fired, ag, now, cbs)
      {
        var ids := NextTick(q, cbs, ag, now, |fired| + 1);
        FiredMore(fired, ids, ag, now, cbs);
        fired := fired + [ids];
      }
    }

    /** The `k`-th of these calls. */
    method NextTick(q: TimerQueue, cbs: int -> Callbacks, ghost ag: Agenda, ghost now: int, ghost k: nat)
        returns (ids: seq<nat>)
      requires q.Valid() && AllFriendly(cbs) && k > 0
      requires q.current + 1 == now + k && q.agenda == Ticks(ag, now, cbs, k - 1)
      modifies q
      ensures q.Valid() && q.current == now + k
      ensures q.agenda == Ticks(ag, now, cbs, k) && ids == Ids(FiredIn(ag, now, cbs, k))
    {
      TicksNext(ag, now, cbs, k);
      ids := q.TimerHandler(cbs(q.current + 1));
    }
  }

  /** Each tick fired what it ought to. */
  ghost predicate FiredList(fired: seq<seq<nat>>, ag: Agenda, now: int, cbs: int -> Callbacks)
    requires AllFriendly(cbs)
  {
    forall i :: 0 <= i < |fired| ==> fired[i] == Ids(FiredIn(ag, now, cbs, i + 1))
  }

  lemma FiredMore(fired: seq<seq<nat>>, ids: seq<nat>, ag: Agenda, now: int, cbs: int -> Callbacks)
    requires AllFriendly(cbs) && FiredList(fired, ag, now, cbs) && ids == Ids(FiredIn(ag, now, cbs, |fired| + 1))
    ensures FiredList(fired + [ids], ag, now, cbs)
  {
  }
}
