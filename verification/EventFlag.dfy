/** Event flags (eventflag.c, eventflag.h).  A bit pattern is the set of its bits. */
module EventFlag {
  import opened Common
  import opened WaitQueue

  /** What a task waits for: waiptn and the bits TWF_ORW, TWF_BITCLR, TWF_CLR of wfmode. */
  datatype Ask = Ask(bits: Pattern, any: bool, bitclr: bool, clr: bool)

  type Asks = seq<Waiter<Ask>>

  /** knl_eventflag_cond. */
  predicate Cond(ptn: Pattern, a: Ask) {
    if a.any then ptn * a.bits != {} else a.bits <= ptn
  }

  datatype Flag = Flag(ptn: Pattern, multi: bool, tpri: bool, queue: Asks)

  ghost predicate AsksOk(q: Asks) {
    forall w :: w in q ==> w.arg.bits != {}
  }

  /** What every call keeps: no waiter's condition holds, and one waiter at most without TA_WMUL. */
  ghost predicate FlagOk(f: Flag) {
    && Line(f.tpri, f.queue) && AsksOk(f.queue)
    && (!f.multi ==> |f.queue| <= 1)
    && (forall w :: w in f.queue ==> !Cond(f.ptn, w.arg))
  }

  /** The pattern left by a released task. */
  function Cleared(ptn: Pattern, a: Ask): Pattern {
    if a.clr then {} else if a.bitclr then ptn - a.bits else ptn
  }

  // ---------------------------------------------------------------- releasing

  /** A released task and the pattern it is told. */
  datatype Told = Told(who: Waiter<Ask>, ptn: Pattern)

  datatype Result = Result(ptn: Pattern, kept: Asks, freed: seq<Told>)

  /** Every waiter in turn is released if its condition holds by then. */
  function Sweep(ptn: Pattern, q: Asks): Result
    decreases |q|
  {
    if q == [] then Result(ptn, [], [])
    else if Cond(ptn, q[0].arg) then
      var r := Sweep(Cleared(ptn, q[0].arg), q[1..]);
      Result(r.ptn, r.kept, [Told(q[0], ptn)] + r.freed)
    else
      var r := Sweep(ptn, q[1..]);
      Result(r.ptn, [q[0]] + r.kept, r.freed)
  }

  ghost predicate Freed(freed: seq<Told>, w: Waiter<Ask>) {
    exists f :: f in freed && f.who == w
  }

  /** A condition that fails still fails with fewer bits. */
  lemma CondMonotone(p: Pattern, p': Pattern, a: Ask)
    requires p' <= p && !Cond(p, a)
    ensures !Cond(p', a)
  {
    if a.any {
      assert p' * a.bits <= p * a.bits;
    }
  }

  /** After a sweep nobody left could be released, nobody is lost, and every released
      task was told a pattern that met its condition. */
  lemma {:induction false} SweepDone(tpri: bool, ptn: Pattern, q: Asks)
    requires Line(tpri, q)
    ensures var r := Sweep(ptn, q);
            && r.ptn <= ptn && Line(tpri, r.kept)
            && (forall w :: w in r.kept ==> !Cond(r.ptn, w.arg))
            && (forall f :: f in r.freed ==> r.ptn <= f.ptn <= ptn && Cond(f.ptn, f.who.arg) && f.who in q)
            && |r.kept| + |r.freed| == |q| && (forall w :: w in r.kept ==> w in q)
            && (forall w :: w in q ==> w in r.kept || Freed(r.freed, w))
    decreases |q|
  {
    if q != [] {
      assert q == [q[0]] + q[1..];
      TailLine(tpri, q);
      if Cond(ptn, q[0].arg) {
        var rest := Sweep(Cleared(ptn, q[0].arg), q[1..]).freed;
        SweepDone(tpri, Cleared(ptn, q[0].arg), q[1..]);
        assert Told(q[0], ptn) in Sweep(ptn, q).freed;
        forall w | Freed(rest, w) ensures Freed(Sweep(ptn, q).freed, w) {
          var f :| f in rest && f.who == w;
          assert f in Sweep(ptn, q).freed;
        }
      } else {
        SweepDone(tpri, ptn, q[1..]);
        if tpri { HeadFirst(tpri, q); }
        ConsLine(tpri, q[0], Sweep(ptn, q[1..]).kept);
        CondMonotone(ptn, Sweep(ptn, q).ptn, q[0].arg);
      }
    }
  }

  /** The loop may stop once no bit is left. */
  lemma {:induction false} SweepEmpty(q: Asks)
    requires AsksOk(q)
    ensures Sweep({}, q) == Result({}, q, [])
  {
    if q != [] {
      SweepEmpty(q[1..]);
    }
  }

  /** Every waiter whose condition the set pattern can never meet stays where it is. */
  lemma {:induction false} SweepNobody(ptn: Pattern, q: Asks)
    requires forall w :: w in q ==> !Cond(ptn, w.arg)
    ensures Sweep(ptn, q) == Result(ptn, q, [])
  {
    if q != [] {
      assert q[0] in q;
      SweepNobody(ptn, q[1..]);
    }
  }

  /** When no waiter clears anything, exactly those whose condition holds are released. */
  lemma {:induction false} SweepExact(ptn: Pattern, q: Asks, w: Waiter<Ask>)
    requires forall v :: v in q ==> !v.arg.bitclr && !v.arg.clr
    ensures Sweep(ptn, q).ptn == ptn
    ensures w in Sweep(ptn, q).kept <==> w in q && !Meets(ptn, w.arg)
    ensures Told(w, ptn) in Sweep(ptn, q).freed <==> w in q && Meets(ptn, w.arg)
    decreases |q|
  {
    if q != [] {
      assert q == [q[0]] + q[1..];
      assert q[0] in q;
      CondIs(ptn, q[0].arg);
      SweepExact(ptn, q[1..], w);
    }
  }

  /** The sweep over `q` has come to position `i`. */
  ghost predicate Midway(ptn0: Pattern, q: Asks, i: int, ptn: Pattern, kept: Asks, freed: seq<Told>) {
    && 0 <= i <= |q|
    && var r := Sweep(ptn, q[i..]);
       Sweep(ptn0, q) == Result(r.ptn, kept + r.kept, freed + r.freed)
  }

  lemma MidwayStep(ptn0: Pattern, q: Asks, i: int, ptn: Pattern, kept: Asks, freed: seq<Told>)
    requires Midway(ptn0, q, i, ptn, kept, freed) && i < |q|
    ensures Cond(ptn, q[i].arg) ==> Midway(ptn0, q, i + 1, Cleared(ptn, q[i].arg), kept, freed + [Told(q[i], ptn)])
    ensures !Cond(ptn, q[i].arg) ==> Midway(ptn0, q, i + 1, ptn, kept + [q[i]], freed)
  {
    assert q[i..][1..] == q[i + 1..];
    var r := Sweep(Cleared(ptn, q[i].arg), q[i + 1..]);
    assert freed + ([Told(q[i], ptn)] + r.freed) == freed + [Told(q[i], ptn)] + r.freed;
    var r' := Sweep(ptn, q[i + 1..]);
    assert kept + ([q[i]] + r'.kept) == kept + [q[i]] + r'.kept;
  }

  lemma MidwayStop(ptn0: Pattern, q: Asks, i: int, ptn: Pattern, kept: Asks, freed: seq<Told>)
    requires Midway(ptn0, q, i, ptn, kept, freed) && AsksOk(q) && (i == |q| || ptn == {})
    ensures Sweep(ptn0, q) == Result(ptn, kept + q[i..], freed)
  {
    if ptn == {} { SweepEmpty(q[i..]); }
  }

  // ------------------------------------------------------------------ bit by bit

  /** What TWF_ANDW and TWF_ORW promise: all bits are there, or one is. */
  ghost predicate Meets(p: Pattern, a: Ask) {
    if a.any then exists b :: b in a.bits && b in p else forall b :: b in a.bits ==> b in p
  }

  lemma CondIs(p: Pattern, a: Ask)
    ensures Cond(p, a) <==> Meets(p, a)
  {
    if b :| b in a.bits && b in p { assert b in p * a.bits; }
    if a.any && p * a.bits != {} {
      var b :| b in p * a.bits;
      assert b in a.bits && b in p;
    }
  }

  /** A task with this request takes bit `b` away when it is released. */
  predicate Takes(a: Ask, b: Bit) {
    a.clr || (a.bitclr && b in a.bits)
  }

  /** The bits of `p` that none of the released tasks took away. */
  ghost function Remaining(p: Pattern, freed: seq<Told>): Pattern {
    set b | b in p && forall f :: f in freed ==> !Takes(f.who.arg, b)
  }

  lemma ClearedBits(p: Pattern, a: Ask, b: Bit)
    ensures b in Cleared(p, a) <==> b in p && !Takes(a, b)
  {
  }

  lemma RemainingCons(p: Pattern, x: Told, fs: seq<Told>)
    ensures Remaining(p, [x] + fs) == Remaining(Cleared(p, x.who.arg), fs)
  {
    forall b ensures b in Remaining(p, [x] + fs) <==> b in Remaining(Cleared(p, x.who.arg), fs) {
      ClearedBits(p, x.who.arg, b);
      assert x in [x] + fs;
      assert forall f :: f in fs ==> f in [x] + fs;
      assert forall f :: f in [x] + fs ==> f == x || f in fs;
    }
  }

  /** The waiters released, in the order of the line; the others stay in that order. */
  ghost predicate Apart(q: Asks, kept: Asks, freed: seq<Told>)
    decreases |q|
  {
    if q == [] then kept == [] && freed == []
    else
      || (kept != [] && kept[0] == q[0] && Apart(q[1..], kept[1..], freed))
      || (freed != [] && freed[0].who == q[0] && Apart(q[1..], kept, freed[1..]))
  }

  /** A sweep goes down the line: bits are left exactly if nobody released took them away,
      and every released task was told what those before it had left. */
  lemma {:induction false} SweepBits(ptn: Pattern, q: Asks)
    ensures var r := Sweep(ptn, q);
            && Apart(q, r.kept, r.freed) && r.ptn == Remaining(ptn, r.freed)
            && forall i :: 0 <= i < |r.freed| ==>
                 r.freed[i].ptn == Remaining(ptn, r.freed[..i]) && Meets(r.freed[i].ptn, r.freed[i].who.arg)
    decreases |q|
  {
    var r := Sweep(ptn, q);
    if q == [] {
      assert Remaining(ptn, []) == ptn;
    } else if Cond(ptn, q[0].arg) {
      var x, p' := Told(q[0], ptn), Cleared(ptn, q[0].arg);
      var v := Sweep(p', q[1..]);
      SweepBits(p', q[1..]);
      assert r.freed[1..] == v.freed;
      RemainingCons(ptn, x, v.freed);
      CondIs(ptn, q[0].arg);
      forall i | 0 <= i < |r.freed|
        ensures r.freed[i].ptn == Remaining(ptn, r.freed[..i]) && Meets(r.freed[i].ptn, r.freed[i].who.arg)
      {
        if i == 0 {
          assert Remaining(ptn, []) == ptn;
        } else {
          assert r.freed[i] == v.freed[i - 1] && r.freed[..i] == [x] + v.freed[..i - 1];
          RemainingCons(ptn, x, v.freed[..i - 1]);
        }
      }
    } else {
      SweepBits(ptn, q[1..]);
      assert r.kept[1..] == Sweep(ptn, q[1..]).kept;
    }
  }

  /** The waiter at position `i` is released exactly if its request is met by what those that
      were released before it have left. */
  lemma {:induction false} SweepAt(ptn: Pattern, q: Asks, i: nat)
    requires i < |q|
    ensures var before, r := Sweep(ptn, q[..i]).freed, Sweep(ptn, q);
            var n := |before|;
            && n <= i && n <= |r.freed| && r.freed[..n] == before
            && (if Meets(Remaining(ptn, before), q[i].arg) then n < |r.freed| && r.freed[n].who == q[i]
                else i - n < |r.kept| && r.kept[i - n] == q[i])
    decreases |q|
  {
    var r := Sweep(ptn, q);
    if i == 0 {
      CondIs(ptn, q[0].arg);
      assert q[..0] == [] && Remaining(ptn, []) == ptn;
    } else {
      assert q[..i][0] == q[0] && q[..i][1..] == q[1..][..i - 1];
      if Cond(ptn, q[0].arg) {
        var x, p' := Told(q[0], ptn), Cleared(ptn, q[0].arg);
        SweepAt(p', q[1..], i - 1);
        var b := Sweep(p', q[1..][..i - 1]).freed;
        RemainingCons(ptn, x, b);
        assert Sweep(ptn, q[..i]).freed == [x] + b;
      } else {
        SweepAt(ptn, q[1..], i - 1);
      }
    }
  }

  /** No waiter's request is met: who wants all bits misses one, who wants any misses all. */
  ghost predicate Unmet(f: Flag) {
    forall w :: w in f.queue ==>
      if w.arg.any then forall b :: b in w.arg.bits ==> b !in f.ptn else exists b :: b in w.arg.bits && b !in f.ptn
  }

  lemma NobodyMet(f: Flag)
    requires FlagOk(f)
    ensures Unmet(f)
  {
    forall w | w in f.queue ensures !Meets(f.ptn, w.arg) { CondIs(f.ptn, w.arg); }
  }

  // ------------------------------------------------------------ the calls on values

  /** tk_set_flg. */
  function Set(f: Flag, bits: Pattern): (r: (Flag, seq<Told>)) {
    var v := Sweep(f.ptn + bits, f.queue);
    (f.(ptn := v.ptn, queue := v.kept), v.freed)
  }

  /** tk_clr_flg: only the bits of `keep` stay. */
  function Clear(f: Flag, keep: Pattern): Flag {
    f.(ptn := f.ptn * keep)
  }

  datatype WaitResult = Answer(er: Er, ptn: Pattern) | Blocked

  /** tk_wai_flg. */
  function Wait(f: Flag, t: TaskId, pri: int, a: Ask, poll: bool): (r: (WaitResult, Flag)) {
    if a.bits == {} then (Answer(E_PAR, {}), f)
    else if !f.multi && f.queue != [] then (Answer(E_OBJ, {}), f)
    else if Cond(f.ptn, a) then (Answer(E_OK, f.ptn), f.(ptn := Cleared(f.ptn, a)))
    else if poll then (Answer(E_TMOUT, {}), f)
    else (Blocked, f.(queue := Join(f.tpri, f.queue, Waiter(t, pri, a))))
  }

  lemma SetOk(f: Flag, bits: Pattern)
    requires FlagOk(f)
    ensures FlagOk(Set(f, bits).0)
    ensures forall x :: x in Set(f, bits).1 ==> Meets(x.ptn, x.who.arg) && x.ptn <= f.ptn + bits && x.who in f.queue
    ensures forall w :: w in f.queue ==> w in Set(f, bits).0.queue || Freed(Set(f, bits).1, w)
    ensures Set(f, bits).0.ptn == Remaining(f.ptn + bits, Set(f, bits).1)
    ensures Apart(f.queue, Set(f, bits).0.queue, Set(f, bits).1)
  {
    SweepDone(f.tpri, f.ptn + bits, f.queue);
    SweepBits(f.ptn + bits, f.queue);
    forall x | x in Set(f, bits).1 ensures Meets(x.ptn, x.who.arg) { CondIs(x.ptn, x.who.arg); }
  }

  lemma ClearOk(f: Flag, keep: Pattern)
    requires FlagOk(f)
    ensures FlagOk(Clear(f, keep)) && Clear(f, keep) == f.(ptn := Clear(f, keep).ptn)
    ensures forall b :: b in Clear(f, keep).ptn <==> b in f.ptn && b in keep
  {
    forall w | w in f.queue ensures !Cond(f.ptn * keep, w.arg) {
      CondMonotone(f.ptn, f.ptn * keep, w.arg);
    }
  }

  /** When tk_wai_flg answers what, and what it does: the bits a request takes away are those
      gone after it was met. */
  lemma WaitExact(f: Flag, t: TaskId, pri: int, a: Ask, poll: bool)
    ensures var r := Wait(f, t, pri, a, poll);
            var free := a.bits != {} && (f.multi || f.queue == []);
            && (r.0 == Answer(E_PAR, {}) <==> a.bits == {})
            && (r.0 == Answer(E_OBJ, {}) <==> a.bits != {} && !f.multi && f.queue != [])
            && (r.0.Answer? && r.0.er == E_OK <==> free && Meets(f.ptn, a))
            && (r.0 == Answer(E_TMOUT, {}) <==> free && !Meets(f.ptn, a) && poll)
            && (r.0.Blocked? <==> free && !Meets(f.ptn, a) && !poll)
            && (r.0.Answer? && r.0.er == E_OK ==> r.0.ptn == f.ptn && r.1 == f.(ptn := r.1.ptn)
                                                  && forall b :: b in r.1.ptn <==> b in f.ptn && !Takes(a, b))
            && (r.0.Blocked? ==> r.1 == f.(queue := Join(f.tpri, f.queue, Waiter(t, pri, a))))
            && (r.0.Answer? && r.0.er != E_OK ==> r.1 == f)
  {
    CondIs(f.ptn, a);
  }

  lemma WaitOk(f: Flag, t: TaskId, pri: int, a: Ask, poll: bool)
    requires FlagOk(f) && !Waits(f.queue, t)
    ensures FlagOk(Wait(f, t, pri, a, poll).1)
    ensures var r := Wait(f, t, pri, a, poll);
            && (forall w :: w in r.1.queue <==> w in f.queue || (r.0.Blocked? && w == Waiter(t, pri, a)))
            && (r.0.Answer? && r.0.er == E_OK ==> Meets(r.0.ptn, a) && r.1.ptn <= r.0.ptn == f.ptn)
  {
    JoinLine(f.tpri, f.queue, Waiter(t, pri, a));
    CondIs(f.ptn, a);
    forall w | w in f.queue ensures !Cond(Cleared(f.ptn, a), w.arg) {
      CondMonotone(f.ptn, Cleared(f.ptn, a), w.arg);
    }
  }

  /** A wait that blocked and is given up leaves the flag as it was. */
  lemma GivingUpUndoesWaiting(f: Flag, t: TaskId, pri: int, a: Ask)
    requires !Waits(f.queue, t) && Wait(f, t, pri, a, false).0.Blocked?
    ensures var f' := Wait(f, t, pri, a, false).1; f'.(queue := Leave(f'.queue, t)) == f
  {
    LeaveUndoesJoin(f.tpri, f.queue, Waiter(t, pri, a));
  }

  lemma LeaveOk(f: Flag, t: TaskId)
    requires FlagOk(f) && Waits(f.queue, t)
    ensures FlagOk(f.(queue := Leave(f.queue, t))) && !Waits(Leave(f.queue, t), t)
  {
    LeaveLine(f.tpri, f.queue, t);
    LeaveShort(f.queue, t);
  }

  lemma {:induction false} LeaveShort(q: Asks, t: TaskId)
    ensures |Leave(q, t)| <= |q|
  {
    if q != [] { LeaveShort(q[1..], t); }
  }

  lemma ReorderOk(f: Flag, t: TaskId, p: int)
    requires FlagOk(f) && f.tpri && Waits(f.queue, t)
    ensures FlagOk(f.(queue := Reorder(f.queue, t, p)))
  {
    ReorderLine(f.queue, t, p);
    LeaveOne(f.queue, t);
    assert Find(f.queue, t) in f.queue;
  }

  lemma {:induction false} LeaveOne(q: Asks, t: TaskId)
    requires Waits(q, t)
    ensures |Leave(q, t)| == |q| - 1
  {
    if q[0].tid != t { LeaveOne(q[1..], t); }
  }

  // ----------------------------------------------------------------- every run

  datatype Call =
    | SetBits(bits: Pattern)
    | ClearBits(keep: Pattern)
    | WaitFor(t: TaskId, pri: int, a: Ask, poll: bool)
    | Release(t: TaskId)
    | ChgPri(t: TaskId, p: int)

  ghost predicate Legal(f: Flag, c: Call) {
    match c
    case SetBits(_) => true
    case ClearBits(_) => true
    case WaitFor(t, _, _, _) => !Waits(f.queue, t)
    case Release(t) => Waits(f.queue, t)
    case ChgPri(t, _) => f.tpri && Waits(f.queue, t)
  }

  ghost function Do(f: Flag, c: Call): Flag
    requires Legal(f, c)
  {
    match c
    case SetBits(bits) => Set(f, bits).0
    case ClearBits(keep) => Clear(f, keep)
    case WaitFor(t, pri, a, poll) => Wait(f, t, pri, a, poll).1
    case Release(t) => f.(queue := Leave(f.queue, t))
    case ChgPri(t, p) => f.(queue := Reorder(f.queue, t, p))
  }

  ghost predicate Reachable(f: Flag, cs: seq<Call>, f': Flag)
    decreases |cs|
  {
    if cs == [] then f' == f else Legal(f, cs[0]) && Reachable(Do(f, cs[0]), cs[1..], f')
  }

  /** Over every run no waiter's request is met between two calls. */
  lemma {:induction false} EveryRun(f: Flag, cs: seq<Call>, f': Flag)
    requires FlagOk(f) && Reachable(f, cs, f')
    ensures FlagOk(f') && Unmet(f')
    decreases |cs|
  {
    NobodyMet(f);
    if cs != [] {
      match cs[0] {
        case SetBits(bits) => SetOk(f, bits);
        case ClearBits(keep) => ClearOk(f, keep);
        case WaitFor(t, pri, a, poll) => WaitOk(f, t, pri, a, poll);
        case Release(t) => LeaveOk(f, t);
        case ChgPri(t, p) => ReorderOk(f, t, p);
      }
      EveryRun(Do(f, cs[0]), cs[1..], f');
    }
  }

  // ----------------------------------------------------------- the control block

  class FlagControl {
    var flgptn: Pattern
    const multi: bool
    const tpri: bool
    var queue: Asks

    ghost function State(): Flag
      reads this
    {
      Flag(flgptn, multi, tpri, queue)
    }

    constructor (iflgptn: Pattern, multi: bool, tpri: bool)
      ensures State() == Flag(iflgptn, multi, tpri, []) && FlagOk(State())
    {
      flgptn, queue := iflgptn, [];
      this.multi, this.tpri := multi, tpri;
    }

    method TkSetFlg(setptn: Pattern) returns (freed: seq<Told>)
      requires FlagOk(State())
      modifies this
      ensures FlagOk(State()) && (State(), freed) == Set(old(State()), setptn)
      ensures Unmet(State()) && forall x :: x in freed ==> Meets(x.ptn, x.who.arg)
    {
      SetOk(State(), setptn);
      NobodyMet(Set(State(), setptn).0);
      flgptn := flgptn + setptn;
      freed := FreeWaiters();
    }

    /** The loop of tk_set_flg, with its two early exits. */
    method FreeWaiters() returns (freed: seq<Told>)
      requires AsksOk(queue)
      modifies this
      ensures Result(flgptn, queue, freed) == Sweep(old(flgptn), old(queue))
    {
      var q, kept, i := queue, [], 0;
      freed := [];
      while i < |q|
        invariant Midway(old(flgptn), q, i, flgptn, kept, freed)
        decreases |q| - i
      {
        MidwayStep(old(flgptn), q, i, flgptn, kept, freed);
        var a := q[i].arg;
        if Cond(flgptn, a) {
          freed := freed + [Told(q[i], flgptn)];
          i := i + 1;
          if a.bitclr {
            flgptn := flgptn - a.bits;
            if flgptn == {} { break; }
          }
          if a.clr {
            flgptn := {};
            break;
          }
        } else {
          kept := kept + [q[i]];
          i := i + 1;
        }
      }
      MidwayStop(old(flgptn), q, i, flgptn, kept, freed);
      queue := kept + q[i..];
    }

    method TkClrFlg(clrptn: Pattern)
      requires FlagOk(State())
      modifies this
      ensures FlagOk(State()) && State() == Clear(old(State()), clrptn)
    {
      ClearOk(State(), clrptn);
      flgptn := flgptn * clrptn;
    }

    method TkWaiFlg(t: TaskId, pri: int, a: Ask, poll: bool) returns (r: WaitResult)
      requires FlagOk(State()) && !Waits(queue, t)
      modifies this
      ensures FlagOk(State()) && (r, State()) == Wait(old(State()), t, pri, a, poll)
      ensures Unmet(State()) && (r.Answer? && r.er == E_OK ==> Meets(r.ptn, a))
    {
      WaitOk(State(), t, pri, a, poll);
      NobodyMet(Wait(State(), t, pri, a, poll).1);
      if a.bits == {} { return Answer(E_PAR, {}); }
      if !multi && queue != [] { return Answer(E_OBJ, {}); }
      if Cond(flgptn, a) {
        r := Answer(E_OK, flgptn);
        if a.bitclr { flgptn := flgptn - a.bits; }
        if a.clr { flgptn := {}; }
      } else if poll {
        r := Answer(E_TMOUT, {});
      } else {
        queue := Join(tpri, queue, Waiter(t, pri, a));
        r := Blocked;
      }
    }
  }
}
