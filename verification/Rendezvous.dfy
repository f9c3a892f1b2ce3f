/** Rendezvous ports (rendezvous.c, rendezvous.h): call, accept, forward and reply. */
module Rendezvous {
  import opened Common
  import opened WaitQueue

  type PorId = nat
  type Msg = seq<int>

  /** What a waiting task offers: its pattern and, for a caller, its message. */
  datatype Ask = Ask(ptn: Pattern, msg: Msg)

  type Line = seq<Waiter<Ask>>

  datatype Port = Port(tpri: bool, maxcmsz: int, maxrmsz: int, callq: Line, acceptq: Line)

  /** What a task waits for, as its wspec, wid and winfo say: to be accepted at a port, for
      a call at a port, or for the reply to the rendezvous `no`. */
  datatype Place = Elsewhere | OnCall(p: PorId) | OnAccept(p: PorId) | OnEnd(no: int, maxr: int)

  /** `wno` is wrdvno, the next rendezvous number of the task. */
  datatype Tcb = Tcb(wno: int, at: Place)

  datatype State = State(ports: map<PorId, Port>, tcb: map<TaskId, Tcb>)

  const SHIFT := 0x1_0000

  /** knl_get_tskid_rdvno. */
  function TskidOf(no: int): nat { no % SHIFT }

  /** What knl_gen_rdvno leaves in wrdvno. */
  function NextNo(no: int): int { (no + SHIFT) % WORD }

  predicate Meets(a: Pattern, b: Pattern) { a * b != {} }

  // ------------------------------------------------------------------ invariant

  /** A task's numbers name the task, and the number it waits on is the last one issued. */
  predicate NumbersOk(t: TaskId, c: Tcb) {
    && 0 < t < SHIFT && 0 <= c.wno < WORD && TskidOf(c.wno) == t
    && (c.at.OnEnd? ==> 0 <= c.at.no < WORD && NextNo(c.at.no) == c.wno && TskidOf(c.at.no) == t)
  }

  /** Both lines are in order, and no waiting caller meets a waiting acceptor. */
  ghost predicate PortOk(x: Port) {
    && WaitQueue.Line(x.tpri, x.callq) && WaitQueue.Line(false, x.acceptq)
    && (forall c, a {:trigger Pair(x, c, a)} :: Pair(x, c, a) ==> !Meets(c.arg.ptn, a.arg.ptn))
  }

  predicate Pair(x: Port, c: Waiter<Ask>, a: Waiter<Ask>) {
    c in x.callq && a in x.acceptq
  }

  /** Who is in the lines of port `p` is what the task control blocks say. */
  ghost predicate Linked(p: PorId, x: Port, tcb: map<TaskId, Tcb>) {
    && (forall t {:trigger Waits(x.callq, t)} :: Waits(x.callq, t) <==> t in tcb && tcb[t].at == OnCall(p))
    && (forall t {:trigger Waits(x.acceptq, t)} :: Waits(x.acceptq, t) <==> t in tcb && tcb[t].at == OnAccept(p))
  }

  ghost predicate Ok(s: State) {
    && (forall t :: t in s.tcb ==> NumbersOk(t, s.tcb[t]))
    && (forall p :: p in s.ports ==> PortOk(s.ports[p]) && Linked(p, s.ports[p], s.tcb))
    && (forall t :: t in s.tcb && (s.tcb[t].at.OnCall? || s.tcb[t].at.OnAccept?) ==> s.tcb[t].at.p in s.ports)
  }

  /** The place is a line of another port than `p`. */
  predicate Away(at: Place, p: PorId) {
    (at.OnCall? || at.OnAccept?) && at.p != p
  }

  /** A step that changes port `p` to `x` and moves tasks to and from it only. */
  lemma StepAt(s: State, p: PorId, x: Port, tcb': map<TaskId, Tcb>)
    requires Ok(s) && p in s.ports && PortOk(x) && Linked(p, x, tcb') && tcb'.Keys == s.tcb.Keys
    requires forall t :: t in tcb' ==> NumbersOk(t, tcb'[t])
    requires forall t :: t in tcb' ==> tcb'[t].at == s.tcb[t].at || (!Away(s.tcb[t].at, p) && !Away(tcb'[t].at, p))
    ensures Ok(State(s.ports[p := x], tcb'))
  {
    var s' := State(s.ports[p := x], tcb');
    forall q | q in s'.ports && q != p ensures Linked(q, s'.ports[q], tcb') {
      var y := s.ports[q];
      forall t ensures Waits(y.callq, t) <==> t in tcb' && tcb'[t].at == OnCall(q) { assert t in tcb' <==> t in s.tcb; }
      forall t ensures Waits(y.acceptq, t) <==> t in tcb' && tcb'[t].at == OnAccept(q) {
        assert t in tcb' <==> t in s.tcb;
      }
    }
  }

  lemma NumberStep(t: TaskId, no: int)
    requires 0 < t < SHIFT && 0 <= no < WORD && TskidOf(no) == t
    ensures 0 <= NextNo(no) < WORD && TskidOf(NextNo(no)) == t
  {
    if no + SHIFT >= WORD {
      assert NextNo(no) == no + SHIFT - WORD;
      assert no + SHIFT - WORD == no - 0xFFFF * SHIFT;
    }
  }

  // ------------------------------------------------------------------ searching

  /** The first of the line whose pattern meets `ptn`. */
  function FirstMatch(q: Line, ptn: Pattern): (k: nat)
    ensures k <= |q| && (forall i :: 0 <= i < k ==> !Meets(q[i].arg.ptn, ptn)) && (k < |q| ==> Meets(q[k].arg.ptn, ptn))
  {
    if q == [] || Meets(q[0].arg.ptn, ptn) then 0 else 1 + FirstMatch(q[1..], ptn)
  }

  lemma FoundLeaves(tpri: bool, q: Line, k: nat)
    requires WaitQueue.Line(tpri, q) && k < |q|
    ensures Waits(q, q[k].tid) && WaitQueue.Line(tpri, Leave(q, q[k].tid)) && !Waits(Leave(q, q[k].tid), q[k].tid)
    ensures forall u :: u != q[k].tid ==> (Waits(Leave(q, q[k].tid), u) <==> Waits(q, u))
  {
    var t := q[k].tid;
    assert q[k] in q;
    LeftWaits(tpri, q, t);
  }

  lemma LeftWaits(tpri: bool, q: Line, t: TaskId)
    requires WaitQueue.Line(tpri, q)
    ensures WaitQueue.Line(tpri, Leave(q, t)) && !Waits(Leave(q, t), t)
    ensures forall u :: u != t ==> (Waits(Leave(q, t), u) <==> Waits(q, u))
  {
    LeaveLine(tpri, q, t);
    forall u | u != t && Waits(q, u) ensures Waits(Leave(q, t), u) {
      var w :| w in q && w.tid == u;
      assert w in Leave(q, t);
    }
  }

  lemma JoinedWaits(tpri: bool, q: Line, w: Waiter<Ask>)
    requires WaitQueue.Line(tpri, q) && !Waits(q, w.tid)
    ensures WaitQueue.Line(tpri, Join(tpri, q, w))
    ensures forall u :: Waits(Join(tpri, q, w), u) <==> u == w.tid || Waits(q, u)
    ensures forall v :: v in Join(tpri, q, w) <==> v == w || v in q
  {
    JoinLine(tpri, q, w);
    assert w in Join(tpri, q, w);
    forall u | Waits(q, u) ensures Waits(Join(tpri, q, w), u) {
      var v :| v in q && v.tid == u;
      assert v in Join(tpri, q, w);
    }
  }

  // ------------------------------------------------------------- the system calls

  /** What a call leads to: an answer, a wait in a line, a rendezvous with the acceptor `to`,
      who gets the number and the message, or, for an acceptor, a call it got. */
  datatype Outcome =
    | Answer(er: Er)
    | Blocked
    | Met(to: TaskId, no: int, msg: Msg)
    | Got(no: int, msg: Msg)
    | Replied(msg: Msg)
    | Created(p: PorId)

  /** The caller `c`, with `msg`, meets the acceptor at position `k` of port `p`. */
  function Meeting(s: State, c: TaskId, p: PorId, k: nat, msg: Msg): (Outcome, State)
    requires p in s.ports && k < |s.ports[p].acceptq| && c in s.tcb && s.ports[p].acceptq[k].tid in s.tcb
  {
    var x := s.ports[p];
    var a := x.acceptq[k].tid;
    var no := s.tcb[c].wno;
    var tcb := s.tcb[a := s.tcb[a].(at := Elsewhere)][c := Tcb(NextNo(no), OnEnd(no, x.maxrmsz))];
    (Met(a, no, msg), State(s.ports[p := x.(acceptq := Leave(x.acceptq, a))], tcb))
  }

  /** The caller `c` joins the call line of port `p`. */
  function Queueing(s: State, c: TaskId, pri: int, p: PorId, ask: Ask): State
    requires p in s.ports && c in s.tcb
  {
    var x := s.ports[p];
    State(s.ports[p := x.(callq := Join(x.tpri, x.callq, Waiter(c, pri, ask)))], s.tcb[c := s.tcb[c].(at := OnCall(p))])
  }

  /** Tasks in a line have a control block. */
  ghost predicate Known(s: State) {
    forall p, w :: p in s.ports && w in s.ports[p].acceptq + s.ports[p].callq ==> w.tid in s.tcb
  }

  /** tk_cal_por by task `t` of priority `pri`. */
  ghost function CalPor(s: State, t: TaskId, pri: int, p: PorId, ptn: Pattern, msg: Msg, poll: bool): (Outcome, State)
    requires t in s.tcb && Known(s)
  {
    if ptn == {} then (Answer(E_PAR), s)
    else if p !in s.ports then (Answer(E_NOEXS), s)
    else if |msg| > s.ports[p].maxcmsz then (Answer(E_PAR), s)
    else
      var k := FirstMatch(s.ports[p].acceptq, ptn);
      if k < |s.ports[p].acceptq| then
        assert s.ports[p].acceptq[k] in s.ports[p].acceptq + s.ports[p].callq;
        Meeting(s, t, p, k, msg)
      else if poll then (Answer(E_TMOUT), s)
      else (Blocked, Queueing(s, t, pri, p, Ask(ptn, msg)))
  }

  /** tk_acp_por by task `t`. */
  ghost function AcpPor(s: State, t: TaskId, p: PorId, ptn: Pattern, poll: bool): (Outcome, State)
    requires t in s.tcb && Known(s)
  {
    if ptn == {} then (Answer(E_PAR), s)
    else if p !in s.ports then (Answer(E_NOEXS), s)
    else
      var x := s.ports[p];
      var k := FirstMatch(x.callq, ptn);
      if k < |x.callq| then
        assert x.callq[k] in x.acceptq + x.callq;
        var c := x.callq[k].tid;
        var no := s.tcb[c].wno;
        (Got(no, x.callq[k].arg.msg),
         State(s.ports[p := x.(callq := Leave(x.callq, c))], s.tcb[c := Tcb(NextNo(no), OnEnd(no, x.maxrmsz))]))
      else if poll then (Answer(E_TMOUT), s)
      else
        (Blocked, State(s.ports[p := x.(acceptq := Join(false, x.acceptq, Waiter(t, 0, Ask(ptn, []))))],
                        s.tcb[t := s.tcb[t].(at := OnAccept(p))]))
  }

  /** The rendezvous `no` is open. */
  predicate Open(s: State, no: int) {
    TskidOf(no) in s.tcb && s.tcb[TskidOf(no)].at.OnEnd? && s.tcb[TskidOf(no)].at.no == no
  }

  /** tk_fwd_por; `pri` is the priority of the caller of the rendezvous. */
  ghost function FwdPor(s: State, p: PorId, ptn: Pattern, no: int, msg: Msg, pri: int): (Outcome, State)
    requires Known(s)
  {
    if ptn == {} then (Answer(E_PAR), s)
    else if TskidOf(no) !in s.tcb then (Answer(E_OBJ), s)
    else if p !in s.ports then (Answer(E_NOEXS), s)
    else if |msg| > s.ports[p].maxcmsz then (Answer(E_PAR), s)
    else if !Open(s, no) then (Answer(E_OBJ), s)
    else
      var c := TskidOf(no);
      if s.ports[p].maxrmsz > s.tcb[c].at.maxr then (Answer(E_OBJ), s)
      else if |msg| > s.tcb[c].at.maxr then (Answer(E_PAR), s)
      else
        var k := FirstMatch(s.ports[p].acceptq, ptn);
        if k < |s.ports[p].acceptq| then
          assert s.ports[p].acceptq[k] in s.ports[p].acceptq + s.ports[p].callq;
          Meeting(s, c, p, k, msg)
        else (Answer(E_OK), Queueing(s, c, pri, p, Ask(ptn, msg)))
  }

  /** tk_rpl_rdv. */
  ghost function RplRdv(s: State, no: int, msg: Msg): (Outcome, State) {
    if !Open(s, no) then (Answer(E_OBJ), s)
    else
      var c := TskidOf(no);
      if |msg| > s.tcb[c].at.maxr then (Answer(E_PAR), s)
      else (Replied(msg), State(s.ports, s.tcb[c := s.tcb[c].(at := Elsewhere)]))
  }

  /** A waiting task is released by timeout or tk_rel_wai. */
  ghost function Release(s: State, t: TaskId): State
    requires t in s.tcb
  {
    var tcb := s.tcb[t := s.tcb[t].(at := Elsewhere)];
    match s.tcb[t].at
    case OnCall(p) =>
      if p !in s.ports then s else State(s.ports[p := s.ports[p].(callq := Leave(s.ports[p].callq, t))], tcb)
    case OnAccept(p) =>
      if p !in s.ports then s else State(s.ports[p := s.ports[p].(acceptq := Leave(s.ports[p].acceptq, t))], tcb)
    case _ => State(s.ports, tcb)
  }

  /** cal_chg_pri. */
  ghost function ChangePriority(s: State, t: TaskId, pri: int): State {
    if t in s.tcb && s.tcb[t].at.OnCall? && s.tcb[t].at.p in s.ports && Waits(s.ports[s.tcb[t].at.p].callq, t) then
      var p := s.tcb[t].at.p;
      var x := s.ports[p];
      if x.tpri then State(s.ports[p := x.(callq := Reorder(x.callq, t, pri))], s.tcb) else s
    else s
  }

  /** tk_cre_por; `slot` is the control block that is free, if there is one. */
  function CrePor(s: State, slot: Option<PorId>, tpri: bool, maxcmsz: int, maxrmsz: int): (Outcome, State) {
    if maxcmsz < 0 || maxrmsz < 0 then (Answer(E_PAR), s)
    else match slot
      case None => (Answer(E_LIMIT), s)
      case Some(p) => (Created(p), s.(ports := s.ports[p := Port(tpri, maxcmsz, maxrmsz, [], [])]))
  }

  /** A task that does not wait at port `p` any more. */
  function Dismissed(c: Tcb, p: PorId): Tcb {
    if c.at == OnCall(p) || c.at == OnAccept(p) then c.(at := Elsewhere) else c
  }

  /** tk_del_por: everybody in its lines is released; open rendezvous go on. */
  function DelPor(s: State, p: PorId): (Outcome, State) {
    if p !in s.ports then (Answer(E_NOEXS), s)
    else (Answer(E_OK), State(s.ports - {p}, map t | t in s.tcb :: Dismissed(s.tcb[t], p)))
  }

  // -------------------------------------------------------------- what they keep

  lemma OkKnown(s: State)
    requires Ok(s)
    ensures Known(s)
  {
    forall p, w | p in s.ports && w in s.ports[p].acceptq + s.ports[p].callq ensures w.tid in s.tcb {
      if w in s.ports[p].callq {
        assert Waits(s.ports[p].callq, w.tid);
      } else {
        assert Waits(s.ports[p].acceptq, w.tid);
      }
    }
  }

  /** A pattern that meets nobody in the accept line may join the call line. */
  lemma JoinCall(x: Port, w: Waiter<Ask>)
    requires PortOk(x) && !Waits(x.callq, w.tid) && FirstMatch(x.acceptq, w.arg.ptn) == |x.acceptq|
    ensures PortOk(x.(callq := Join(x.tpri, x.callq, w)))
  {
    JoinedWaits(x.tpri, x.callq, w);
    var x' := x.(callq := Join(x.tpri, x.callq, w));
    forall c, a | Pair(x', c, a) ensures !Meets(c.arg.ptn, a.arg.ptn) {
      if c == w {
        var i :| 0 <= i < |x.acceptq| && x.acceptq[i] == a;
        assert a.arg.ptn * w.arg.ptn == w.arg.ptn * a.arg.ptn;
        assert !Meets(a.arg.ptn, w.arg.ptn);
      } else {
        assert Pair(x, c, a);
      }
    }
  }

  lemma JoinAccept(x: Port, w: Waiter<Ask>)
    requires PortOk(x) && !Waits(x.acceptq, w.tid) && FirstMatch(x.callq, w.arg.ptn) == |x.callq|
    ensures PortOk(x.(acceptq := Join(false, x.acceptq, w)))
  {
    JoinedWaits(false, x.acceptq, w);
    var x' := x.(acceptq := Join(false, x.acceptq, w));
    forall c, a | Pair(x', c, a) ensures !Meets(c.arg.ptn, a.arg.ptn) {
      if a == w {
        var i :| 0 <= i < |x.callq| && x.callq[i] == c;
      } else {
        assert Pair(x, c, a);
      }
    }
  }

  lemma FewerOk(x: Port, callq: Line, acceptq: Line)
    requires PortOk(x) && WaitQueue.Line(x.tpri, callq) && WaitQueue.Line(false, acceptq)
    requires (forall w :: w in callq ==> w in x.callq) && (forall w :: w in acceptq ==> w in x.acceptq)
    ensures PortOk(x.(callq := callq, acceptq := acceptq))
  {
    var x' := x.(callq := callq, acceptq := acceptq);
    forall c, a | Pair(x', c, a) ensures !Meets(c.arg.ptn, a.arg.ptn) {
      assert Pair(x, c, a);
    }
  }

  lemma MeetingOk(s: State, c: TaskId, p: PorId, k: nat, msg: Msg)
    requires Ok(s) && p in s.ports && k < |s.ports[p].acceptq| && c in s.tcb
             && (s.tcb[c].at.Elsewhere? || s.tcb[c].at.OnEnd?)
    ensures s.ports[p].acceptq[k].tid in s.tcb && Ok(Meeting(s, c, p, k, msg).1)
  {
    var x := s.ports[p];
    var a := x.acceptq[k].tid;
    FoundLeaves(false, x.acceptq, k);
    assert s.tcb[a].at == OnAccept(p);
    var s' := Meeting(s, c, p, k, msg).1;
    var x' := x.(acceptq := Leave(x.acceptq, a));
    FewerOk(x, x.callq, Leave(x.acceptq, a));
    assert x' == x.(callq := x.callq, acceptq := Leave(x.acceptq, a));
    assert NumbersOk(c, s.tcb[c]);
    NumberStep(c, s.tcb[c].wno);
    StepAt(s, p, x', s'.tcb);
  }

  lemma QueueingOk(s: State, c: TaskId, pri: int, p: PorId, ask: Ask)
    requires Ok(s) && p in s.ports && c in s.tcb && (s.tcb[c].at.Elsewhere? || s.tcb[c].at.OnEnd?)
    requires FirstMatch(s.ports[p].acceptq, ask.ptn) == |s.ports[p].acceptq|
    ensures Ok(Queueing(s, c, pri, p, ask))
  {
    var x := s.ports[p];
    var w := Waiter(c, pri, ask);
    JoinCall(x, w);
    JoinedWaits(x.tpri, x.callq, w);
    var s' := Queueing(s, c, pri, p, ask);
    StepAt(s, p, s'.ports[p], s'.tcb);
  }

  lemma CalPorOk(s: State, t: TaskId, pri: int, p: PorId, ptn: Pattern, msg: Msg, poll: bool)
    requires Ok(s) && t in s.tcb && s.tcb[t].at == Elsewhere
    ensures Known(s) && Ok(CalPor(s, t, pri, p, ptn, msg, poll).1)
  {
    OkKnown(s);
    if p in s.ports {
      var k := FirstMatch(s.ports[p].acceptq, ptn);
      if k < |s.ports[p].acceptq| { MeetingOk(s, t, p, k, msg); } else { QueueingOk(s, t, pri, p, Ask(ptn, msg)); }
    }
  }

  lemma FwdPorOk(s: State, p: PorId, ptn: Pattern, no: int, msg: Msg, pri: int)
    requires Ok(s)
    ensures Known(s) && Ok(FwdPor(s, p, ptn, no, msg, pri).1)
  {
    OkKnown(s);
    if p in s.ports && Open(s, no) {
      var k := FirstMatch(s.ports[p].acceptq, ptn);
      if k < |s.ports[p].acceptq| {
        MeetingOk(s, TskidOf(no), p, k, msg);
      } else {
        QueueingOk(s, TskidOf(no), pri, p, Ask(ptn, msg));
      }
    }
  }

  lemma AcpPorOk(s: State, t: TaskId, p: PorId, ptn: Pattern, poll: bool)
    requires Ok(s) && t in s.tcb && s.tcb[t].at == Elsewhere
    ensures Known(s) && Ok(AcpPor(s, t, p, ptn, poll).1)
  {
    OkKnown(s);
    if p in s.ports {
      var x := s.ports[p];
      var k := FirstMatch(x.callq, ptn);
      if k < |x.callq| { AcceptedOk(s, p, k); } else { AcceptWaitOk(s, t, p, ptn); }
    }
  }

  lemma AcceptedOk(s: State, p: PorId, k: nat)
    requires Ok(s) && p in s.ports && k < |s.ports[p].callq|
    ensures var x := s.ports[p]; var c := x.callq[k].tid;
            && c in s.tcb
            && Ok(State(s.ports[p := x.(callq := Leave(x.callq, c))],
                        s.tcb[c := Tcb(NextNo(s.tcb[c].wno), OnEnd(s.tcb[c].wno, x.maxrmsz))]))
  {
    var x := s.ports[p];
    var c := x.callq[k].tid;
    FoundLeaves(x.tpri, x.callq, k);
    assert s.tcb[c].at == OnCall(p);
    FewerOk(x, Leave(x.callq, c), x.acceptq);
    var x' := x.(callq := Leave(x.callq, c));
    assert x' == x.(callq := Leave(x.callq, c), acceptq := x.acceptq);
    assert NumbersOk(c, s.tcb[c]);
    NumberStep(c, s.tcb[c].wno);
    StepAt(s, p, x', s.tcb[c := Tcb(NextNo(s.tcb[c].wno), OnEnd(s.tcb[c].wno, x.maxrmsz))]);
  }

  lemma AcceptWaitOk(s: State, t: TaskId, p: PorId, ptn: Pattern)
    requires Ok(s) && p in s.ports && t in s.tcb && s.tcb[t].at == Elsewhere
    requires FirstMatch(s.ports[p].callq, ptn) == |s.ports[p].callq|
    ensures var x := s.ports[p];
            Ok(State(s.ports[p := x.(acceptq := Join(false, x.acceptq, Waiter(t, 0, Ask(ptn, []))))],
                     s.tcb[t := s.tcb[t].(at := OnAccept(p))]))
  {
    var x := s.ports[p];
    var w := Waiter(t, 0, Ask(ptn, []));
    JoinAccept(x, w);
    JoinedWaits(false, x.acceptq, w);
    StepAt(s, p, x.(acceptq := Join(false, x.acceptq, w)), s.tcb[t := s.tcb[t].(at := OnAccept(p))]);
  }

  /** Changes of tasks that are in no line. */
  lemma NowhereOk(s: State, t: TaskId)
    requires Ok(s) && t in s.tcb && (s.tcb[t].at.Elsewhere? || s.tcb[t].at.OnEnd?)
    ensures Ok(State(s.ports, s.tcb[t := s.tcb[t].(at := Elsewhere)]))
  {
    var tcb' := s.tcb[t := s.tcb[t].(at := Elsewhere)];
    forall q | q in s.ports ensures Linked(q, s.ports[q], tcb') {
      var y := s.ports[q];
      forall u ensures Waits(y.callq, u) <==> u in tcb' && tcb'[u].at == OnCall(q) { }
      forall u ensures Waits(y.acceptq, u) <==> u in tcb' && tcb'[u].at == OnAccept(q) { }
    }
  }

  lemma RplRdvOk(s: State, no: int, msg: Msg)
    requires Ok(s)
    ensures Ok(RplRdv(s, no, msg).1)
  {
    if Open(s, no) { NowhereOk(s, TskidOf(no)); }
  }

  lemma ReleaseOk(s: State, t: TaskId)
    requires Ok(s) && t in s.tcb
    ensures Ok(Release(s, t)) && Release(s, t).tcb[t].at == Elsewhere
  {
    var at, tcb := s.tcb[t].at, s.tcb[t := s.tcb[t].(at := Elsewhere)];
    assert NumbersOk(t, s.tcb[t]);
    if at.OnCall? {
      var x := s.ports[at.p];
      LeftWaits(x.tpri, x.callq, t);
      FewerOk(x, Leave(x.callq, t), x.acceptq);
      assert x.(callq := Leave(x.callq, t)) == x.(callq := Leave(x.callq, t), acceptq := x.acceptq);
      StepAt(s, at.p, x.(callq := Leave(x.callq, t)), tcb);
    } else if at.OnAccept? {
      var x := s.ports[at.p];
      LeftWaits(false, x.acceptq, t);
      FewerOk(x, x.callq, Leave(x.acceptq, t));
      assert x.(acceptq := Leave(x.acceptq, t)) == x.(callq := x.callq, acceptq := Leave(x.acceptq, t));
      StepAt(s, at.p, x.(acceptq := Leave(x.acceptq, t)), tcb);
    } else {
      NowhereOk(s, t);
    }
  }

  lemma ChangePriorityOk(s: State, t: TaskId, pri: int)
    requires Ok(s)
    ensures Ok(ChangePriority(s, t, pri))
  {
    if t in s.tcb && s.tcb[t].at.OnCall? {
      var p := s.tcb[t].at.p;
      var x := s.ports[p];
      if x.tpri && Waits(x.callq, t) {
        ReorderLine(x.callq, t, pri);
        var q := Reorder(x.callq, t, pri);
        var x' := x.(callq := q);
        assert Find(x.callq, t) in x.callq;
        forall c, a | Pair(x', c, a) ensures !Meets(c.arg.ptn, a.arg.ptn) {
          assert Pair(x, if c.tid == t then Find(x.callq, t) else c, a);
        }
        forall u | Waits(x.callq, u) && u != t ensures Waits(q, u) {
          var w :| w in x.callq && w.tid == u;
          assert w in q;
        }
        forall u | Waits(q, u) ensures Waits(x.callq, u) { }
        StepAt(s, p, x', s.tcb);
      }
    }
  }

  lemma CrePorOk(s: State, slot: Option<PorId>, tpri: bool, maxcmsz: int, maxrmsz: int)
    requires Ok(s) && (slot.Some? ==> slot.value !in s.ports)
    ensures Ok(CrePor(s, slot, tpri, maxcmsz, maxrmsz).1)
  {
    if slot.Some? {
      var x := Port(tpri, maxcmsz, maxrmsz, [], []);
      forall t ensures !Waits(x.callq, t) && !Waits(x.acceptq, t) { }
    }
  }

  lemma DelPorOk(s: State, p: PorId)
    requires Ok(s)
    ensures Ok(DelPor(s, p).1)
  {
    var s' := DelPor(s, p).1;
    if p in s.ports {
      forall t | t in s'.tcb ensures NumbersOk(t, s'.tcb[t]) { assert NumbersOk(t, s.tcb[t]); }
      forall q | q in s'.ports ensures Linked(q, s'.ports[q], s'.tcb) {
        var y := s.ports[q];
        forall t ensures Waits(y.callq, t) <==> t in s'.tcb && s'.tcb[t].at == OnCall(q) { }
        forall t ensures Waits(y.acceptq, t) <==> t in s'.tcb && s'.tcb[t].at == OnAccept(q) { }
      }
    }
  }

  // ------------------------------------------------------------------- every run

  datatype Call =
    | Cal(t: TaskId, pri: int, p: PorId, ptn: Pattern, msg: Msg, poll: bool)
    | Acp(t: TaskId, p: PorId, ptn: Pattern, poll: bool)
    | Fwd(p: PorId, ptn: Pattern, no: int, msg: Msg, pri: int)
    | Rpl(no: int, msg: Msg)
    | Rel(t: TaskId)
    | Chg(t: TaskId, pri: int)
    | Cre(slot: Option<PorId>, tpri: bool, maxcmsz: int, maxrmsz: int)
    | Del(p: PorId)

  /** A waiting task makes no calls; a free control block is not in use. */
  ghost predicate Legal(s: State, c: Call) {
    match c
    case Cal(t, _, _, _, _, _) => t in s.tcb && s.tcb[t].at == Elsewhere
    case Acp(t, _, _, _) => t in s.tcb && s.tcb[t].at == Elsewhere
    case Rel(t) => t in s.tcb && s.tcb[t].at != Elsewhere
    case Cre(slot, _, _, _) => slot.Some? ==> slot.value !in s.ports
    case _ => true
  }

  ghost function Do(s: State, c: Call): State
    requires Known(s) && Legal(s, c)
  {
    match c
    case Cal(t, pri, p, ptn, msg, poll) => CalPor(s, t, pri, p, ptn, msg, poll).1
    case Acp(t, p, ptn, poll) => AcpPor(s, t, p, ptn, poll).1
    case Fwd(p, ptn, no, msg, pri) => FwdPor(s, p, ptn, no, msg, pri).1
    case Rpl(no, msg) => RplRdv(s, no, msg).1
    case Rel(t) => Release(s, t)
    case Chg(t, pri) => ChangePriority(s, t, pri)
    case Cre(slot, tpri, maxcmsz, maxrmsz) => CrePor(s, slot, tpri, maxcmsz, maxrmsz).1
    case Del(p) => DelPor(s, p).1
  }

  lemma StepOk(s: State, c: Call)
    requires Ok(s) && Legal(s, c)
    ensures Known(s) && Ok(Do(s, c))
  {
    OkKnown(s);
    match c {
      case Cal(t, pri, p, ptn, msg, poll) => CalPorOk(s, t, pri, p, ptn, msg, poll);
      case Acp(t, p, ptn, poll) => AcpPorOk(s, t, p, ptn, poll);
      case Fwd(p, ptn, no, msg, pri) => FwdPorOk(s, p, ptn, no, msg, pri);
      case Rpl(no, msg) => RplRdvOk(s, no, msg);
      case Rel(t) => ReleaseOk(s, t);
      case Chg(t, pri) => ChangePriorityOk(s, t, pri);
      case Cre(slot, tpri, maxcmsz, maxrmsz) => CrePorOk(s, slot, tpri, maxcmsz, maxrmsz);
      case Del(p) => DelPorOk(s, p);
    }
  }

  /** The states of a run, first to last. */
  ghost predicate IsRun(ss: seq<State>, cs: seq<Call>) {
    && |ss| == |cs| + 1
    && forall i :: 0 <= i < |cs| ==> Known(ss[i]) && Legal(ss[i], cs[i]) && ss[i + 1] == Do(ss[i], cs[i])
  }

  lemma {:induction false} EveryRun(ss: seq<State>, cs: seq<Call>, n: nat)
    requires IsRun(ss, cs) && Ok(ss[0]) && n < |ss|
    ensures Ok(ss[n])
  {
    if n > 0 {
      EveryRun(ss, cs, n - 1);
      StepOk(ss[n - 1], cs[n - 1]);
    }
  }

  /** In no state of any run do a caller and an acceptor with overlapping patterns wait
      at the same port. */
  lemma NoMissedMeeting(ss: seq<State>, cs: seq<Call>, n: nat, p: PorId, c: Waiter<Ask>, a: Waiter<Ask>)
    requires IsRun(ss, cs) && Ok(ss[0]) && n < |ss|
    requires p in ss[n].ports && c in ss[n].ports[p].callq && a in ss[n].ports[p].acceptq
    ensures c.arg.ptn * a.arg.ptn == {}
  {
    EveryRun(ss, cs, n);
    assert Pair(ss[n].ports[p], c, a);
  }

  /** In every state of every run open rendezvous have different numbers, and each names
      its caller. */
  lemma NumbersNameCallers(ss: seq<State>, cs: seq<Call>, n: nat, t: TaskId, u: TaskId)
    requires IsRun(ss, cs) && Ok(ss[0]) && n < |ss|
    requires t in ss[n].tcb && ss[n].tcb[t].at.OnEnd? && u in ss[n].tcb && ss[n].tcb[u].at.OnEnd?
    ensures TskidOf(ss[n].tcb[t].at.no) == t && Open(ss[n], ss[n].tcb[t].at.no)
    ensures ss[n].tcb[t].at.no == ss[n].tcb[u].at.no ==> t == u
  {
    EveryRun(ss, cs, n);
  }

  /** How long a reply to `t` may be at most: what the rendezvous says, or, before it
      begins, what the port says. */
  function Limit(s: State, t: TaskId): Option<int> {
    if t !in s.tcb then None
    else match s.tcb[t].at
      case OnEnd(_, maxr) => Some(maxr)
      case OnCall(p) => if p in s.ports then Some(s.ports[p].maxrmsz) else None
      case _ => None
  }

  lemma LimitStep(s: State, c: Call, t: TaskId)
    requires Ok(s) && Legal(s, c) && Limit(s, t).Some?
    ensures Known(s) && (Limit(Do(s, c), t).Some? ==> Limit(Do(s, c), t).value <= Limit(s, t).value)
  {
    OkKnown(s);
    match c {
      case Acp(u, p, ptn, poll) => LimitAccept(s, u, p, ptn, poll, t);
      case Fwd(p, ptn, no, msg, pri) => LimitForward(s, p, ptn, no, msg, pri, t);
      case _ =>
    }
  }

  lemma LimitAccept(s: State, u: TaskId, p: PorId, ptn: Pattern, poll: bool, t: TaskId)
    requires Ok(s) && Known(s) && u in s.tcb && s.tcb[u].at == Elsewhere && Limit(s, t).Some?
    ensures var l := Limit(AcpPor(s, u, p, ptn, poll).1, t); l.Some? ==> l.value <= Limit(s, t).value
  {
    if p in s.ports {
      var q := s.ports[p].callq;
      var k := FirstMatch(q, ptn);
      if k < |q| { assert q[k] in q && Waits(q, q[k].tid); }
    }
  }

  lemma LimitForward(s: State, p: PorId, ptn: Pattern, no: int, msg: Msg, pri: int, t: TaskId)
    requires Ok(s) && Known(s) && Limit(s, t).Some?
    ensures var l := Limit(FwdPor(s, p, ptn, no, msg, pri).1, t); l.Some? ==> l.value <= Limit(s, t).value
  {
  }

  /** Along every run, for as long as `t` is engaged in one call, however often it is
      forwarded, the limit of the reply never grows. */
  lemma {:induction false} LimitNeverGrows(ss: seq<State>, cs: seq<Call>, i: nat, j: nat, t: TaskId)
    requires IsRun(ss, cs) && Ok(ss[0]) && i <= j < |ss|
    requires forall k :: i <= k <= j ==> Limit(ss[k], t).Some?
    ensures Limit(ss[j], t).value <= Limit(ss[i], t).value
    decreases j - i
  {
    if i < j {
      LimitNeverGrows(ss, cs, i, j - 1, t);
      EveryRun(ss, cs, j - 1);
      LimitStep(ss[j - 1], cs[j - 1], t);
    }
  }

  // ----------------------------------------------------- what acceptors are told

  ghost function Result(s: State, c: Call): Outcome
    requires Known(s) && Legal(s, c)
  {
    match c
    case Cal(t, pri, p, ptn, msg, poll) => CalPor(s, t, pri, p, ptn, msg, poll).0
    case Acp(t, p, ptn, poll) => AcpPor(s, t, p, ptn, poll).0
    case Fwd(p, ptn, no, msg, pri) => FwdPor(s, p, ptn, no, msg, pri).0
    case Rpl(no, msg) => RplRdv(s, no, msg).0
    case Rel(t) => Answer(E_OK)
    case Chg(t, pri) => Answer(E_OK)
    case Cre(slot, tpri, maxcmsz, maxrmsz) => CrePor(s, slot, tpri, maxcmsz, maxrmsz).0
    case Del(p) => DelPor(s, p).0
  }

  /** Whose message the call sends on its way, and which: the caller's own, or, when a
      rendezvous is forwarded, that of its first caller. */
  ghost function Sends(c: Call, r: Outcome): Option<(TaskId, Msg)> {
    match c
    case Cal(t, _, _, _, msg, _) => if r.Blocked? || r.Met? then Some((t, msg)) else None
    case Fwd(_, _, no, msg, _) =>
      if r == Answer(E_OK) || r.Met? then Some((TskidOf(no), msg)) else None
    case _ => None
  }

  /** Which number and message an acceptor got by the call, if one did. */
  function Gets(r: Outcome): Option<(int, Msg)> {
    match r
    case Met(_, no, msg) => Some((no, msg))
    case Got(no, msg) => Some((no, msg))
    case _ => None
  }

  function Noted(told: map<TaskId, Msg>, x: Option<(TaskId, Msg)>): map<TaskId, Msg> {
    match x
    case None => told
    case Some(y) => told[y.0 := y.1]
  }

  /** What was sent for each task last. */
  ghost function Told(ss: seq<State>, cs: seq<Call>, n: nat): map<TaskId, Msg>
    requires IsRun(ss, cs) && n < |ss|
  {
    if n == 0 then map[]
    else Noted(Told(ss, cs, n - 1), Sends(cs[n - 1], Result(ss[n - 1], cs[n - 1])))
  }

  /** The message that waits with each caller is the one sent last for it. */
  ghost predicate Carries(s: State, told: map<TaskId, Msg>) {
    forall p, w :: p in s.ports && w in s.ports[p].callq ==> w.tid in told && told[w.tid] == w.arg.msg
  }

  /** The acceptor that got `x` got what was sent last for the task that its number names. */
  ghost predicate Faithful(x: Option<(int, Msg)>, told: map<TaskId, Msg>) {
    x.Some? ==> TskidOf(x.value.0) in told && told[TskidOf(x.value.0)] == x.value.1
  }

  /** Nothing joined a call line. */
  lemma CarriesFewer(s: State, s': State, told: map<TaskId, Msg>)
    requires Carries(s, told)
    requires forall p, w :: p in s'.ports && w in s'.ports[p].callq ==> p in s.ports && w in s.ports[p].callq
    ensures Carries(s', told)
  {
  }

  /** `t` sends while it is in no line. */
  lemma CarriesSent(s: State, told: map<TaskId, Msg>, t: TaskId, msg: Msg)
    requires Ok(s) && Carries(s, told) && t in s.tcb && !s.tcb[t].at.OnCall?
    ensures Carries(s, told[t := msg])
  {
    forall p, w | p in s.ports && w in s.ports[p].callq ensures w.tid != t {
      assert Waits(s.ports[p].callq, w.tid);
    }
  }

  lemma CarriesQueued(s: State, told: map<TaskId, Msg>, t: TaskId, pri: int, p: PorId, ask: Ask)
    requires Ok(s) && Carries(s, told) && t in s.tcb && !s.tcb[t].at.OnCall? && p in s.ports
    ensures Carries(Queueing(s, t, pri, p, ask), told[t := ask.msg])
  {
    CarriesSent(s, told, t, ask.msg);
    var x, w := s.ports[p], Waiter(t, pri, ask);
    assert !Waits(x.callq, t);
    JoinLine(x.tpri, x.callq, w);
  }

  lemma CarriesCall(s: State, told: map<TaskId, Msg>, t: TaskId, pri: int, p: PorId, ptn: Pattern, msg: Msg, poll: bool)
    requires Ok(s) && Known(s) && Carries(s, told) && t in s.tcb && s.tcb[t].at == Elsewhere
    ensures var c := Cal(t, pri, p, ptn, msg, poll); var told' := Noted(told, Sends(c, Result(s, c)));
            Carries(Do(s, c), told') && Faithful(Gets(Result(s, c)), told')
  {
    var r := CalPor(s, t, pri, p, ptn, msg, poll);
    assert NumbersOk(t, s.tcb[t]);
    if r.0.Blocked? {
      CarriesQueued(s, told, t, pri, p, Ask(ptn, msg));
    } else if r.0.Met? {
      CarriesSent(s, told, t, msg);
      CarriesFewer(s, r.1, told[t := msg]);
    }
  }

  lemma CarriesForward(s: State, told: map<TaskId, Msg>, p: PorId, ptn: Pattern, no: int, msg: Msg, pri: int)
    requires Ok(s) && Known(s) && Carries(s, told)
    ensures var c := Fwd(p, ptn, no, msg, pri); var told' := Noted(told, Sends(c, Result(s, c)));
            Carries(Do(s, c), told') && Faithful(Gets(Result(s, c)), told')
  {
    if Open(s, no) {
      var t := TskidOf(no);
      CarriesSent(s, told, t, msg);
      assert NumbersOk(t, s.tcb[t]);
      if p in s.ports { CarriesQueued(s, told, t, pri, p, Ask(ptn, msg)); }
    }
  }

  lemma CarriesAccept(s: State, told: map<TaskId, Msg>, t: TaskId, p: PorId, ptn: Pattern, poll: bool)
    requires Ok(s) && Known(s) && Carries(s, told) && t in s.tcb && s.tcb[t].at == Elsewhere
    ensures var c := Acp(t, p, ptn, poll); Carries(Do(s, c), told) && Faithful(Gets(Result(s, c)), told)
  {
    var s' := Do(s, Acp(t, p, ptn, poll));
    if p in s.ports {
      var q := s.ports[p].callq;
      var k := FirstMatch(q, ptn);
      if k < |q| {
        assert q[k] in q && Waits(q, q[k].tid);
        assert NumbersOk(q[k].tid, s.tcb[q[k].tid]);
      }
    }
    CarriesFewer(s, s', told);
  }

  lemma CarriesReordered(s: State, told: map<TaskId, Msg>, t: TaskId, pri: int)
    requires Ok(s) && Carries(s, told)
    ensures Carries(ChangePriority(s, t, pri), told)
  {
    if t in s.tcb && s.tcb[t].at.OnCall? {
      var x := s.ports[s.tcb[t].at.p];
      if x.tpri && Waits(x.callq, t) { ReorderLine(x.callq, t, pri); }
    }
  }

  lemma CarriesStep(s: State, told: map<TaskId, Msg>, c: Call)
    requires Ok(s) && Known(s) && Legal(s, c) && Carries(s, told)
    ensures var told' := Noted(told, Sends(c, Result(s, c)));
            Carries(Do(s, c), told') && Faithful(Gets(Result(s, c)), told')
  {
    match c {
      case Cal(t, pri, p, ptn, msg, poll) => CarriesCall(s, told, t, pri, p, ptn, msg, poll);
      case Acp(t, p, ptn, poll) => CarriesAccept(s, told, t, p, ptn, poll);
      case Fwd(p, ptn, no, msg, pri) => CarriesForward(s, told, p, ptn, no, msg, pri);
      case Chg(t, pri) => CarriesReordered(s, told, t, pri);
      case _ => CarriesFewer(s, Do(s, c), told);
    }
  }

  lemma {:induction false} CarriesRun(ss: seq<State>, cs: seq<Call>, n: nat)
    requires IsRun(ss, cs) && Ok(ss[0]) && Carries(ss[0], map[]) && n < |ss|
    ensures Carries(ss[n], Told(ss, cs, n))
  {
    if n > 0 {
      CarriesRun(ss, cs, n - 1);
      EveryRun(ss, cs, n - 1);
      CarriesStep(ss[n - 1], Told(ss, cs, n - 1), cs[n - 1]);
    }
  }

  /** Over every run from a state in which nobody waits to be accepted, an acceptor gets the
      message that was sent last, by a call or by a forward, for the task that its number
      names, however often the call was forwarded and whether it had to wait or not. */
  lemma LastMessageArrives(ss: seq<State>, cs: seq<Call>, n: nat)
    requires IsRun(ss, cs) && Ok(ss[0]) && Carries(ss[0], map[]) && n < |cs|
    ensures Faithful(Gets(Result(ss[n], cs[n])), Told(ss, cs, n + 1))
  {
    CarriesRun(ss, cs, n);
    EveryRun(ss, cs, n);
    CarriesStep(ss[n], Told(ss, cs, n), cs[n]);
  }

  // ------------------------------------------------------------- who is served

  /** `w` stands at place `k` of the line and is the first whose pattern meets `ptn`. */
  ghost predicate FirstOf(q: Line, ptn: Pattern, k: nat, w: Waiter<Ask>) {
    && k < |q| && q[k] == w && w.arg.ptn * ptn != {}
    && (forall i :: 0 <= i < k ==> q[i].arg.ptn * ptn == {})
  }

  ghost predicate NoneMeets(q: Line, ptn: Pattern) {
    forall w :: w in q ==> w.arg.ptn * ptn == {}
  }

  lemma MatchIsFirst(q: Line, ptn: Pattern)
    ensures var k := FirstMatch(q, ptn);
            if NoneMeets(q, ptn) then k == |q| else k < |q| && FirstOf(q, ptn, k, q[k])
  {
    var k := FirstMatch(q, ptn);
    assert k < |q| ==> q[k] in q;
    if k == |q| {
      forall w | w in q ensures w.arg.ptn * ptn == {} {
        var i :| 0 <= i < |q| && q[i] == w;
      }
    }
  }

  /** When a call gives which answer; the acceptor it meets is the first in line that it can
      meet, and gets its message and a number that names the caller. */
  lemma CallAnswers(s: State, t: TaskId, pri: int, p: PorId, ptn: Pattern, msg: Msg, poll: bool)
    requires Ok(s) && t in s.tcb && Known(s)
    ensures var r := CalPor(s, t, pri, p, ptn, msg, poll).0;
            && (r == Answer(E_NOEXS) <==> ptn != {} && p !in s.ports)
            && (r == Answer(E_PAR) <==> ptn == {} || (p in s.ports && s.ports[p].maxcmsz < |msg|))
            && (if poll then r == Answer(E_TMOUT) else r.Blocked?) ==
               (ptn != {} && p in s.ports && |msg| <= s.ports[p].maxcmsz && NoneMeets(s.ports[p].acceptq, ptn))
            && (r.Met? <==>
                ptn != {} && p in s.ports && |msg| <= s.ports[p].maxcmsz && !NoneMeets(s.ports[p].acceptq, ptn))
            && (r.Met? ==>
                  && r.msg == msg && TskidOf(r.no) == t
                  && exists k, w :: FirstOf(s.ports[p].acceptq, ptn, k, w) && w.tid == r.to)
  {
    assert NumbersOk(t, s.tcb[t]);
    if p in s.ports { MatchIsFirst(s.ports[p].acceptq, ptn); }
  }

  /** When an accept gives which answer; the caller it accepts is the first in line that it
      can meet, and the acceptor gets that caller's message and a number that names it. */
  lemma AcceptAnswers(s: State, t: TaskId, p: PorId, ptn: Pattern, poll: bool)
    requires Ok(s) && t in s.tcb && Known(s)
    ensures var r := AcpPor(s, t, p, ptn, poll).0;
            && (r == Answer(E_PAR) <==> ptn == {})
            && (r == Answer(E_NOEXS) <==> ptn != {} && p !in s.ports)
            && (if poll then r == Answer(E_TMOUT) else r.Blocked?) ==
               (ptn != {} && p in s.ports && NoneMeets(s.ports[p].callq, ptn))
            && (r.Got? <==> ptn != {} && p in s.ports && !NoneMeets(s.ports[p].callq, ptn))
            && (r.Got? ==>
                  exists k, w :: FirstOf(s.ports[p].callq, ptn, k, w) && w.tid == TskidOf(r.no) && w.arg.msg == r.msg)
  {
    if p in s.ports {
      var q := s.ports[p].callq;
      MatchIsFirst(q, ptn);
      var k := FirstMatch(q, ptn);
      if k < |q| {
        assert q[k] in q && Waits(q, q[k].tid);
        assert NumbersOk(q[k].tid, s.tcb[q[k].tid]);
      }
    }
  }

  /** When a forward gives which answer.  It goes through exactly for an open rendezvous and a
      port that allows no longer replies, if the message suits the port and the caller. */
  lemma ForwardAnswers(s: State, p: PorId, ptn: Pattern, no: int, msg: Msg, pri: int)
    requires Ok(s) && Known(s)
    ensures var r := FwdPor(s, p, ptn, no, msg, pri).0;
            var fits := ptn != {} && p in s.ports && |msg| <= s.ports[p].maxcmsz && Open(s, no)
                        && s.ports[p].maxrmsz <= s.tcb[TskidOf(no)].at.maxr && |msg| <= s.tcb[TskidOf(no)].at.maxr;
            && (r.Met? <==> fits && !NoneMeets(s.ports[p].acceptq, ptn))
            && (r == Answer(E_OK) <==> fits && NoneMeets(s.ports[p].acceptq, ptn))
            && (!fits ==> r.Answer? && r.er in {E_PAR, E_NOEXS, E_OBJ} && FwdPor(s, p, ptn, no, msg, pri).1 == s)
            && (r.Met? ==>
                  && r.msg == msg && TskidOf(r.no) == TskidOf(no)
                  && exists k, w :: FirstOf(s.ports[p].acceptq, ptn, k, w) && w.tid == r.to)
  {
    if p in s.ports { MatchIsFirst(s.ports[p].acceptq, ptn); }
    if Open(s, no) { assert NumbersOk(TskidOf(no), s.tcb[TskidOf(no)]); }
  }

  // ------------------------------------------------------------ a whole rendezvous

  /** `t` is done: it has its next number and waits no more, and nothing else has changed. */
  ghost predicate Ended(s: State, s': State, t: TaskId) {
    t in s.tcb && s'.ports == s.ports && s'.tcb == s.tcb[t := Tcb(NextNo(s.tcb[t].wno), Elsewhere)]
  }

  /** In `s` the rendezvous `no` of `t` is open and takes replies up to `maxr`; a reply ends it,
      reaches `t` and leads to `s'`, in which the number is dead. */
  ghost predicate TakesReply(s: State, no: int, t: TaskId, maxr: int, s': State) {
    && TskidOf(no) == t && Open(s, no)
    && (forall reply: Msg :: |reply| <= maxr ==> RplRdv(s, no, reply) == (Replied(reply), s'))
    && (forall reply: Msg :: |reply| > maxr ==> RplRdv(s, no, reply) == (Answer(E_PAR), s))
    && (forall reply: Msg :: RplRdv(s', no, reply) == (Answer(E_OBJ), s'))
  }

  /** The rendezvous of `t` with its last number is open with limit `maxr`; all else is as in `s`. */
  function Begun(s: State, t: TaskId, maxr: int): State
    requires t in s.tcb
  {
    State(s.ports, s.tcb[t := Tcb(NextNo(s.tcb[t].wno), OnEnd(s.tcb[t].wno, maxr))])
  }

  lemma BegunTakesReply(s: State, t: TaskId, maxr: int) returns (s': State)
    requires t in s.tcb && NumbersOk(t, s.tcb[t])
    ensures Ended(s, s', t) && TakesReply(Begun(s, t, maxr), s.tcb[t].wno, t, maxr, s')
  {
    var no := s.tcb[t].wno;
    var c := Tcb(NextNo(no), OnEnd(no, maxr));
    Overwrite(s.tcb, t, c, c.(at := Elsewhere));
    s' := State(s.ports, s.tcb[t := c.(at := Elsewhere)]);
  }

  lemma FirstIsMatch(q: Line, ptn: Pattern, w: Waiter<Ask>)
    requires exists k :: FirstOf(q, ptn, k, w)
    ensures FirstMatch(q, ptn) < |q| && q[FirstMatch(q, ptn)] == w
  {
    var k :| FirstOf(q, ptn, k, w);
    assert FirstMatch(q, ptn) == k;
  }

  /** The first in the call line of `p`, among those `ptn` meets, would be `t`. */
  ghost predicate NextAt(s: State, p: PorId, t: TaskId, pri: int, ask: Ask, ptn: Pattern)
    requires p in s.ports
  {
    exists k :: FirstOf(Join(s.ports[p].tpri, s.ports[p].callq, Waiter(t, pri, ask)), ptn, k, Waiter(t, pri, ask))
  }

  /** Joining a call line and being accepted from it. */
  lemma QueueAccept(s: State, t: TaskId, pri: int, p: PorId, ask: Ask, u: TaskId, aptn: Pattern)
    requires Ok(s) && t in s.tcb && p in s.ports && !Waits(s.ports[p].callq, t) && u in s.tcb && aptn != {}
    requires NextAt(s, p, t, pri, ask, aptn)
    ensures var s1 := Queueing(s, t, pri, p, ask);
            Known(s1) ==> AcpPor(s1, u, p, aptn, false) ==
                          (Got(s.tcb[t].wno, ask.msg), Begun(s, t, s.ports[p].maxrmsz))
  {
    var x := s.ports[p];
    var w := Waiter(t, pri, ask);
    LeaveUndoesJoin(x.tpri, x.callq, w);
    FirstIsMatch(Join(x.tpri, x.callq, w), aptn, w);
    var no := s.tcb[t].wno;
    Overwrite(s.tcb, t, s.tcb[t].(at := OnCall(p)), Tcb(NextNo(no), OnEnd(no, x.maxrmsz)));
    Overwrite(s.ports, p, x.(callq := Join(x.tpri, x.callq, w)), x);
    assert s.ports[p := x] == s.ports;
  }

  /** A task calls and waits, another accepts it: the acceptor gets the message and a number
      that names the caller, and after the reply everything else is as before. */
  lemma CallAcceptReply(s: State, t: TaskId, pri: int, u: TaskId, p: PorId, ptn: Pattern, aptn: Pattern, msg: Msg)
      returns (s': State)
    requires Ok(s) && t in s.tcb && u in s.tcb && t != u && s.tcb[t].at == Elsewhere && s.tcb[u].at == Elsewhere
    requires p in s.ports && ptn != {} && aptn != {} && |msg| <= s.ports[p].maxcmsz
    requires NoneMeets(s.ports[p].acceptq, ptn) && NextAt(s, p, t, pri, Ask(ptn, msg), aptn)
    ensures Known(s)
    ensures var r1 := CalPor(s, t, pri, p, ptn, msg, false);
            && r1.0 == Blocked && Known(r1.1) && u in r1.1.tcb && r1.1.tcb[u].at == Elsewhere
            && var r2 := AcpPor(r1.1, u, p, aptn, false);
               && r2 == (Got(s.tcb[t].wno, msg), Begun(s, t, s.ports[p].maxrmsz)) && Ok(r2.1)
               && TakesReply(r2.1, s.tcb[t].wno, t, s.ports[p].maxrmsz, s') && Ended(s, s', t)
  {
    OkKnown(s);
    assert NumbersOk(t, s.tcb[t]);
    MatchIsFirst(s.ports[p].acceptq, ptn);
    CalPorOk(s, t, pri, p, ptn, msg, false);
    var s1 := Queueing(s, t, pri, p, Ask(ptn, msg));
    OkKnown(s1);
    assert !Waits(s.ports[p].callq, t);
    QueueAccept(s, t, pri, p, Ask(ptn, msg), u, aptn);
    AcpPorOk(s1, u, p, aptn, false);
    s' := BegunTakesReply(s, t, s.ports[p].maxrmsz);
  }

  /** A task forwards an open rendezvous, and another accepts it at the new port: it gets the
      new message and a new number that names the first caller, whom its reply reaches; the
      old number is dead at once. */
  lemma ForwardAcceptReply(s: State, no: int, p: PorId, ptn: Pattern, msg: Msg, pri: int, u: TaskId, aptn: Pattern)
      returns (s': State)
    requires Ok(s) && Open(s, no) && p in s.ports && ptn != {} && aptn != {} && |msg| <= s.ports[p].maxcmsz
    requires var c := TskidOf(no);
             && s.ports[p].maxrmsz <= s.tcb[c].at.maxr && |msg| <= s.tcb[c].at.maxr
             && u in s.tcb && s.tcb[u].at == Elsewhere
             && NoneMeets(s.ports[p].acceptq, ptn) && NextAt(s, p, c, pri, Ask(ptn, msg), aptn)
    ensures Known(s)
    ensures var c := TskidOf(no);
            var r1 := FwdPor(s, p, ptn, no, msg, pri);
            && r1.0 == Answer(E_OK) && Known(r1.1) && u in r1.1.tcb && r1.1.tcb[u].at == Elsewhere
            && !Open(r1.1, no)
            && var r2 := AcpPor(r1.1, u, p, aptn, false);
               && r2 == (Got(s.tcb[c].wno, msg), Begun(s, c, s.ports[p].maxrmsz)) && !Open(r2.1, no)
               && TakesReply(r2.1, s.tcb[c].wno, c, s.ports[p].maxrmsz, s') && Ended(s, s', c)
  {
    var c := TskidOf(no);
    ForwardQueues(s, no, p, ptn, msg, pri);
    NumberMoves(c, s.tcb[c]);
    QueueAccept(s, c, pri, p, Ask(ptn, msg), u, aptn);
    s' := BegunTakesReply(s, c, s.ports[p].maxrmsz);
  }

  /** The number after the one that a task waits on is another. */
  lemma NumberMoves(t: TaskId, c: Tcb)
    requires NumbersOk(t, c) && c.at.OnEnd?
    ensures c.wno != c.at.no
  {
    LaterDiffers(c.at.no, 1);
  }

  lemma ForwardQueues(s: State, no: int, p: PorId, ptn: Pattern, msg: Msg, pri: int)
    requires Ok(s) && Open(s, no) && p in s.ports && ptn != {} && |msg| <= s.ports[p].maxcmsz
    requires s.ports[p].maxrmsz <= s.tcb[TskidOf(no)].at.maxr && |msg| <= s.tcb[TskidOf(no)].at.maxr
    requires NoneMeets(s.ports[p].acceptq, ptn)
    ensures var c := TskidOf(no); var s1 := Queueing(s, c, pri, p, Ask(ptn, msg));
            && Known(s) && FwdPor(s, p, ptn, no, msg, pri) == (Answer(E_OK), s1) && Known(s1) && !Open(s1, no)
            && NumbersOk(c, s.tcb[c]) && !Waits(s.ports[p].callq, c)
  {
    OkKnown(s);
    MatchIsFirst(s.ports[p].acceptq, ptn);
    FwdPorOk(s, p, ptn, no, msg, pri);
    OkKnown(Queueing(s, TskidOf(no), pri, p, Ask(ptn, msg)));
  }

  /** A whole rendezvous through a forward: call, accept, forward of another message, accept at
      the second port, reply. */
  lemma CallForwardReply(s: State, t: TaskId, pri: int, u: TaskId, p: PorId, ptn: Pattern, aptn: Pattern, msg: Msg,
                         p2: PorId, ptn2: Pattern, msg2: Msg, u2: TaskId, aptn2: Pattern) returns (s': State)
    requires Ok(s) && t in s.tcb && u in s.tcb && t != u && s.tcb[t].at == Elsewhere && s.tcb[u].at == Elsewhere
    requires p in s.ports && ptn != {} && aptn != {} && |msg| <= s.ports[p].maxcmsz
    requires NoneMeets(s.ports[p].acceptq, ptn) && NextAt(s, p, t, pri, Ask(ptn, msg), aptn)
    requires p2 in s.ports && ptn2 != {} && aptn2 != {} && u2 in s.tcb && u2 != t && s.tcb[u2].at == Elsewhere
    requires |msg2| <= s.ports[p2].maxcmsz && |msg2| <= s.ports[p].maxrmsz && s.ports[p2].maxrmsz <= s.ports[p].maxrmsz
    requires NoneMeets(s.ports[p2].acceptq, ptn2) && NextAt(s, p2, t, pri, Ask(ptn2, msg2), aptn2)
    ensures Known(s)
    ensures var no := s.tcb[t].wno;
            var r1 := CalPor(s, t, pri, p, ptn, msg, false);
            && r1.0 == Blocked && Known(r1.1) && u in r1.1.tcb
            && var r2 := AcpPor(r1.1, u, p, aptn, false);
               && r2.0 == Got(no, msg) && TskidOf(no) == t && Known(r2.1)
               && var r3 := FwdPor(r2.1, p2, ptn2, no, msg2, pri);
                  && r3.0 == Answer(E_OK) && Known(r3.1) && u2 in r3.1.tcb
                  && var r4 := AcpPor(r3.1, u2, p2, aptn2, false);
                     && r4.0 == Got(NextNo(no), msg2) && Ended(r2.1, s', t)
                     && TakesReply(r4.1, NextNo(no), t, s.ports[p2].maxrmsz, s')
  {
    s' := CallAcceptReply(s, t, pri, u, p, ptn, aptn, msg);
    var s2 := Begun(s, t, s.ports[p].maxrmsz);
    OkKnown(s2);
    s' := ForwardAcceptReply(s2, s.tcb[t].wno, p2, ptn2, msg2, pri, u2, aptn2);
  }

  /** The acceptor `a` has left the accept line of port `p`. */
  function Unlined(s: State, p: PorId, a: TaskId): State
    requires p in s.ports && a in s.tcb
  {
    State(s.ports[p := s.ports[p].(acceptq := Leave(s.ports[p].acceptq, a))], s.tcb[a := s.tcb[a].(at := Elsewhere)])
  }

  lemma MeetingBegins(s: State, c: TaskId, p: PorId, k: nat, msg: Msg) returns (s': State)
    requires Ok(s) && p in s.ports && k < |s.ports[p].acceptq| && c in s.tcb
    requires s.tcb[c].at.Elsewhere? || s.tcb[c].at.OnEnd?
    ensures var a := s.ports[p].acceptq[k].tid;
            && a in s.tcb && a != c && !Waits(Unlined(s, p, a).ports[p].acceptq, a)
            && Meeting(s, c, p, k, msg) ==
               (Met(a, s.tcb[c].wno, msg), Begun(Unlined(s, p, a), c, s.ports[p].maxrmsz))
            && TakesReply(Meeting(s, c, p, k, msg).1, s.tcb[c].wno, c, s.ports[p].maxrmsz, s')
            && Ended(Unlined(s, p, a), s', c)
  {
    var a := s.ports[p].acceptq[k].tid;
    FoundLeaves(false, s.ports[p].acceptq, k);
    assert s.tcb[a].at == OnAccept(p) && NumbersOk(c, s.tcb[c]);
    s' := BegunTakesReply(Unlined(s, p, a), c, s.ports[p].maxrmsz);
  }

  /** A task calls where an acceptor waits: the first that it can meet gets its message and a
      number that names it, waits no more, and may reply. */
  lemma CallMeetsAcceptor(s: State, t: TaskId, pri: int, p: PorId, ptn: Pattern, msg: Msg, poll: bool,
                          w: Waiter<Ask>) returns (s': State)
    requires Ok(s) && t in s.tcb && s.tcb[t].at == Elsewhere && p in s.ports && ptn != {}
             && |msg| <= s.ports[p].maxcmsz && exists k :: FirstOf(s.ports[p].acceptq, ptn, k, w)
    ensures Known(s) && w.tid in s.tcb && w.tid != t
    ensures var r := CalPor(s, t, pri, p, ptn, msg, poll);
            && r == (Met(w.tid, s.tcb[t].wno, msg), Begun(Unlined(s, p, w.tid), t, s.ports[p].maxrmsz))
            && !Waits(r.1.ports[p].acceptq, w.tid)
            && TakesReply(r.1, s.tcb[t].wno, t, s.ports[p].maxrmsz, s') && Ended(Unlined(s, p, w.tid), s', t)
  {
    OkKnown(s);
    FirstIsMatch(s.ports[p].acceptq, ptn, w);
    s' := MeetingBegins(s, t, p, FirstMatch(s.ports[p].acceptq, ptn), msg);
  }

  /** The same for a forward: the acceptor gets the new message and a new number that names the
      first caller, and the old number is dead. */
  lemma ForwardMeetsAcceptor(s: State, no: int, p: PorId, ptn: Pattern, msg: Msg, pri: int, w: Waiter<Ask>)
      returns (s': State)
    requires Ok(s) && Open(s, no) && p in s.ports && ptn != {} && |msg| <= s.ports[p].maxcmsz
    requires s.ports[p].maxrmsz <= s.tcb[TskidOf(no)].at.maxr && |msg| <= s.tcb[TskidOf(no)].at.maxr
    requires exists k :: FirstOf(s.ports[p].acceptq, ptn, k, w)
    ensures Known(s) && w.tid in s.tcb && w.tid != TskidOf(no)
    ensures var c := TskidOf(no);
            var r := FwdPor(s, p, ptn, no, msg, pri);
            && r == (Met(w.tid, s.tcb[c].wno, msg), Begun(Unlined(s, p, w.tid), c, s.ports[p].maxrmsz))
            && !Waits(r.1.ports[p].acceptq, w.tid) && !Open(r.1, no)
            && TakesReply(r.1, s.tcb[c].wno, c, s.ports[p].maxrmsz, s') && Ended(Unlined(s, p, w.tid), s', c)
  {
    OkKnown(s);
    NumberMoves(TskidOf(no), s.tcb[TskidOf(no)]);
    FirstIsMatch(s.ports[p].acceptq, ptn, w);
    s' := MeetingBegins(s, TskidOf(no), p, FirstMatch(s.ports[p].acceptq, ptn), msg);
  }

  /** A rendezvous outlives the port at which it began: the reply reaches its caller as before. */
  lemma OutlivesPort(s: State, p: PorId, no: int, t: TaskId, maxr: int, s': State)
    requires TakesReply(s, no, t, maxr, s')
    ensures TakesReply(DelPor(s, p).1, no, t, maxr, DelPor(s', p).1)
  {
    var d, d' := DelPor(s, p).1, DelPor(s', p).1;
    forall reply: Msg ensures RplRdv(d, no, reply) == if |reply| <= maxr then (Replied(reply), d')
                                                      else (Answer(E_PAR), d) {
      assert RplRdv(s, no, reply) == if |reply| <= maxr then (Replied(reply), s') else (Answer(E_PAR), s);
      if |reply| <= maxr { assert RplRdv(d, no, reply).1 == d'; }
    }
    forall reply: Msg ensures RplRdv(d', no, reply) == (Answer(E_OBJ), d') {
      assert RplRdv(s', no, reply) == (Answer(E_OBJ), s');
    }
  }

  /** A caller that waits at a port with TA_TPRI gets its new priority and its place in line; no
      other record changes. */
  lemma CallerMoves(s: State, t: TaskId, pri: int)
    requires Ok(s) && t in s.tcb && s.tcb[t].at.OnCall? && s.ports[s.tcb[t].at.p].tpri
    ensures var p := s.tcb[t].at.p; var q, q' := s.ports[p].callq, ChangePriority(s, t, pri).ports[p].callq;
            && Waits(q, t) && WaitQueue.Line(true, q')
            && (forall w :: w in q' <==> w == Find(q, t).(pri := pri) || (w in q && w.tid != t))
    ensures ChangePriority(s, t, pri) ==
            s.(ports := s.ports[s.tcb[t].at.p := ChangePriority(s, t, pri).ports[s.tcb[t].at.p]])
  {
    ReorderLine(s.ports[s.tcb[t].at.p].callq, t, pri);
  }

  // --------------------------------------------------------------- stale numbers

  /** The number a task issues `k` rendezvous after `no`. */
  function Later(no: int, k: nat): int {
    if k == 0 then no else NextNo(Later(no, k - 1))
  }

  lemma {:induction false} LaterIs(no: int, k: nat)
    requires 0 <= no < WORD
    ensures Later(no, k) == (no + k * SHIFT) % WORD
  {
    if k > 0 {
      LaterIs(no, k - 1);
      NextIs(no + (k - 1) * SHIFT);
      assert no + (k - 1) * SHIFT + SHIFT == no + k * SHIFT;
    }
  }

  lemma NextIs(x: int)
    ensures NextNo(x % WORD) == (x + SHIFT) % WORD
  {
    var q, r := x / WORD, x % WORD;
    assert x == q * WORD + r && 0 <= r < WORD;
    if r + SHIFT < WORD {
      assert (x + SHIFT) % WORD == r + SHIFT by { assert x + SHIFT == q * WORD + (r + SHIFT); }
    } else {
      assert (x + SHIFT) % WORD == r + SHIFT - WORD by { assert x + SHIFT == (q + 1) * WORD + (r + SHIFT - WORD); }
    }
  }

  /** In words, `k` steps of 65536 come round exactly if `k` is a multiple of 65536. */
  lemma ComesRound(no: int, k: nat)
    requires 0 <= no < WORD
    ensures (no + k * SHIFT) % WORD == no <==> k % SHIFT == 0
  {
    var q, r := k / SHIFT, k % SHIFT;
    assert k == q * SHIFT + r;
    assert no + k * SHIFT == q * WORD + (no + r * SHIFT);
    assert (q * WORD + (no + r * SHIFT)) % WORD == (no + r * SHIFT) % WORD;
  }

  /** Numbers come round after 65536 rendezvous of the same task, and not before. */
  lemma LaterDiffers(no: int, k: nat)
    requires 0 <= no < WORD
    ensures Later(no, k) == no <==> k % SHIFT == 0
  {
    LaterIs(no, k);
    ComesRound(no, k);
  }

  /** A reply or forward with a number issued 1 to 65535 rendezvous ago is refused and
      changes nothing. */
  lemma StaleRefused(s: State, t: TaskId, no: int, k: nat, p: PorId, ptn: Pattern, msg: Msg, pri: int)
    requires Ok(s) && t in s.tcb && s.tcb[t].at.OnEnd? && 0 <= no < WORD && TskidOf(no) == t
    requires s.tcb[t].at.no == Later(no, k) && 0 < k < SHIFT
    ensures RplRdv(s, no, msg) == (Answer(E_OBJ), s)
    ensures Known(s) && FwdPor(s, p, ptn, no, msg, pri).1 == s && FwdPor(s, p, ptn, no, msg, pri).0.Answer?
    ensures FwdPor(s, p, ptn, no, msg, pri).0.er in {E_PAR, E_NOEXS, E_OBJ}
  {
    OkKnown(s);
    LaterDiffers(no, k);
  }

  // ---------------------------------------------------------- the control blocks

  class PortKernel {
    var ports: map<PorId, Port>
    var tcb: map<TaskId, Tcb>

    ghost function Now(): State
      reads this
    {
      State(ports, tcb)
    }

    ghost predicate Valid()
      reads this
    {
      Ok(Now())
    }

    /** No ports, and every task's first number is its id. */
    constructor (tasks: set<TaskId>)
      requires forall t :: t in tasks ==> 0 < t < SHIFT
      ensures Valid() && ports == map[] && tcb == map t | t in tasks :: Tcb(t, Elsewhere)
    {
      ports := map[];
      tcb := map t | t in tasks :: Tcb(t, Elsewhere);
    }

    method TkCrePor(slot: Option<PorId>, tpri: bool, maxcmsz: int, maxrmsz: int) returns (r: Outcome)
      requires Valid() && (slot.Some? ==> slot.value !in ports)
      modifies this
      ensures Valid() && (r, Now()) == CrePor(old(Now()), slot, tpri, maxcmsz, maxrmsz)
    {
      CrePorOk(Now(), slot, tpri, maxcmsz, maxrmsz);
      if maxcmsz < 0 || maxrmsz < 0 { return Answer(E_PAR); }
      if slot.None? { return Answer(E_LIMIT); }
      ports := ports[slot.value := Port(tpri, maxcmsz, maxrmsz, [], [])];
      r := Created(slot.value);
    }

    method TkDelPor(p: PorId) returns (r: Outcome)
      requires Valid()
      modifies this
      ensures Valid() && (r, Now()) == DelPor(old(Now()), p)
    {
      DelPorOk(Now(), p);
      if p !in ports { return Answer(E_NOEXS); }
      tcb := map t | t in tcb :: Dismissed(tcb[t], p);
      ports := ports - {p};
      r := Answer(E_OK);
    }

    /** The search loops of tk_cal_por, tk_acp_por and tk_fwd_por. */
    method Search(q: Line, ptn: Pattern) returns (k: nat)
      ensures k == FirstMatch(q, ptn)
    {
      k := 0;
      while k < |q| && !Meets(q[k].arg.ptn, ptn)
        invariant k <= |q| && FirstMatch(q, ptn) == k + FirstMatch(q[k..], ptn)
      {
        assert q[k..][1..] == q[k + 1..];
        k := k + 1;
      }
    }

    /** knl_gen_rdvno. */
    method GenRdvno(t: TaskId) returns (no: int)
      requires t in tcb
      modifies this`tcb
      ensures no == old(tcb[t].wno) && tcb == old(tcb)[t := old(tcb[t]).(wno := NextNo(no))]
    {
      no := tcb[t].wno;
      tcb := tcb[t := tcb[t].(wno := (no + SHIFT) % WORD)];
    }

    /** The acceptor at position `k` gets the call of `c`, who waits for the end. */
    method MeetAcceptor(c: TaskId, p: PorId, k: nat, msg: Msg) returns (r: Outcome)
      requires p in ports && k < |ports[p].acceptq| && c in tcb && ports[p].acceptq[k].tid in tcb
               && ports[p].acceptq[k].tid != c
      modifies this
      ensures (r, Now()) == Meeting(old(Now()), c, p, k, msg)
    {
      var a := ports[p].acceptq[k].tid;
      var no := GenRdvno(c);
      ports := ports[p := ports[p].(acceptq := Leave(ports[p].acceptq, a))];
      tcb := tcb[a := tcb[a].(at := Elsewhere)];
      tcb := tcb[c := tcb[c].(at := OnEnd(no, ports[p].maxrmsz))];
      assert tcb == old(tcb)[a := old(tcb[a]).(at := Elsewhere)][c := tcb[c]];
      r := Met(a, no, msg);
    }

    method WaitCall(c: TaskId, pri: int, p: PorId, ask: Ask)
      requires p in ports && c in tcb
      modifies this
      ensures Now() == Queueing(old(Now()), c, pri, p, ask)
    {
      tcb := tcb[c := tcb[c].(at := OnCall(p))];
      ports := ports[p := ports[p].(callq := Join(ports[p].tpri, ports[p].callq, Waiter(c, pri, ask)))];
    }

    /** The caller at position `k` is accepted and waits for the end. */
    method AcceptCaller(p: PorId, k: nat) returns (r: Outcome)
      requires p in ports && k < |ports[p].callq| && ports[p].callq[k].tid in tcb
      modifies this
      ensures var x, w := old(ports[p]), old(ports[p].callq[k]);
              && r == Got(old(tcb)[w.tid].wno, w.arg.msg)
              && ports == old(ports)[p := x.(callq := Leave(x.callq, w.tid))]
              && tcb == old(tcb)[w.tid := Tcb(NextNo(old(tcb)[w.tid].wno), OnEnd(old(tcb)[w.tid].wno, x.maxrmsz))]
    {
      var w := ports[p].callq[k];
      var no := GenRdvno(w.tid);
      ports := ports[p := ports[p].(callq := Leave(ports[p].callq, w.tid))];
      tcb := tcb[w.tid := tcb[w.tid].(at := OnEnd(no, ports[p].maxrmsz))];
      r := Got(no, w.arg.msg);
    }

    /** The acceptor at position `k` is not the caller `c`. */
    lemma TwoTasks(c: TaskId, p: PorId, k: nat)
      requires Valid() && p in ports && k < |ports[p].acceptq| && c in tcb && (tcb[c].at.Elsewhere? || tcb[c].at.OnEnd?)
      ensures ports[p].acceptq[k].tid in tcb && ports[p].acceptq[k].tid != c
    {
      assert ports[p].acceptq[k] in ports[p].acceptq;
      assert Waits(ports[p].acceptq, ports[p].acceptq[k].tid);
    }

    method TkCalPor(t: TaskId, pri: int, p: PorId, ptn: Pattern, msg: Msg, poll: bool) returns (r: Outcome)
      requires Valid() && t in tcb && tcb[t].at == Elsewhere
      modifies this
      ensures Valid() && Known(old(Now())) && (r, Now()) == CalPor(old(Now()), t, pri, p, ptn, msg, poll)
    {
      CalPorOk(Now(), t, pri, p, ptn, msg, poll);
      if ptn == {} { return Answer(E_PAR); }
      if p !in ports { return Answer(E_NOEXS); }
      if |msg| > ports[p].maxcmsz { return Answer(E_PAR); }
      var k := Search(ports[p].acceptq, ptn);
      if k < |ports[p].acceptq| {
        TwoTasks(t, p, k);
        r := MeetAcceptor(t, p, k, msg);
      } else if poll {
        r := Answer(E_TMOUT);
      } else {
        WaitCall(t, pri, p, Ask(ptn, msg));
        r := Blocked;
      }
    }

    method TkAcpPor(t: TaskId, p: PorId, ptn: Pattern, poll: bool) returns (r: Outcome)
      requires Valid() && t in tcb && tcb[t].at == Elsewhere
      modifies this
      ensures Valid() && Known(old(Now())) && (r, Now()) == AcpPor(old(Now()), t, p, ptn, poll)
    {
      AcpPorOk(Now(), t, p, ptn, poll);
      if ptn == {} { return Answer(E_PAR); }
      if p !in ports { return Answer(E_NOEXS); }
      var k := Search(ports[p].callq, ptn);
      if k < |ports[p].callq| {
        assert ports[p].callq[k] in ports[p].acceptq + ports[p].callq;
        r := AcceptCaller(p, k);
      } else if poll {
        r := Answer(E_TMOUT);
      } else {
        tcb := tcb[t := tcb[t].(at := OnAccept(p))];
        ports := ports[p := ports[p].(acceptq := Join(false, ports[p].acceptq, Waiter(t, 0, Ask(ptn, []))))];
        r := Blocked;
      }
    }

    method TkFwdPor(p: PorId, ptn: Pattern, no: int, msg: Msg, pri: int) returns (r: Outcome)
      requires Valid()
      modifies this
      ensures Valid() && Known(old(Now())) && (r, Now()) == FwdPor(old(Now()), p, ptn, no, msg, pri)
    {
      FwdPorOk(Now(), p, ptn, no, msg, pri);
      var c := TskidOf(no);
      if ptn == {} { return Answer(E_PAR); }
      if c !in tcb { return Answer(E_OBJ); }
      if p !in ports { return Answer(E_NOEXS); }
      if |msg| > ports[p].maxcmsz { return Answer(E_PAR); }
      if !tcb[c].at.OnEnd? || tcb[c].at.no != no { return Answer(E_OBJ); }
      if ports[p].maxrmsz > tcb[c].at.maxr { return Answer(E_OBJ); }
      if |msg| > tcb[c].at.maxr { return Answer(E_PAR); }
      var k := Search(ports[p].acceptq, ptn);
      if k < |ports[p].acceptq| {
        TwoTasks(c, p, k);
        r := MeetAcceptor(c, p, k, msg);
      } else {
        WaitCall(c, pri, p, Ask(ptn, msg));
        r := Answer(E_OK);
      }
    }

    method TkRplRdv(no: int, msg: Msg) returns (r: Outcome)
      requires Valid()
      modifies this
      ensures Valid() && (r, Now()) == RplRdv(old(Now()), no, msg)
    {
      RplRdvOk(Now(), no, msg);
      var c := TskidOf(no);
      if c !in tcb || !tcb[c].at.OnEnd? || tcb[c].at.no != no { return Answer(E_OBJ); }
      if |msg| > tcb[c].at.maxr { return Answer(E_PAR); }
      tcb := tcb[c := tcb[c].(at := Elsewhere)];
      r := Replied(msg);
    }
  }
}
