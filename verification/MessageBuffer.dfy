/**
 Message buffers (messagebuf.c): a queue of messages in the byte ring, a line of
 waiting senders behind it and a line of waiting receivers.
 */
module MessageBuffer {
  import opened Common
  import opened WaitQueue
  import opened FirstCome
  import opened MessageRing

  type Senders = seq<Waiter<Msg>>

  datatype Mbf = Mbf(bufsz: int, maxmsz: int, tpri: bool, msgs: seq<Msg>, sendq: Senders, recvq: seq<TaskId>)

  /** knl_mbf_free. */
  predicate Fits(s: Mbf, m: Msg) {
    HEADERSZ + |m| <= s.bufsz - Used(s.msgs)
  }

  predicate Sizes(ms: seq<Msg>, maxmsz: int) {
    forall m :: m in ms ==> 0 < |m| <= maxmsz
  }

  function Args(q: Senders): seq<Msg> {
    if q == [] then [] else [q[0].arg] + Args(q[1..])
  }

  /** Stored messages, then those of the waiting senders. */
  function Pending(s: Mbf): seq<Msg> {
    s.msgs + Args(s.sendq)
  }

  /** What holds but for senders that could go on. */
  ghost predicate Sound(s: Mbf) {
    && s.bufsz % 4 == 0 && s.maxmsz < 0x8000_0000 && 0 <= Used(s.msgs) <= s.bufsz
    && Sizes(s.msgs, s.maxmsz) && (forall w :: w in s.sendq ==> 0 < |w.arg| <= s.maxmsz)
    && Line(s.tpri, s.sendq) && NoDup(s.recvq)
    && (s.recvq != [] ==> s.msgs == [] && s.sendq == [])
  }

  /** What holds between two calls: the first waiting sender's message never fits, and
      nobody waits for a message while there is one. */
  ghost predicate MbfOk(s: Mbf) {
    Sound(s) && (s.sendq != [] ==> !Fits(s, s.sendq[0].arg))
  }

  lemma {:induction false} UsedSnoc(ms: seq<Msg>, m: Msg)
    ensures Used(ms + [m]) == Used(ms) + Room(m)
  {
    if ms == [] {
      assert ms + [m] == [m] && [m][1..] == [];
    } else {
      assert (ms + [m])[1..] == ms[1..] + [m];
      UsedSnoc(ms[1..], m);
    }
  }

  lemma {:induction false} UsedAligned(ms: seq<Msg>)
    ensures Used(ms) % 4 == 0 && 0 <= Used(ms) && (ms != [] ==> 0 < Used(ms))
  {
    if ms != [] {
      UsedAligned(ms[1..]);
      PaddedFacts(|ms[0]|);
    }
  }

  /** Storing a message that fits. */
  lemma StoreSound(s: Mbf, m: Msg)
    requires Sound(s) && Fits(s, m) && 0 < |m| <= s.maxmsz && s.recvq == []
    ensures Sound(s.(msgs := s.msgs + [m])) && Used(s.msgs) < Used(s.msgs + [m])
  {
    UsedSnoc(s.msgs, m);
    UsedAligned(s.msgs);
    Multiples(s.bufsz, Used(s.msgs));
    AdmissionSuffices(s.bufsz - Used(s.msgs), |m|);
    PaddedFacts(|m|);
  }

  // -------------------------------------------------------------- the operations

  /** knl_mbf_wakeup: store waiting senders' messages while the first one fits. */
  function Wakeup(s: Mbf): (r: (Mbf, seq<TaskId>))
    decreases |s.sendq|
  {
    if s.sendq == [] || !Fits(s, s.sendq[0].arg) then (s, [])
    else
      var r := Wakeup(s.(msgs := s.msgs + [s.sendq[0].arg], sendq := s.sendq[1..]));
      (r.0, [s.sendq[0].tid] + r.1)
  }

  lemma {:induction false} WakeupOk(s: Mbf)
    requires Sound(s)
    ensures MbfOk(Wakeup(s).0) && Pending(Wakeup(s).0) == Pending(s)
    ensures Wakeup(s).0 == s.(msgs := Wakeup(s).0.msgs, sendq := Wakeup(s).0.sendq)
    decreases |s.sendq|
  {
    if s.sendq != [] && Fits(s, s.sendq[0].arg) {
      var m, q := s.sendq[0].arg, s.sendq[1..];
      UnderwayStart(s);
      UnderwayStep(s, [], s);
      WakeupOk(s.(msgs := s.msgs + [m], sendq := q));
      assert s.msgs + [m] + Args(q) == s.msgs + ([m] + Args(q));
    }
  }

  /** The senders released are the front of the line, with their messages stored in order. */
  lemma {:induction false} WakeupFront(s: Mbf)
    ensures var r := Wakeup(s); var n := |r.1|;
            && n <= |s.sendq| && r.1 == Tids(s.sendq[..n]) && r.0.sendq == s.sendq[n..]
            && r.0.msgs == s.msgs + Args(s.sendq[..n])
    decreases |s.sendq|
  {
    if s.sendq == [] || !Fits(s, s.sendq[0].arg) {
      assert s.msgs + [] == s.msgs;
    } else {
      var x := s.sendq[0];
      var s1 := s.(msgs := s.msgs + [x.arg], sendq := s.sendq[1..]);
      WakeupFront(s1);
      var n := |Wakeup(s1).1|;
      assert s.sendq[..n + 1] == [x] + s1.sendq[..n];
      assert ([x] + s1.sendq[..n])[1..] == s1.sendq[..n];
      assert s.msgs + [x.arg] + Args(s1.sendq[..n]) == s.msgs + ([x.arg] + Args(s1.sendq[..n]));
    }
  }

  /** Wakeup of `s0` has released `freed` and come to `s`. */
  ghost predicate Underway(s0: Mbf, freed: seq<TaskId>, s: Mbf) {
    Wakeup(s0) == (Wakeup(s).0, freed + Wakeup(s).1)
  }

  lemma UnderwayStart(s: Mbf)
    ensures Underway(s, [], s)
  {
    assert [] + Wakeup(s).1 == Wakeup(s).1;
  }

  lemma UnderwayStep(s0: Mbf, freed: seq<TaskId>, s: Mbf)
    requires Underway(s0, freed, s) && Sound(s) && s.sendq != [] && Fits(s, s.sendq[0].arg)
    ensures var s' := s.(msgs := s.msgs + [s.sendq[0].arg], sendq := s.sendq[1..]);
            0 < |s.sendq[0].arg| && Sound(s') && Underway(s0, freed + [s.sendq[0].tid], s')
  {
    var s' := s.(msgs := s.msgs + [s.sendq[0].arg], sendq := s.sendq[1..]);
    var x := [s.sendq[0].tid];
    assert s.sendq[0] in s.sendq;
    StoreSound(s, s.sendq[0].arg);
    TailLine(s.tpri, s.sendq);
    assert forall w :: w in s'.sendq ==> w in s.sendq;
    assert freed + (x + Wakeup(s').1) == freed + x + Wakeup(s').1;
  }

  lemma UnderwayEnd(s0: Mbf, freed: seq<TaskId>, s: Mbf)
    requires Underway(s0, freed, s) && (s.sendq == [] || !Fits(s, s.sendq[0].arg))
    ensures Wakeup(s0) == (s, freed)
  {
    assert Wakeup(s) == (s, []);
    assert freed + [] == freed;
  }

  datatype SendResult = Answer(er: Er) | Blocked

  /** tk_snd_mbf by task `t`, or by a handler; also the receiver served, if any. */
  function Send(s: Mbf, t: TaskId, pri: int, m: Msg, poll: bool, handler: bool)
      : (r: (SendResult, Mbf, Option<TaskId>)) {
    if |m| == 0 || |m| > s.maxmsz then (Answer(E_PAR), s, None)
    else if s.recvq != [] then (Answer(E_OK), s.(recvq := s.recvq[1..]), Some(s.recvq[0]))
    else if (handler || Top(s.tpri, s.sendq, pri)) && Fits(s, m) then (Answer(E_OK), s.(msgs := s.msgs + [m]), None)
    else if poll then (Answer(E_TMOUT), s, None)
    else (Blocked, s.(sendq := Join(s.tpri, s.sendq, Waiter(t, pri, m))), None)
  }

  datatype RecvResult = Got(m: Msg) | Failed(er: Er) | Waiting

  /** tk_rcv_mbf by task `t`; also the senders released. */
  function Receive(s: Mbf, t: TaskId, poll: bool): (r: (RecvResult, Mbf, seq<TaskId>)) {
    if s.msgs != [] then
      var w := Wakeup(s.(msgs := s.msgs[1..]));
      (Got(s.msgs[0]), w.0, w.1)
    else if s.sendq != [] then
      var w := Wakeup(s.(sendq := s.sendq[1..]));
      (Got(s.sendq[0].arg), w.0, [s.sendq[0].tid] + w.1)
    else if poll then (Failed(E_TMOUT), s, [])
    else (Waiting, s.(recvq := s.recvq + [t]), [])
  }

  /** A waiting sender is released by timeout or tk_rel_wai, with knl_mbf_rel_wai. */
  function ReleaseSender(s: Mbf, t: TaskId): (r: (Mbf, seq<TaskId>)) {
    Wakeup(s.(sendq := Leave(s.sendq, t)))
  }

  /** knl_mbf_chg_pri. */
  function ChangePriority(s: Mbf, t: TaskId, p: int): (r: (Mbf, seq<TaskId>))
    requires Waits(s.sendq, t)
  {
    Wakeup(s.(sendq := Reorder(s.sendq, t, p)))
  }

  /** When tk_snd_mbf answers what.  A message in range is accepted at once exactly if somebody
      waits for it, or if it fits and no waiting sender is before the caller. */
  lemma SendExact(s: Mbf, t: TaskId, pri: int, m: Msg, poll: bool, handler: bool)
    ensures var r, w := Send(s, t, pri, m, poll, handler), Waiter(t, pri, m);
            var first := handler || s.sendq == [] || (s.tpri && pri < s.sendq[0].pri);
            var ok := 0 < |m| <= s.maxmsz && (s.recvq != [] || (first && HEADERSZ + |m| <= s.bufsz - Used(s.msgs)));
            && (r.0 == Answer(E_PAR) <==> !(0 < |m| <= s.maxmsz)) && (r.0 == Answer(E_OK) <==> ok)
            && (r.0 == Answer(E_TMOUT) <==> 0 < |m| <= s.maxmsz && !ok && poll)
            && (r.0.Blocked? <==> 0 < |m| <= s.maxmsz && !ok && !poll)
            && (r.0.Blocked? ==> r.1 == s.(sendq := Join(s.tpri, s.sendq, w)))
            && (r.0.Answer? && r.0.er != E_OK ==> r.1 == s)
            && (r.2.Some? <==> ok && s.recvq != []) && (r.2.Some? ==> s.recvq == [r.2.value] + r.1.recvq)
            && (r.2 == None ==> r.1.recvq == s.recvq)
  {
  }

  lemma SendOk(s: Mbf, t: TaskId, pri: int, m: Msg, poll: bool, handler: bool)
    requires MbfOk(s) && !Waits(s.sendq, t)
    ensures MbfOk(Send(s, t, pri, m, poll, handler).1)
  {
    if 0 < |m| <= s.maxmsz && s.recvq == [] {
      JoinLine(s.tpri, s.sendq, Waiter(t, pri, m));
      if Fits(s, m) { StoreSound(s, m); }
    }
    if s.recvq != [] { TailNoDup(s.recvq); }
  }

  /** A task that sends in arrival order queues its message behind all others; a message
      goes to a waiting receiver only if there is no other. */
  lemma SendInOrder(s: Mbf, t: TaskId, pri: int, m: Msg, poll: bool)
    requires MbfOk(s) && !s.tpri
    ensures var r := Send(s, t, pri, m, poll, false);
            if r.2.Some? then Pending(s) == [] && Pending(r.1) == []
            else if r.0 == Answer(E_OK) || r.0.Blocked? then Pending(r.1) == Pending(s) + [m]
            else r.1 == s
  {
    ArgsSnoc(s.sendq, Waiter(t, pri, m));
    assert Join(false, s.sendq, Waiter(t, pri, m)) == s.sendq + [Waiter(t, pri, m)];
    assert s.msgs + (Args(s.sendq) + [m]) == s.msgs + Args(s.sendq) + [m];
  }

  /** `p'` is `p` with `m` put in at position `k`. */
  ghost predicate PutIn(p: seq<Msg>, m: Msg, k: nat, p': seq<Msg>) {
    k <= |p| && p' == p[..k] + [m] + p[k..]
  }

  /** In any order of senders and from any context, an accepted message that goes to no
      receiver is put among the pending ones, behind the stored ones; no other moves. */
  lemma SendInserts(s: Mbf, t: TaskId, pri: int, m: Msg, poll: bool, handler: bool) returns (k: nat)
    requires MbfOk(s)
    ensures |s.msgs| <= k
    ensures var r := Send(s, t, pri, m, poll, handler);
            if (r.0 == Answer(E_OK) && r.2 == None) || r.0.Blocked? then PutIn(Pending(s), m, k, Pending(r.1))
            else Pending(r.1) == Pending(s)
  {
    var r := Send(s, t, pri, m, poll, handler);
    k := |s.msgs|;
    if r.0.Blocked? {
      k := SendWaits(s, Waiter(t, pri, m));
    } else if r.0 == Answer(E_OK) && r.2 == None {
      StoreBehind(s.msgs, Args(s.sendq), m);
    }
  }

  lemma SendWaits(s: Mbf, w: Waiter<Msg>) returns (k: nat)
    ensures |s.msgs| <= k && PutIn(Pending(s), w.arg, k, Pending(s.(sendq := Join(s.tpri, s.sendq, w))))
  {
    var j := JoinInserts(s.tpri, s.sendq, w);
    k := |s.msgs| + j;
    InsertBehind(s.msgs, Args(s.sendq), j, w.arg);
  }

  lemma StoreBehind(a: seq<Msg>, b: seq<Msg>, m: Msg)
    ensures PutIn(a + b, m, |a|, a + [m] + b)
  {
    assert (a + b)[..|a|] == a && (a + b)[|a|..] == b;
  }

  lemma InsertBehind(a: seq<Msg>, b: seq<Msg>, j: nat, m: Msg)
    requires j <= |b|
    ensures PutIn(a + b, m, |a| + j, a + (b[..j] + [m] + b[j..]))
  {
    assert (a + b)[..|a| + j] == a + b[..j] && (a + b)[|a| + j..] == b[j..];
  }

  lemma JoinInserts(tpri: bool, q: Senders, w: Waiter<Msg>) returns (k: nat)
    ensures k <= |Args(q)| && Args(Join(tpri, q, w)) == Args(q)[..k] + [w.arg] + Args(q)[k..]
  {
    k := if tpri then InsertPos(q, w.pri) else |q|;
    var a, b := q[..k], q[k..];
    ArgsJoin(a + [w], b);
    ArgsSnoc(a, w);
    ArgsJoin(a, b);
    ArgsCount(a);
    assert a + b == q;
  }

  lemma {:induction false} ArgsCount(q: Senders)
    ensures |Args(q)| == |q|
  {
    if q != [] { ArgsCount(q[1..]); }
  }

  lemma {:induction false} ArgsJoin(p: Senders, q: Senders)
    ensures Args(p + q) == Args(p) + Args(q)
  {
    if p == [] {
      assert p + q == q;
    } else {
      assert (p + q)[1..] == p[1..] + q;
      ArgsJoin(p[1..], q);
    }
  }

  lemma {:induction false} ArgsSnoc(q: Senders, w: Waiter<Msg>)
    ensures Args(q + [w]) == Args(q) + [w.arg]
  {
    if q == [] {
      assert q + [w] == [w] && [w][1..] == [];
    } else {
      assert (q + [w])[1..] == q[1..] + [w];
      ArgsSnoc(q[1..], w);
    }
  }

  /** The senders a receive releases are the front of their line. */
  lemma ReceiveFrees(s: Mbf, t: TaskId, poll: bool)
    ensures var r := Receive(s, t, poll); Tids(s.sendq) == r.2 + Tids(r.1.sendq)
  {
    if s.msgs != [] {
      WakeupFreed(s.(msgs := s.msgs[1..]));
    } else if s.sendq != [] {
      HandedFrees(s, Wakeup(s.(sendq := s.sendq[1..])));
    }
  }

  lemma HandedFrees(s: Mbf, w: (Mbf, seq<TaskId>))
    requires s.sendq != [] && w == Wakeup(s.(sendq := s.sendq[1..]))
    ensures Tids(s.sendq) == [s.sendq[0].tid] + w.1 + Tids(w.0.sendq)
  {
    WakeupFreed(s.(sendq := s.sendq[1..]));
    FirstTid(s.sendq, w.1, Tids(w.0.sendq));
  }

  lemma FirstTid(q: Senders, a: seq<TaskId>, b: seq<TaskId>)
    requires q != [] && Tids(q[1..]) == a + b
    ensures Tids(q) == [q[0].tid] + a + b
  {
  }

  lemma WakeupFreed(s: Mbf)
    ensures Tids(s.sendq) == Wakeup(s).1 + Tids(Wakeup(s).0.sendq)
  {
    WakeupFront(s);
    TidsFrom(s.sendq, |Wakeup(s).1|);
    assert Tids(s.sendq) == Tids(s.sendq)[..|Wakeup(s).1|] + Tids(s.sendq)[|Wakeup(s).1|..];
  }

  /** A receiver gets the first pending message, whoever holds it. */
  lemma ReceiveOk(s: Mbf, t: TaskId, poll: bool)
    requires MbfOk(s) && t !in s.recvq
    ensures var r := Receive(s, t, poll);
            && MbfOk(r.1)
            && (if Pending(s) != [] then r.0 == Got(Pending(s)[0]) && Pending(r.1) == Pending(s)[1..]
                else r.0 == (if poll then Failed(E_TMOUT) else Waiting) && Pending(r.1) == [])
  {
    if s.msgs != [] {
      TakeStored(s);
      WakeupOk(s.(msgs := s.msgs[1..]));
      assert s.msgs[1..] + Args(s.sendq) == Pending(s)[1..];
    } else if s.sendq != [] {
      TakeWaiting(s);
      WakeupOk(s.(sendq := s.sendq[1..]));
      assert Pending(s) == [s.sendq[0].arg] + Args(s.sendq[1..]);
    } else {
      SnocNoDup(s.recvq, t);
    }
  }

  lemma ReleaseSenderOk(s: Mbf, t: TaskId)
    requires MbfOk(s)
    ensures MbfOk(ReleaseSender(s, t).0) && Pending(ReleaseSender(s, t).0) == s.msgs + Args(Leave(s.sendq, t))
    ensures Tids(Leave(s.sendq, t)) == ReleaseSender(s, t).1 + Tids(ReleaseSender(s, t).0.sendq)
  {
    WakeupFreed(s.(sendq := Leave(s.sendq, t)));
    LeaveLine(s.tpri, s.sendq, t);
    WakeupOk(s.(sendq := Leave(s.sendq, t)));
  }

  /** A send that blocked and is given up leaves the buffer as it was. */
  lemma GivingUpUndoesSending(s: Mbf, t: TaskId, pri: int, m: Msg)
    requires MbfOk(s) && !Waits(s.sendq, t) && Send(s, t, pri, m, false, false).0.Blocked?
    ensures ReleaseSender(Send(s, t, pri, m, false, false).1, t) == (s, [])
  {
    LeaveUndoesJoin(s.tpri, s.sendq, Waiter(t, pri, m));
  }

  lemma ReorderSound(s: Mbf, t: TaskId, p: int)
    requires MbfOk(s) && s.tpri && Waits(s.sendq, t)
    ensures Sound(s.(sendq := Reorder(s.sendq, t, p)))
  {
    ReorderLine(s.sendq, t, p);
    assert Find(s.sendq, t) in s.sendq;
  }

  lemma ChangePriorityOk(s: Mbf, t: TaskId, p: int)
    requires MbfOk(s) && s.tpri && Waits(s.sendq, t)
    ensures MbfOk(ChangePriority(s, t, p).0)
    ensures Pending(ChangePriority(s, t, p).0) == s.msgs + Args(Reorder(s.sendq, t, p))
    ensures Tids(Reorder(s.sendq, t, p)) == ChangePriority(s, t, p).1 + Tids(ChangePriority(s, t, p).0.sendq)
  {
    WakeupFreed(s.(sendq := Reorder(s.sendq, t, p)));
    ReorderSound(s, t, p);
    WakeupOk(s.(sendq := Reorder(s.sendq, t, p)));
  }

  // ------------------------------------------------------------------- every run

  datatype Call =
    | Snd(t: TaskId, pri: int, m: Msg, poll: bool, handler: bool)
    | Rcv(t: TaskId, poll: bool)
    | RelSender(t: TaskId)
    | RelReceiver(t: TaskId)
    | ChgPri(t: TaskId, p: int)

  ghost predicate Legal(s: Mbf, c: Call) {
    match c
    case Snd(t, _, _, poll, handler) => !Waits(s.sendq, t) && (handler ==> poll)
    case Rcv(t, _) => t !in s.recvq
    case RelSender(t) => Waits(s.sendq, t)
    case RelReceiver(t) => t in s.recvq
    case ChgPri(t, _) => s.tpri && Waits(s.sendq, t)
  }

  /** The next state, the messages sent and those received by the call. */
  ghost function Do(s: Mbf, c: Call): (Mbf, seq<Msg>, seq<Msg>)
    requires Legal(s, c)
  {
    match c
    case Snd(t, pri, m, poll, handler) =>
      var r := Send(s, t, pri, m, poll, handler);
      (r.1, if r.0 == Answer(E_OK) || r.0.Blocked? then [m] else [], if r.2.Some? then [m] else [])
    case Rcv(t, poll) => var r := Receive(s, t, poll); (r.1, [], if r.0.Got? then [r.0.m] else [])
    case RelSender(t) => (ReleaseSender(s, t).0, [], [])
    case RelReceiver(t) => (s.(recvq := Without(s.recvq, t)), [], [])
    case ChgPri(t, p) => (ChangePriority(s, t, p).0, [], [])
  }

  ghost predicate IsRun(s: Mbf, cs: seq<Call>)
    decreases |cs|
  {
    cs == [] || (Legal(s, cs[0]) && IsRun(Do(s, cs[0]).0, cs[1..]))
  }

  ghost function After(s: Mbf, cs: seq<Call>): (Mbf, seq<Msg>, seq<Msg>)
    requires IsRun(s, cs)
    decreases |cs|
  {
    if cs == [] then (s, [], [])
    else
      var d := Do(s, cs[0]);
      var r := After(d.0, cs[1..]);
      (r.0, d.1 + r.1, d.2 + r.2)
  }

  lemma StepKeeps(s: Mbf, c: Call)
    requires MbfOk(s) && Legal(s, c)
    ensures MbfOk(Do(s, c).0) && Do(s, c).0.tpri == s.tpri
  {
    match c {
      case Snd(t, pri, m, poll, handler) => SendOk(s, t, pri, m, poll, handler);
      case Rcv(t, poll) => ReceiveOk(s, t, poll); ReceiveTpri(s, t, poll);
      case RelSender(t) => ReleaseSenderOk(s, t); WakeupTpri(s.(sendq := Leave(s.sendq, t)));
      case RelReceiver(t) => WithoutNoDup(s.recvq, t);
      case ChgPri(t, p) => ChangePriorityOk(s, t, p); WakeupTpri(s.(sendq := Reorder(s.sendq, t, p)));
    }
  }

  lemma {:induction false} WakeupTpri(s: Mbf)
    ensures Wakeup(s).0.tpri == s.tpri
    decreases |s.sendq|
  {
    if s.sendq != [] && Fits(s, s.sendq[0].arg) {
      WakeupTpri(s.(msgs := s.msgs + [s.sendq[0].arg], sendq := s.sendq[1..]));
    }
  }

  lemma ReceiveTpri(s: Mbf, t: TaskId, poll: bool)
    ensures Receive(s, t, poll).1.tpri == s.tpri
  {
    if s.msgs != [] { WakeupTpri(s.(msgs := s.msgs[1..])); }
    else if s.sendq != [] { WakeupTpri(s.(sendq := s.sendq[1..])); }
  }

  /** Over every run, with any mix of calls, nobody waits who could be served. */
  lemma {:induction false} EveryRun(s: Mbf, cs: seq<Call>)
    requires MbfOk(s) && IsRun(s, cs)
    ensures MbfOk(After(s, cs).0)
    decreases |cs|
  {
    if cs != [] {
      StepKeeps(s, cs[0]);
      EveryRun(Do(s, cs[0]).0, cs[1..]);
    }
  }

  /** Task-context sends and receives, and receivers that give up. */
  predicate Ordinary(c: Call) {
    (c.Snd? && !c.handler) || c.Rcv? || c.RelReceiver?
  }

  /** With senders in arrival order, over every run of such calls the messages received
      are the messages sent, in order; what is missing is pending. */
  lemma {:induction false} OneFifo(s: Mbf, cs: seq<Call>)
    requires MbfOk(s) && !s.tpri && IsRun(s, cs) && forall i :: 0 <= i < |cs| ==> Ordinary(cs[i])
    ensures var r := After(s, cs); Pending(s) + r.1 == r.2 + Pending(r.0)
    decreases |cs|
  {
    if cs != [] {
      var c := cs[0];
      var d := Do(s, c);
      StepKeeps(s, c);
      StepFifo(s, c);
      OneFifo(d.0, cs[1..]);
      var r := After(d.0, cs[1..]);
      Chain(Pending(s), d.1, d.2, Pending(d.0), r.1, r.2, Pending(r.0));
    }
  }

  lemma Chain(p: seq<Msg>, d1: seq<Msg>, d2: seq<Msg>, p1: seq<Msg>, r1: seq<Msg>, r2: seq<Msg>, p2: seq<Msg>)
    requires p + d1 == d2 + p1 && p1 + r1 == r2 + p2
    ensures p + (d1 + r1) == (d2 + r2) + p2
  {
    assert p + (d1 + r1) == (p + d1) + r1;
    assert d2 + p1 + r1 == d2 + (p1 + r1);
    assert d2 + (r2 + p2) == (d2 + r2) + p2;
  }

  lemma SndFifo(s: Mbf, t: TaskId, pri: int, m: Msg, poll: bool)
    requires MbfOk(s) && !s.tpri && !Waits(s.sendq, t)
    ensures var d := Do(s, Snd(t, pri, m, poll, false)); Pending(s) + d.1 == d.2 + Pending(d.0)
  {
    SendInOrder(s, t, pri, m, poll);
    var d := Do(s, Snd(t, pri, m, poll, false));
    Shifted(Pending(s), d.1, d.2, Pending(d.0), m);
  }

  lemma RcvFifo(s: Mbf, t: TaskId, poll: bool)
    requires MbfOk(s) && t !in s.recvq
    ensures var d := Do(s, Rcv(t, poll)); Pending(s) + d.1 == d.2 + Pending(d.0)
  {
    ReceiveOk(s, t, poll);
    var d := Do(s, Rcv(t, poll));
    Taken(Pending(s), d.2, Pending(d.0));
  }

  lemma Shifted(p: seq<Msg>, ins: seq<Msg>, outs: seq<Msg>, p': seq<Msg>, m: Msg)
    requires (ins == [m] && outs == [m] && p == [] && p' == []) || (ins == [m] && outs == [] && p' == p + [m])
             || (ins == [] && outs == [] && p' == p)
    ensures p + ins == outs + p'
  {
  }

  lemma Taken(p: seq<Msg>, outs: seq<Msg>, p': seq<Msg>)
    requires if p == [] then outs == [] && p' == [] else outs == [p[0]] && p' == p[1..]
    ensures p + [] == outs + p'
  {
  }

  lemma StepFifo(s: Mbf, c: Call)
    requires MbfOk(s) && !s.tpri && Legal(s, c) && Ordinary(c)
    ensures Pending(s) + Do(s, c).1 == Do(s, c).2 + Pending(Do(s, c).0)
  {
    match c {
      case Snd(t, pri, m, poll, handler) => SndFifo(s, t, pri, m, poll);
      case Rcv(t, poll) => RcvFifo(s, t, poll);
      case RelReceiver(t) =>
    }
  }

  // ------------------------------------------------------------ receivers in order

  /** Who is given which message by the call. */
  ghost function Given(s: Mbf, c: Call): seq<(TaskId, Msg)>
    requires Legal(s, c)
  {
    match c
    case Snd(t, pri, m, poll, handler) =>
      var to := Send(s, t, pri, m, poll, handler).2; if to.Some? then [(to.value, m)] else []
    case Rcv(t, poll) => var r := Receive(s, t, poll).0; if r.Got? then [(t, r.m)] else []
    case _ => []
  }

  ghost function AllGiven(s: Mbf, cs: seq<Call>): seq<(TaskId, Msg)>
    requires IsRun(s, cs)
    decreases |cs|
  {
    if cs == [] then [] else Given(s, cs[0]) + AllGiven(Do(s, cs[0]).0, cs[1..])
  }

  /** What a call does to the line of receivers: one that gets its message at once comes and
      is served. */
  ghost function Events(s: Mbf, c: Call): seq<Event>
    requires Legal(s, c)
  {
    match c
    case Rcv(t, poll) =>
      var r := Receive(s, t, poll).0; if r.Got? then [Comes(t), Serves([t])] else if r.Waiting? then [Comes(t)] else []
    case RelReceiver(t) => [Quits(t)]
    case _ => [Serves(Takers(Given(s, c)))]
  }

  ghost function History(s: Mbf, cs: seq<Call>): seq<Event>
    requires IsRun(s, cs)
    decreases |cs|
  {
    if cs == [] then [] else Events(s, cs[0]) + History(Do(s, cs[0]).0, cs[1..])
  }

  function Takers(g: seq<(TaskId, Msg)>): seq<TaskId> {
    if g == [] then [] else [g[0].0] + Takers(g[1..])
  }

  function Goods(g: seq<(TaskId, Msg)>): seq<Msg> {
    if g == [] then [] else [g[0].1] + Goods(g[1..])
  }

  lemma {:induction false} GivenJoin(g: seq<(TaskId, Msg)>, h: seq<(TaskId, Msg)>)
    ensures Takers(g + h) == Takers(g) + Takers(h) && Goods(g + h) == Goods(g) + Goods(h)
  {
    if g == [] {
      assert g + h == h;
    } else {
      assert (g + h)[1..] == g[1..] + h;
      GivenJoin(g[1..], h);
    }
  }

  lemma {:induction false} DoneJoin(es: seq<Event>, fs: seq<Event>)
    ensures Done(es + fs) == Done(es) + Done(fs)
    decreases |es|
  {
    if es == [] {
      assert es + fs == fs;
    } else {
      assert (es + fs)[1..] == es[1..] + fs;
      DoneJoin(es[1..], fs);
    }
  }

  lemma DoneOne(e: Event)
    ensures Done([e]) == Out(e)
  {
    assert [e][1..] == [];
  }

  lemma DoneComes(t: TaskId)
    ensures Done([Comes(t), Serves([t])]) == [t]
  {
    assert [Comes(t), Serves([t])][1..] == [Serves([t])];
    DoneOne(Serves([t]));
  }

  lemma ReceiveEvents(s: Mbf, t: TaskId, poll: bool)
    requires MbfOk(s) && t !in s.recvq
    ensures Leads(s.recvq, Events(s, Rcv(t, poll)), Receive(s, t, poll).1.recvq)
    ensures Done(Events(s, Rcv(t, poll))) == Takers(Given(s, Rcv(t, poll)))
  {
    var r := Receive(s, t, poll);
    if r.0.Got? {
      KeepsReceivers(s, t, poll);
      LeadsOne([], Comes(t));
      LeadsOne([t], Serves([t]));
      LeadsJoin([], [Comes(t)], [t], [Serves([t])], []);
      assert [Comes(t)] + [Serves([t])] == [Comes(t), Serves([t])];
      DoneComes(t);
    } else if r.0.Waiting? {
      LeadsOne(s.recvq, Comes(t));
      DoneOne(Comes(t));
    }
  }

  /** Nobody else waits for a message that is received at once. */
  lemma KeepsReceivers(s: Mbf, t: TaskId, poll: bool)
    requires MbfOk(s) && Receive(s, t, poll).0.Got?
    ensures s.recvq == [] && Receive(s, t, poll).1.recvq == []
  {
    if s.msgs != [] {
      TakeStored(s);
      WakeupOk(s.(msgs := s.msgs[1..]));
    } else {
      TakeWaiting(s);
      WakeupOk(s.(sendq := s.sendq[1..]));
    }
  }

  lemma OneTaker(t: TaskId, m: Msg)
    ensures Takers([(t, m)]) == [t] && Goods([(t, m)]) == [m]
  {
    assert [(t, m)][1..] == [];
  }

  lemma SendEvents(s: Mbf, c: Call)
    requires MbfOk(s) && c.Snd? && Legal(s, c)
    ensures Leads(s.recvq, Events(s, c), Do(s, c).0.recvq)
    ensures Done(Events(s, c)) == Takers(Given(s, c))
  {
    SendExact(s, c.t, c.pri, c.m, c.poll, c.handler);
    var to := Takers(Given(s, c));
    var r := Send(s, c.t, c.pri, c.m, c.poll, c.handler);
    if r.2.Some? {
      OneTaker(r.2.value, c.m);
    }
    LeadsOne(s.recvq, Serves(to));
    DoneOne(Serves(to));
  }

  lemma OtherEvents(s: Mbf, c: Call)
    requires MbfOk(s) && Legal(s, c) && (c.RelSender? || c.ChgPri?)
    ensures Leads(s.recvq, Events(s, c), Do(s, c).0.recvq)
    ensures Done(Events(s, c)) == Takers(Given(s, c))
  {
    if c.RelSender? {
      LeaveLine(s.tpri, s.sendq, c.t);
      WakeupOk(s.(sendq := Leave(s.sendq, c.t)));
    } else {
      ReorderSound(s, c.t, c.p);
      WakeupOk(s.(sendq := Reorder(s.sendq, c.t, c.p)));
    }
    LeadsOne(s.recvq, Serves([]));
    DoneOne(Serves([]));
  }

  lemma CallEvents(s: Mbf, c: Call)
    requires MbfOk(s) && Legal(s, c)
    ensures Leads(s.recvq, Events(s, c), Do(s, c).0.recvq)
    ensures Done(Events(s, c)) == Takers(Given(s, c)) && Goods(Given(s, c)) == Do(s, c).2
  {
    match c {
      case Snd(_, _, _, _, _) => SendEvents(s, c);
      case Rcv(t, poll) => ReceiveEvents(s, t, poll);
      case RelReceiver(t) =>
        LeadsOne(s.recvq, Quits(t));
        DoneOne(Quits(t));
      case _ => OtherEvents(s, c);
    }
  }

  lemma {:induction false} RunEvents(s: Mbf, cs: seq<Call>)
    requires MbfOk(s) && IsRun(s, cs)
    ensures Leads(s.recvq, History(s, cs), After(s, cs).0.recvq)
    ensures Done(History(s, cs)) == Takers(AllGiven(s, cs)) && Goods(AllGiven(s, cs)) == After(s, cs).2
    decreases |cs|
  {
    if cs != [] {
      var s1 := Do(s, cs[0]).0;
      StepKeeps(s, cs[0]);
      CallEvents(s, cs[0]);
      RunEvents(s1, cs[1..]);
      LeadsJoin(s.recvq, Events(s, cs[0]), s1.recvq, History(s1, cs[1..]), After(s, cs).0.recvq);
      DoneJoin(Events(s, cs[0]), History(s1, cs[1..]));
      GivenJoin(Given(s, cs[0]), AllGiven(s1, cs[1..]));
    }
  }

  /** Over every run, with any mix of calls: the messages received are given, one by one, to
      those that came to receive and did not give up, in the order in which they came; the
      others still wait in that order. */
  lemma ReceiversInOrder(s: Mbf, cs: seq<Call>)
    requires MbfOk(s) && IsRun(s, cs)
    ensures var g := AllGiven(s, cs);
            && Goods(g) == After(s, cs).2
            && Standing(s.recvq, History(s, cs)) == Takers(g) + After(s, cs).0.recvq
  {
    RunEvents(s, cs);
    InOrder([], s.recvq, History(s, cs), After(s, cs).0.recvq);
    assert [] + s.recvq == s.recvq && [] + Done(History(s, cs)) == Done(History(s, cs));
  }

  // ------------------------------------------------- the stream of kept messages

  /** A message with the task that sent it; a handler has no name. */
  datatype Sent = Sent(sender: Option<TaskId>, msg: Msg)

  function Tags(q: Senders): (r: seq<Sent>)
    ensures |r| == |q|
  {
    if q == [] then [] else [Sent(Some(q[0].tid), q[0].arg)] + Tags(q[1..])
  }

  function Bare(k: seq<Sent>): seq<Msg> {
    if k == [] then [] else [k[0].msg] + Bare(k[1..])
  }

  /** Take out what task `t` sent last. */
  function TakenBack(k: seq<Sent>, t: TaskId): seq<Sent> {
    if k == [] then []
    else
      var n := |k| - 1;
      if k[n].sender == Some(t) then k[..n] else TakenBack(k[..n], t) + [k[n]]
  }

  predicate Accepted(r: SendResult) {
    r == Answer(E_OK) || r.Blocked?
  }

  /** The messages that were sent and not given up, in the order in which they are to be
      received: a task's comes last, a handler's before those that still wait, and a sender
      that gives up takes its last one back. */
  function Kept(s: Mbf, k: seq<Sent>, c: Call): seq<Sent> {
    match c
    case Snd(t, pri, m, poll, handler) =>
      if !Accepted(Send(s, t, pri, m, poll, handler).0) then k
      else if handler && |s.sendq| <= |k| then
        k[..|k| - |s.sendq|] + [Sent(None, m)] + k[|k| - |s.sendq|..]
      else k + [Sent(if handler then None else Some(t), m)]
    case RelSender(t) => TakenBack(k, t)
    case _ => k
  }

  /** State, kept messages and received messages after a run. */
  ghost function Stream(s: Mbf, k: seq<Sent>, got: seq<Msg>, cs: seq<Call>): (Mbf, seq<Sent>, seq<Msg>)
    requires IsRun(s, cs)
    decreases |cs|
  {
    if cs == [] then (s, k, got)
    else var d := Do(s, cs[0]); Stream(d.0, Kept(s, k, cs[0]), got + d.2, cs[1..])
  }

  /** The kept messages are those received, those stored and those of the waiting senders. */
  ghost predicate InStream(s: Mbf, k: seq<Sent>, got: seq<Msg>) {
    |s.sendq| <= |k| && k[|k| - |s.sendq|..] == Tags(s.sendq) && Bare(k[..|k| - |s.sendq|]) == got + s.msgs
  }

  lemma {:induction false} BareJoin(a: seq<Sent>, b: seq<Sent>)
    ensures Bare(a + b) == Bare(a) + Bare(b)
  {
    if a == [] {
      assert a + b == b;
    } else {
      assert (a + b)[1..] == a[1..] + b;
      BareJoin(a[1..], b);
    }
  }

  lemma {:induction false} BareTags(q: Senders)
    ensures Bare(Tags(q)) == Args(q)
  {
    if q != [] {
      BareTags(q[1..]);
      assert Tags(q)[1..] == Tags(q[1..]);
    }
  }

  lemma {:induction false} TagsJoin(p: Senders, q: Senders)
    ensures Tags(p + q) == Tags(p) + Tags(q)
  {
    if p == [] {
      assert p + q == q;
    } else {
      assert (p + q)[1..] == p[1..] + q;
      TagsJoin(p[1..], q);
    }
  }

  /** In a stream, the kept messages are those received and those pending, in order. */
  lemma StreamIsFifo(s: Mbf, k: seq<Sent>, got: seq<Msg>)
    requires InStream(s, k, got)
    ensures Bare(k) == got + Pending(s)
  {
    var n := |k| - |s.sendq|;
    assert k == k[..n] + k[n..];
    BareJoin(k[..n], k[n..]);
    BareTags(s.sendq);
    assert got + s.msgs + Args(s.sendq) == got + (s.msgs + Args(s.sendq));
  }

  /** The first waiting sender's message becomes the last one stored. */
  lemma StreamMoves(s: Mbf, k: seq<Sent>, got: seq<Msg>)
    requires InStream(s, k, got) && s.sendq != []
    ensures var n := |k| - |s.sendq|;
            k[n + 1..] == Tags(s.sendq[1..]) && Bare(k[..n + 1]) == got + s.msgs + [s.sendq[0].arg]
  {
    var n := |k| - |s.sendq|;
    var x := Sent(Some(s.sendq[0].tid), s.sendq[0].arg);
    assert Tags(s.sendq)[1..] == Tags(s.sendq[1..]) && k[n..][1..] == k[n + 1..];
    assert k[n] == k[n..][0] == x;
    assert k[..n + 1] == k[..n] + [x];
    BareJoin(k[..n], [x]);
    assert Bare([x]) == [x.msg] by { assert [x][1..] == []; }
  }

  lemma {:induction false} StreamWakes(s: Mbf, k: seq<Sent>, got: seq<Msg>)
    requires InStream(s, k, got)
    ensures InStream(Wakeup(s).0, k, got)
    decreases |s.sendq|
  {
    if s.sendq != [] && Fits(s, s.sendq[0].arg) {
      StreamMoves(s, k, got);
      var s1 := s.(msgs := s.msgs + [s.sendq[0].arg], sendq := s.sendq[1..]);
      assert got + s.msgs + [s.sendq[0].arg] == got + s1.msgs;
      StreamWakes(s1, k, got);
    }
  }

  lemma StreamSends(s: Mbf, k: seq<Sent>, got: seq<Msg>, c: Call)
    requires MbfOk(s) && !s.tpri && InStream(s, k, got) && c.Snd? && Legal(s, c)
    ensures var r := Send(s, c.t, c.pri, c.m, c.poll, c.handler);
            InStream(r.1, Kept(s, k, c), got + (if r.2.Some? then [c.m] else []))
  {
    var r := Send(s, c.t, c.pri, c.m, c.poll, c.handler);
    var n := |k| - |s.sendq|;
    var x := Sent(if c.handler then None else Some(c.t), c.m);
    if !Accepted(r.0) {
      assert got + [] == got;
    } else if r.0.Blocked? {
      StreamQueues(s, k, got, Waiter(c.t, c.pri, c.m));
    } else if r.2.Some? {
      StreamDirect(s, k, got, x);
    } else {
      StreamAdds(s, k, got, x);
    }
  }

  /** A message put straight into the ring. */
  lemma StreamAdds(s: Mbf, k: seq<Sent>, got: seq<Msg>, x: Sent)
    requires InStream(s, k, got)
    ensures var n := |k| - |s.sendq|;
            && InStream(s.(msgs := s.msgs + [x.msg]), k[..n] + [x] + k[n..], got + [])
            && (s.sendq == [] ==> k[..n] + [x] + k[n..] == k + [x])
  {
    var n := |k| - |s.sendq|;
    StreamStores(k, n, x);
    assert got + s.msgs + [x.msg] == got + [] + (s.msgs + [x.msg]);
  }

  /** A message handed to the first waiting receiver. */
  lemma StreamDirect(s: Mbf, k: seq<Sent>, got: seq<Msg>, x: Sent)
    requires InStream(s, k, got) && s.msgs == [] && s.sendq == [] && s.recvq != []
    ensures InStream(s.(recvq := s.recvq[1..]), k + [x], got + [x.msg])
    ensures k[..|k|] + [x] + k[|k|..] == k + [x]
  {
    StreamStores(k, |k|, x);
    assert got + [] + [x.msg] == got + [x.msg] + [];
  }

  /** A message put before position `n`. */
  lemma StreamStores(k: seq<Sent>, n: nat, x: Sent)
    requires n <= |k|
    ensures var k' := k[..n] + [x] + k[n..];
            k'[n + 1..] == k[n..] && Bare(k'[..n + 1]) == Bare(k[..n]) + [x.msg] && (n == |k| ==> k' == k + [x])
  {
    var k' := k[..n] + [x] + k[n..];
    assert k'[..n + 1] == k[..n] + [x];
    BareJoin(k[..n], [x]);
    assert Bare([x]) == [x.msg] by { assert [x][1..] == []; }
  }

  /** A sender that has to wait is the last in line. */
  lemma StreamQueues(s: Mbf, k: seq<Sent>, got: seq<Msg>, w: Waiter<Msg>)
    requires InStream(s, k, got)
    ensures InStream(s.(sendq := Join(false, s.sendq, w)), k + [Sent(Some(w.tid), w.arg)], got + [])
  {
    var n := |k| - |s.sendq|;
    var x := Sent(Some(w.tid), w.arg);
    assert Join(false, s.sendq, w) == s.sendq + [w];
    TagsJoin(s.sendq, [w]);
    assert Tags([w]) == [x] by { assert [w][1..] == []; }
    assert (k + [x])[n..] == k[n..] + [x] && (k + [x])[..n] == k[..n];
    assert got + [] == got;
  }

  lemma StreamReceives(s: Mbf, k: seq<Sent>, got: seq<Msg>, t: TaskId, poll: bool)
    requires InStream(s, k, got)
    ensures var r := Receive(s, t, poll); InStream(r.1, k, got + (if r.0.Got? then [r.0.m] else []))
  {
    if s.msgs != [] {
      StreamTakes(s, k, got);
    } else if s.sendq != [] {
      StreamHands(s, k, got);
    } else {
      assert got + [] == got;
    }
  }

  lemma StreamTakes(s: Mbf, k: seq<Sent>, got: seq<Msg>)
    requires InStream(s, k, got) && s.msgs != []
    ensures InStream(Wakeup(s.(msgs := s.msgs[1..])).0, k, got + [s.msgs[0]])
  {
    assert got + s.msgs == got + [s.msgs[0]] + s.msgs[1..];
    StreamWakes(s.(msgs := s.msgs[1..]), k, got + [s.msgs[0]]);
  }

  lemma StreamHands(s: Mbf, k: seq<Sent>, got: seq<Msg>)
    requires InStream(s, k, got) && s.msgs == [] && s.sendq != []
    ensures InStream(Wakeup(s.(sendq := s.sendq[1..])).0, k, got + [s.sendq[0].arg])
  {
    var m := s.sendq[0].arg;
    StreamMoves(s, k, got);
    assert got + [] + [m] == got + [m] + [];
    StreamWakes(s.(sendq := s.sendq[1..]), k, got + [m]);
  }

  lemma TakenBackSnoc(a: seq<Sent>, x: Sent, t: TaskId)
    ensures TakenBack(a + [x], t) == if x.sender == Some(t) then a else TakenBack(a, t) + [x]
  {
    assert (a + [x])[..|a|] == a;
  }

  lemma TagsSnoc(p: Senders, w: Waiter<Msg>)
    ensures Tags(p + [w]) == Tags(p) + [Sent(Some(w.tid), w.arg)]
  {
    TagsJoin(p, [w]);
    assert [w][1..] == [];
  }

  /** Taking back what a waiting task sent last takes out its waiting message. */
  lemma {:induction false} TakesBackWaiting(pre: seq<Sent>, q: Senders, t: TaskId)
    requires Line(false, q) && Waits(q, t)
    ensures TakenBack(pre + Tags(q), t) == pre + Tags(Leave(q, t)) && |Leave(q, t)| == |q| - 1
    decreases |q|
  {
    var n := |q| - 1;
    var p, w := q[..n], q[n];
    var x := Sent(Some(w.tid), w.arg);
    assert q == p + [w];
    TagsSnoc(p, w);
    assert pre + Tags(q) == pre + Tags(p) + [x];
    TakenBackSnoc(pre + Tags(p), x, t);
    FrontLine(q);
    LeaveSnoc(p, w, t);
    if w.tid != t {
      WaitsFront(p, w, t);
      TakesBackWaiting(pre, p, t);
      TagsSnoc(Leave(p, t), w);
      assert pre + Tags(Leave(p, t)) + [x] == pre + (Tags(Leave(p, t)) + [x]);
    }
  }

  lemma WaitsFront(p: Senders, w: Waiter<Msg>, t: TaskId)
    requires Waits(p + [w], t) && w.tid != t
    ensures Waits(p, t)
  {
    var v :| v in p + [w] && v.tid == t;
    assert v in p;
  }

  lemma FrontLine(q: Senders)
    requires Line(false, q) && q != []
    ensures Line(false, q[..|q| - 1]) && !Waits(q[..|q| - 1], q[|q| - 1].tid)
  {
    var n := |q| - 1;
    var p := q[..n];
    forall i, j | Before(p, i, j) ensures p[i].tid != p[j].tid { assert Before(q, i, j); }
    forall v | v in p ensures v.tid != q[n].tid {
      var i :| 0 <= i < n && p[i] == v;
      assert Before(q, i, n);
    }
  }

  lemma {:induction false} LeaveSnoc(p: Senders, w: Waiter<Msg>, t: TaskId)
    ensures Leave(p + [w], t) == if Waits(p, t) then Leave(p, t) + [w] else if w.tid == t then p else p + [w]
  {
    if p == [] {
      assert p + [w] == [w] && [w][1..] == [];
    } else {
      assert (p + [w])[1..] == p[1..] + [w];
      assert p == [p[0]] + p[1..];
      LeaveSnoc(p[1..], w, t);
      WaitsCons(p, t);
    }
  }

  lemma WaitsCons(p: Senders, t: TaskId)
    requires p != []
    ensures Waits(p, t) <==> p[0].tid == t || Waits(p[1..], t)
  {
    assert p == [p[0]] + p[1..];
    if Waits(p, t) {
      var v :| v in p && v.tid == t;
      assert v == p[0] || v in p[1..];
    }
    if p[0].tid == t { assert p[0] in p; }
    if v :| v in p[1..] && v.tid == t { assert v in p; }
  }

  lemma StreamGivesUp(s: Mbf, k: seq<Sent>, got: seq<Msg>, t: TaskId)
    requires MbfOk(s) && !s.tpri && InStream(s, k, got) && Waits(s.sendq, t)
    ensures InStream(ReleaseSender(s, t).0, TakenBack(k, t), got + [])
  {
    var n := |k| - |s.sendq|;
    var pre, q := k[..n], Leave(s.sendq, t);
    assert k == pre + k[n..];
    TakesBackWaiting(pre, s.sendq, t);
    var k' := pre + Tags(q);
    assert k'[|k'| - |q|..] == Tags(q) && k'[..|k'| - |q|] == pre;
    assert got + [] == got;
    StreamWakes(s.(sendq := q), k', got);
  }

  lemma StreamStep(s: Mbf, k: seq<Sent>, got: seq<Msg>, c: Call)
    requires MbfOk(s) && !s.tpri && InStream(s, k, got) && Legal(s, c)
    ensures InStream(Do(s, c).0, Kept(s, k, c), got + Do(s, c).2)
  {
    match c {
      case Snd(t, pri, m, poll, handler) => StreamSends(s, k, got, c);
      case Rcv(t, poll) => StreamReceives(s, k, got, t, poll);
      case RelSender(t) => StreamGivesUp(s, k, got, t);
      case RelReceiver(t) => assert got + [] == got;
    }
  }

  /** With senders in arrival order, over every run, with handlers that send and senders and
      receivers that give up: the messages received and then those pending are the messages
      kept, in order. */
  lemma {:induction false} OneStream(s: Mbf, k: seq<Sent>, got: seq<Msg>, cs: seq<Call>)
    requires MbfOk(s) && !s.tpri && InStream(s, k, got) && IsRun(s, cs)
    ensures var r := Stream(s, k, got, cs); InStream(r.0, r.1, r.2) && Bare(r.1) == r.2 + Pending(r.0)
    decreases |cs|
  {
    if cs == [] {
      StreamIsFifo(s, k, got);
    } else {
      var c := cs[0];
      StepKeeps(s, c);
      StreamStep(s, k, got, c);
      OneStream(Do(s, c).0, Kept(s, k, c), got + Do(s, c).2, cs[1..]);
    }
  }

  /** A handler's send keeps the order, that is, its message is put last or refused, exactly
      if no sender waits or the message is out of range or does not fit; otherwise it passes
      all that wait. */
  lemma HandlerKeepsOrder(s: Mbf, k: seq<Sent>, got: seq<Msg>, t: TaskId, pri: int, m: Msg)
    requires MbfOk(s) && InStream(s, k, got)
    ensures var k' := Kept(s, k, Snd(t, pri, m, true, true));
            k' == k || k' == k + [Sent(None, m)] <==> s.sendq == [] || !(0 < |m| <= s.maxmsz && Fits(s, m))
  {
    var n := |k| - |s.sendq|;
    var k' := Kept(s, k, Snd(t, pri, m, true, true));
    if s.sendq != [] && 0 < |m| <= s.maxmsz && Fits(s, m) {
      assert k[n] == k[n..][0] && Tags(s.sendq)[0].sender.Some?;
      assert k' == k[..n] + [Sent(None, m)] + k[n..];
      assert k'[n] == Sent(None, m) && |k'| == |k| + 1;
    } else if s.sendq == [] {
      StreamStores(k, n, Sent(None, m));
    }
  }

  // ------------------------------------------------------------ the control block

  class MbfControl {
    const ring: ByteRing
    const maxmsz: int
    const tpri: bool
    var sendq: Senders
    var recvq: seq<TaskId>
    ghost var msgs: seq<Msg>

    ghost function State(): Mbf
      reads this, ring
    {
      Mbf(ring.buffer.Length, maxmsz, tpri, msgs, sendq, recvq)
    }

    ghost predicate Valid()
      reads this, ring, ring.buffer
    {
      ring.Holds(msgs) && MbfOk(State())
    }

    /** tk_cre_mbf, with arguments it accepts; the buffer size is already rounded. */
    constructor (bufsz: int, maxmsz: int, tpri: bool)
      requires 0 <= bufsz < 0x8000_0000 && bufsz % 4 == 0 && 0 < maxmsz < 0x8000_0000
      ensures Valid() && State() == Mbf(bufsz, maxmsz, tpri, [], [], []) && fresh(ring) && fresh(ring.buffer)
    {
      ring := new ByteRing(bufsz);
      this.maxmsz, this.tpri := maxmsz, tpri;
      sendq, recvq, msgs := [], [], [];
    }

    method Store(m: Msg)
      requires ring.Holds(msgs) && 0 < |m| && ring.Free(|m|)
      modifies this`msgs, ring, ring.buffer
      ensures ring.Holds(msgs) && msgs == old(msgs) + [m]
    {
      ring.MsgToMbf(m, msgs);
      msgs := msgs + [m];
    }

    /** The first waiting sender's message goes into the ring. */
    method StoreTop()
      requires ring.Holds(msgs) && sendq != [] && 0 < |sendq[0].arg| && ring.Free(|sendq[0].arg|)
      modifies this`sendq, this`msgs, ring, ring.buffer
      ensures ring.Holds(msgs)
      ensures State() == old(State().(msgs := State().msgs + [sendq[0].arg], sendq := sendq[1..]))
    {
      Store(sendq[0].arg);
      sendq := sendq[1..];
    }

    /** knl_mbf_wakeup. */
    method MbfWakeup() returns (freed: seq<TaskId>)
      requires ring.Holds(msgs) && Sound(State())
      modifies this`sendq, this`msgs, ring, ring.buffer
      ensures Valid() && (State(), freed) == Wakeup(old(State()))
    {
      WakeupOk(State());
      UnderwayStart(State());
      freed := [];
      while sendq != []
        invariant ring.Holds(msgs) && Sound(State()) && Underway(old(State()), freed, State())
        decreases |sendq|
      {
        Accounts(ring.buffer[..], ring.head, ring.tail, ring.frbufsz, msgs);
        var top := sendq[0];
        if !ring.Free(|top.arg|) { break; }
        UnderwayStep(old(State()), freed, State());
        StoreTop();
        freed := freed + [top.tid];
      }
      Accounts(ring.buffer[..], ring.head, ring.tail, ring.frbufsz, msgs);
      UnderwayEnd(old(State()), freed, State());
    }

    method TkSndMbf(t: TaskId, pri: int, m: Msg, poll: bool, handler: bool) returns (r: SendResult, to: Option<TaskId>)
      requires Valid() && !Waits(sendq, t) && (handler ==> poll)
      modifies this, ring, ring.buffer
      ensures Valid() && (r, State(), to) == Send(old(State()), t, pri, m, poll, handler)
    {
      SendOk(State(), t, pri, m, poll, handler);
      Accounts(ring.buffer[..], ring.head, ring.tail, ring.frbufsz, msgs);
      to := None;
      if |m| == 0 || |m| > maxmsz { return Answer(E_PAR), None; }
      if recvq != [] {
        to := Some(recvq[0]);
        recvq := recvq[1..];
        r := Answer(E_OK);
      } else if (handler || Top(tpri, sendq, pri)) && ring.Free(|m|) {
        Store(m);
        r := Answer(E_OK);
      } else if poll {
        r := Answer(E_TMOUT);
      } else {
        sendq := Join(tpri, sendq, Waiter(t, pri, m));
        r := Blocked;
      }
    }

    method TkRcvMbf(t: TaskId, poll: bool) returns (r: RecvResult, freed: seq<TaskId>)
      requires Valid() && t !in recvq
      modifies this, ring, ring.buffer
      ensures Valid() && (r, State(), freed) == Receive(old(State()), t, poll)
    {
      Accounts(ring.buffer[..], ring.head, ring.tail, ring.frbufsz, msgs);
      if !ring.Empty() {
        r, freed := ReceiveStored();
      } else if sendq != [] {
        r, freed := ReceiveDirectly();
      } else {
        ReceiveOk(State(), t, poll);
        freed := [];
        if poll { return Failed(E_TMOUT), freed; }
        recvq := recvq + [t];
        r := Waiting;
      }
    }

    /** The branch of tk_rcv_mbf for a buffer that is not empty. */
    method ReceiveStored() returns (r: RecvResult, freed: seq<TaskId>)
      requires Valid() && msgs != []
      modifies this`sendq, this`msgs, ring, ring.buffer
      ensures Valid()
      ensures var w := Wakeup(old(State().(msgs := msgs[1..]))); (r, State(), freed) == (Got(old(msgs[0])), w.0, w.1)
    {
      TakeStored(State());
      var m := ring.MbfToMsg(msgs);
      msgs := msgs[1..];
      r := Got(m);
      freed := MbfWakeup();
    }

    /** The branch of tk_rcv_mbf for an empty buffer and a waiting sender. */
    method ReceiveDirectly() returns (r: RecvResult, freed: seq<TaskId>)
      requires Valid() && sendq != []
      modifies this`sendq, this`msgs, ring, ring.buffer
      ensures Valid()
      ensures var w := Wakeup(old(State().(sendq := sendq[1..])));
              (r, State(), freed) == (Got(old(sendq[0].arg)), w.0, [old(sendq[0].tid)] + w.1)
    {
      var top := sendq[0];
      TakeWaiting(State());
      sendq := sendq[1..];
      r := Got(top.arg);
      freed := MbfWakeup();
      freed := [top.tid] + freed;
    }

    /** The waiting sender `t` is released by timeout or tk_rel_wai. */
    method ReleaseWait(t: TaskId) returns (freed: seq<TaskId>)
      requires Valid() && Waits(sendq, t)
      modifies this, ring, ring.buffer
      ensures Valid() && (State(), freed) == ReleaseSender(old(State()), t)
    {
      LeaveLine(tpri, sendq, t);
      sendq := Leave(sendq, t);
      freed := MbfWakeup();
    }

    method MbfChgPri(t: TaskId, p: int) returns (freed: seq<TaskId>)
      requires Valid() && tpri && Waits(sendq, t)
      modifies this, ring, ring.buffer
      ensures Valid() && (State(), freed) == ChangePriority(old(State()), t, p)
    {
      ReorderSound(State(), t, p);
      sendq := Reorder(sendq, t, p);
      freed := MbfWakeup();
    }
  }

  lemma TakeStored(s: Mbf)
    requires MbfOk(s) && s.msgs != []
    ensures Sound(s.(msgs := s.msgs[1..]))
  {
    UsedAligned(s.msgs[1..]);
    PaddedFacts(|s.msgs[0]|);
    assert forall m :: m in s.msgs[1..] ==> m in s.msgs;
  }

  lemma TakeWaiting(s: Mbf)
    requires MbfOk(s) && s.sendq != []
    ensures Sound(s.(sendq := s.sendq[1..]))
  {
    TailLine(s.tpri, s.sendq);
    assert forall w :: w in s.sendq[1..] ==> w in s.sendq;
  }
}
