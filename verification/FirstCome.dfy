/**
 Lines in order of arrival, seen from outside: who came, who gave up and who was served.
 Whatever keeps a line this way serves in order.
 */
module FirstCome {
  import opened Common

  datatype Event =
    /** A task joins the line. */
    | Comes(t: TaskId)
    /** A task gives up and leaves the line. */
    | Quits(t: TaskId)
    /** These tasks are served. */
    | Serves(ts: seq<TaskId>)

  ghost predicate Legal(q: seq<TaskId>, e: Event) {
    match e
    case Comes(t) => t !in q
    case Quits(t) => t in q
    case Serves(ts) => |ts| <= |q| && q[..|ts|] == ts
  }

  ghost function Next(q: seq<TaskId>, e: Event): seq<TaskId>
    requires Legal(q, e)
  {
    match e
    case Comes(t) => q + [t]
    case Quits(t) => Without(q, t)
    case Serves(ts) => q[|ts|..]
  }

  /** The events lead from the line `q` to the line `q'`. */
  ghost predicate Leads(q: seq<TaskId>, es: seq<Event>, q': seq<TaskId>)
    decreases |es|
  {
    if es == [] then q' == q else Legal(q, es[0]) && Leads(Next(q, es[0]), es[1..], q')
  }

  /** Take out the last place of `t`. */
  function TakenOut(k: seq<TaskId>, t: TaskId): seq<TaskId> {
    if k == [] then []
    else
      var n := |k| - 1;
      if k[n] == t then k[..n] else TakenOut(k[..n], t) + [k[n]]
  }

  function Kept(k: seq<TaskId>, e: Event): seq<TaskId> {
    match e
    case Comes(t) => k + [t]
    case Quits(t) => TakenOut(k, t)
    case Serves(_) => k
  }

  function Out(e: Event): seq<TaskId> {
    if e.Serves? then e.ts else []
  }

  /** Those that came and did not give up, in the order in which they came. */
  ghost function Standing(k: seq<TaskId>, es: seq<Event>): seq<TaskId>
    decreases |es|
  {
    if es == [] then k else Standing(Kept(k, es[0]), es[1..])
  }

  /** Those that were served, in order. */
  ghost function Done(es: seq<Event>): seq<TaskId>
    decreases |es|
  {
    if es == [] then [] else Out(es[0]) + Done(es[1..])
  }

  lemma {:induction false} TakesOut(p: seq<TaskId>, q: seq<TaskId>, t: TaskId)
    requires NoDup(q) && t in q
    ensures TakenOut(p + q, t) == p + Without(q, t)
    decreases |q|
  {
    var n := |q| - 1;
    var r, x := q[..n], q[n];
    assert q == r + [x] && p + q == p + r + [x] && (p + q)[..|p + q| - 1] == p + r;
    WithoutSnoc(r, x, t);
    if x == t {
      assert t !in r by {
        forall i | 0 <= i < n ensures r[i] != t { NoDupAt(q, i, n); }
      }
    } else {
      assert t in r;
      FrontNoDup(q);
      TakesOut(p, r, t);
      assert p + Without(r, t) + [x] == p + (Without(r, t) + [x]);
    }
  }

  lemma FrontNoDup(q: seq<TaskId>)
    requires NoDup(q) && q != []
    ensures NoDup(q[..|q| - 1])
  {
    var r := q[..|q| - 1];
    forall i, j | Before(r, i, j) ensures r[i] != r[j] { assert Before(q, i, j); }
  }

  lemma NextNoDup(q: seq<TaskId>, e: Event)
    requires NoDup(q) && Legal(q, e)
    ensures NoDup(Next(q, e))
  {
    match e {
      case Comes(t) => SnocNoDup(q, t);
      case Quits(t) => WithoutNoDup(q, t);
      case Serves(ts) =>
        var r := q[|ts|..];
        forall i, j | Before(r, i, j) ensures r[i] != r[j] { assert Before(q, |ts| + i, |ts| + j); }
    }
  }

  lemma StepInOrder(served: seq<TaskId>, q: seq<TaskId>, e: Event)
    requires NoDup(q) && Legal(q, e)
    ensures Kept(served + q, e) == served + Out(e) + Next(q, e)
  {
    match e {
      case Comes(t) => assert served + q + [t] == served + [] + (q + [t]);
      case Quits(t) => TakesOut(served, q, t);
      case Serves(ts) => assert q == ts + q[|ts|..];
    }
  }

  /** Those that were served, and behind them those that still stand in line, are those that
      came and did not give up, in the order in which they came. */
  lemma {:induction false} InOrder(served: seq<TaskId>, q: seq<TaskId>, es: seq<Event>, q': seq<TaskId>)
    requires NoDup(q) && Leads(q, es, q')
    ensures Standing(served + q, es) == served + Done(es) + q'
    decreases |es|
  {
    if es == [] {
      assert served + [] + q' == served + q;
    } else {
      var e := es[0];
      NextNoDup(q, e);
      StepInOrder(served, q, e);
      InOrder(served + Out(e), Next(q, e), es[1..], q');
      assert served + Out(e) + Done(es[1..]) == served + (Out(e) + Done(es[1..]));
    }
  }

  lemma {:induction false} LeadsJoin(q: seq<TaskId>, es: seq<Event>, q1: seq<TaskId>, fs: seq<Event>, q2: seq<TaskId>)
    requires Leads(q, es, q1) && Leads(q1, fs, q2)
    ensures Leads(q, es + fs, q2)
    decreases |es|
  {
    if es == [] {
      assert es + fs == fs;
    } else {
      LeadsJoin(Next(q, es[0]), es[1..], q1, fs, q2);
      assert (es + fs)[1..] == es[1..] + fs;
    }
  }

  lemma {:induction false} DoneJoin(es: seq<Event>, fs: seq<Event>)
    ensures Done(es + fs) == Done(es) + Done(fs)
    decreases |es|
  {
    if es == [] {
      assert es + fs == fs;
    } else {
      DoneJoin(es[1..], fs);
      assert (es + fs)[1..] == es[1..] + fs;
    }
  }

  /** One event. */
  lemma LeadsOne(q: seq<TaskId>, e: Event)
    requires Legal(q, e)
    ensures Leads(q, [e], Next(q, e))
  {
    assert [e][1..] == [];
  }
}
