/** Wait rings of kernel objects, seen as sequences (wait.c, wait.h). */
module WaitQueue {
  import opened Common

  /** A waiting task with its current priority and what it waits for (its winfo). */
  datatype Waiter<A> = Waiter(tid: TaskId, pri: int, arg: A)

  /** A ring a task can be in once only, ordered by priority if the object is TA_TPRI. */
  ghost predicate Line<A>(tpri: bool, q: seq<Waiter<A>>) {
    forall i, j {:trigger Before(q, i, j)} :: Before(q, i, j) ==>
      q[i].tid != q[j].tid && (tpri ==> q[i].pri <= q[j].pri)
  }

  ghost predicate Waits<A>(q: seq<Waiter<A>>, t: TaskId) {
    exists w :: w in q && w.tid == t
  }

  /** The scan of knl_queue_insert_tpri. */
  function InsertPos<A>(q: seq<Waiter<A>>, pri: int): (k: nat)
    ensures k <= |q| && (forall i :: 0 <= i < k ==> q[i].pri <= pri) && (k < |q| ==> q[k].pri > pri)
  {
    var keys := seq(|q|, i requires 0 <= i < |q| => q[i].pri);
    assert forall i :: 0 <= i < |q| ==> keys[i] == q[i].pri;
    FirstAbove(keys, pri)
  }

  /** Queueing of knl_gcb_make_wait. */
  function Join<A>(tpri: bool, q: seq<Waiter<A>>, w: Waiter<A>): seq<Waiter<A>> {
    var k := if tpri then InsertPos(q, w.pri) else |q|;
    q[..k] + [w] + q[k..]
  }

  /** knl_gcb_top_of_wait_queue: a task of priority `pri` would be served first. */
  predicate Top<A>(tpri: bool, q: seq<Waiter<A>>, pri: int) {
    q == [] || (tpri && pri < q[0].pri)
  }

  /** QueRemove of the task `t`. */
  function Leave<A>(q: seq<Waiter<A>>, t: TaskId): (r: seq<Waiter<A>>)
    ensures forall w :: w in r ==> w in q
    ensures forall w :: w in q && w.tid != t ==> w in r
  {
    if q == [] then [] else if q[0].tid == t then q[1..] else [q[0]] + Leave(q[1..], t)
  }

  /** The record of the waiting task `t`. */
  function Find<A>(q: seq<Waiter<A>>, t: TaskId): (w: Waiter<A>)
    requires Waits(q, t)
    ensures w in q && w.tid == t
  {
    if q[0].tid == t then q[0] else Find(q[1..], t)
  }

  /** knl_gcb_change_priority after the priority of `t` became `p`. */
  function Reorder<A>(q: seq<Waiter<A>>, t: TaskId, p: int): seq<Waiter<A>>
    requires Waits(q, t)
  {
    Join(true, Leave(q, t), Find(q, t).(pri := p))
  }

  /** Joining keeps the ring in order, adds `w` alone, and puts it first iff it is on top. */
  lemma JoinLine<A>(tpri: bool, q: seq<Waiter<A>>, w: Waiter<A>)
    requires Line(tpri, q) && !Waits(q, w.tid)
    ensures Line(tpri, Join(tpri, q, w))
    ensures forall v :: v in Join(tpri, q, w) <==> v == w || v in q
    ensures Join(tpri, q, w)[0] == if Top(tpri, q, w.pri) then w else q[0]
  {
    var k := if tpri then InsertPos(q, w.pri) else |q|;
    var r := Join(tpri, q, w);
    assert forall v :: v in r <==> v == w || v in q by {
      forall v | v in q ensures v in r {
        var i :| 0 <= i < |q| && q[i] == v;
        assert r[if i < k then i else i + 1] == v;
      }
      assert r[k] == w;
    }
    forall i, j | Before(r, i, j) ensures r[i].tid != r[j].tid && (tpri ==> r[i].pri <= r[j].pri) {
      var i', j' := if i < k then i else i - 1, if j < k then j else j - 1;
      if i == k {
        assert q[j'] in q && (k < j' ==> Before(q, k, j'));
      } else if j == k {
        assert q[i'] in q;
      } else {
        assert Before(q, i', j');
      }
    }
  }

  lemma TailLine<A>(tpri: bool, q: seq<Waiter<A>>)
    requires Line(tpri, q) && q != []
    ensures Line(tpri, q[1..]) && !Waits(q[1..], q[0].tid)
  {
    forall i, j | Before(q[1..], i, j)
      ensures q[1..][i].tid != q[1..][j].tid && (tpri ==> q[1..][i].pri <= q[1..][j].pri)
    {
      assert Before(q, i + 1, j + 1);
    }
    forall w | w in q[1..] ensures w.tid != q[0].tid {
      var i :| 0 <= i < |q[1..]| && q[1..][i] == w;
      assert Before(q, 0, i + 1);
    }
  }

  lemma FirstLeaves<A>(tpri: bool, q: seq<Waiter<A>>)
    requires Line(tpri, q) && q != []
    ensures forall u :: Waits(q[1..], u) <==> Waits(q, u) && u != q[0].tid
  {
    TailLine(tpri, q);
    assert q == [q[0]] + q[1..];
    forall u | Waits(q, u) && u != q[0].tid ensures Waits(q[1..], u) {
      var w :| w in q && w.tid == u;
      assert w in q[1..];
    }
  }

  lemma ConsLine<A>(tpri: bool, w: Waiter<A>, q: seq<Waiter<A>>)
    requires Line(tpri, q) && !Waits(q, w.tid) && (tpri ==> forall v :: v in q ==> w.pri <= v.pri)
    ensures Line(tpri, [w] + q)
  {
    var r := [w] + q;
    forall i, j | Before(r, i, j) ensures r[i].tid != r[j].tid && (tpri ==> r[i].pri <= r[j].pri) {
      if i > 0 { assert Before(q, i - 1, j - 1); } else { assert r[j] in q; }
    }
  }

  lemma HeadFirst<A>(tpri: bool, q: seq<Waiter<A>>)
    requires Line(tpri, q) && q != [] && tpri
    ensures forall v :: v in q ==> q[0].pri <= v.pri
  {
    forall v | v in q ensures q[0].pri <= v.pri {
      var i :| 0 <= i < |q| && q[i] == v;
      assert i > 0 ==> Before(q, 0, i);
    }
  }

  /** Leaving keeps the order of the others and removes `t` alone. */
  lemma {:induction false} LeaveLine<A>(tpri: bool, q: seq<Waiter<A>>, t: TaskId)
    requires Line(tpri, q)
    ensures Line(tpri, Leave(q, t)) && !Waits(Leave(q, t), t)
  {
    if q != [] {
      TailLine(tpri, q);
      if q[0].tid != t {
        LeaveLine(tpri, q[1..], t);
        if tpri { HeadFirst(tpri, q); }
        ConsLine(tpri, q[0], Leave(q[1..], t));
      }
    }
  }

  lemma ReorderLine<A>(q: seq<Waiter<A>>, t: TaskId, p: int)
    requires Line(true, q) && Waits(q, t)
    ensures Line(true, Reorder(q, t, p)) && Waits(Reorder(q, t, p), t)
    ensures forall v :: v in Reorder(q, t, p) <==> v == Find(q, t).(pri := p) || (v in q && v.tid != t)
  {
    LeaveLine(true, q, t);
    JoinLine(true, Leave(q, t), Find(q, t).(pri := p));
  }

  /** Leaving undoes joining. */
  lemma LeaveUndoesJoin<A>(tpri: bool, q: seq<Waiter<A>>, w: Waiter<A>)
    requires !Waits(q, w.tid)
    ensures Leave(Join(tpri, q, w), w.tid) == q && Waits(Join(tpri, q, w), w.tid)
  {
    LeaveAt(q, w, if tpri then InsertPos(q, w.pri) else |q|);
  }

  lemma LeaveAt<A>(q: seq<Waiter<A>>, w: Waiter<A>, k: nat)
    requires !Waits(q, w.tid) && k <= |q|
    ensures var r := q[..k] + [w] + q[k..]; Leave(r, w.tid) == q && Waits(r, w.tid)
  {
    var r := q[..k] + [w] + q[k..];
    assert r[k] == w && w in r;
    forall v | v in q[..k] ensures v.tid != w.tid { assert v in q; }
    LeaveMiddle(q[..k], w, q[k..]);
    assert q[..k] + q[k..] == q;
  }

  lemma {:induction false} LeaveMiddle<A>(p: seq<Waiter<A>>, w: Waiter<A>, q: seq<Waiter<A>>)
    requires !Waits(p, w.tid)
    ensures Leave(p + [w] + q, w.tid) == p + q
  {
    var r := p + [w] + q;
    if p == [] {
      assert r == [w] + q && r[1..] == q;
    } else {
      assert p[0] in p;
      assert r[1..] == p[1..] + [w] + q;
      LeaveMiddle(p[1..], w, q);
    }
  }

  /** Where a task joins: last in order of arrival, behind all of its own or higher priority
      in order of priority.  Nobody else moves. */
  lemma JoinPlace<A>(tpri: bool, q: seq<Waiter<A>>, w: Waiter<A>) returns (k: nat)
    ensures k <= |q| && Join(tpri, q, w) == q[..k] + [w] + q[k..]
    ensures !tpri ==> k == |q|
    ensures tpri ==> (forall i :: 0 <= i < k ==> q[i].pri <= w.pri) && (k < |q| ==> w.pri < q[k].pri)
  {
    k := if tpri then InsertPos(q, w.pri) else |q|;
  }

  /** Leaving cuts out the place of `t`.  Nobody else moves. */
  lemma {:induction false} LeaveCut<A>(q: seq<Waiter<A>>, t: TaskId) returns (k: nat)
    requires Waits(q, t)
    ensures k < |q| && q[k].tid == t && q[k] == Find(q, t) && !Waits(q[..k], t) && Leave(q, t) == q[..k] + q[k + 1..]
  {
    if q[0].tid == t {
      k := 0;
      assert Leave(q, t) == [] + q[1..];
    } else {
      var w :| w in q && w.tid == t;
      assert q == [q[0]] + q[1..] && w in q[1..];
      k := LeaveCut(q[1..], t);
      assert q[..k + 1] == [q[0]] + q[1..][..k];
      assert Leave(q, t) == [q[0]] + (q[1..][..k] + q[1..][k + 1..]);
      k := k + 1;
    }
  }

  // -------------------------------------------------------------- who is in line

  function Tids<A>(q: seq<Waiter<A>>): (r: seq<TaskId>)
    ensures |r| == |q| && forall i :: 0 <= i < |q| ==> r[i] == q[i].tid
  {
    if q == [] then [] else [q[0].tid] + Tids(q[1..])
  }

  lemma TidsIn<A>(q: seq<Waiter<A>>, t: TaskId)
    ensures t in Tids(q) <==> Waits(q, t)
  {
    if t in Tids(q) {
      var i :| 0 <= i < |q| && Tids(q)[i] == t;
      assert q[i] in q;
    }
    if Waits(q, t) {
      var w :| w in q && w.tid == t;
      var i :| 0 <= i < |q| && q[i] == w;
      assert Tids(q)[i] == t;
    }
  }

  lemma TidsNoDup<A>(tpri: bool, q: seq<Waiter<A>>)
    requires Line(tpri, q)
    ensures NoDup(Tids(q))
  {
    forall i, j | Before(Tids(q), i, j) ensures Tids(q)[i] != Tids(q)[j] { assert Before(q, i, j); }
  }

  lemma TidsJoin<A>(q: seq<Waiter<A>>, w: Waiter<A>)
    ensures Tids(Join(false, q, w)) == Tids(q) + [w.tid]
  {
    assert Join(false, q, w) == q + [w];
  }

  lemma {:induction false} TidsLeave<A>(q: seq<Waiter<A>>, t: TaskId)
    ensures Tids(Leave(q, t)) == Without(Tids(q), t)
  {
    if q != [] && q[0].tid != t {
      TidsLeave(q[1..], t);
      assert Tids(Leave(q, t)) == [q[0].tid] + Tids(Leave(q[1..], t));
    }
  }

  lemma TidsFrom<A>(q: seq<Waiter<A>>, n: nat)
    requires n <= |q|
    ensures Tids(q[..n]) == Tids(q)[..n] && Tids(q[n..]) == Tids(q)[n..]
  {
  }
}
