/**
 The ready queue (ready_queue.h, task.c): one ring per priority, a bitmap of the
 rings that are not empty, the highest priority among them and the task to run.
 */
module ReadyQueue {
  import opened Common

  const NUM_TSKPRI := 32

  /** The task rings by priority. */
  type Rings = seq<seq<TaskId>>

  ghost predicate RingsOk(rings: Rings) {
    |rings| == NUM_TSKPRI && forall p :: 0 <= p < NUM_TSKPRI ==> NoDup(rings[p])
  }

  /** The bitmap marks exactly the rings in use, and `top` is the first of them. */
  ghost predicate BitsOk(rings: Rings, bitmap: Pattern, top: nat)
    requires |rings| == NUM_TSKPRI
  {
    && (forall p: nat :: p < NUM_TSKPRI ==> (p in bitmap <==> rings[p] != []))
    && top <= NUM_TSKPRI && (top < NUM_TSKPRI ==> rings[top] != [])
    && (forall p :: 0 <= p < top ==> rings[p] == [])
  }

  /** The task that ought to run: the head of the first ring in use. */
  function Chosen(rings: Rings): Option<TaskId>
    decreases |rings|
  {
    if rings == [] then None else if rings[0] != [] then Some(rings[0][0]) else Chosen(rings[1..])
  }

  lemma {:induction false} ChosenTop(rings: Rings, top: nat)
    requires top <= |rings| && (forall p :: 0 <= p < top ==> rings[p] == []) && (top < |rings| ==> rings[top] != [])
    ensures Chosen(rings) == if top < |rings| then Some(rings[top][0]) else None
    decreases |rings|
  {
    if top > 0 { ChosenTop(rings[1..], top - 1); }
  }

  /** No ready task has a higher priority than the chosen one, and of its priority it is first. */
  lemma ChosenIsBest(rings: Rings, p: nat, i: nat)
    requires p < |rings| && i < |rings[p]|
    ensures Chosen(rings).Some? && exists q :: 0 <= q <= p && rings[q] != [] && Chosen(rings).value == rings[q][0]
    decreases p
  {
    if rings[0] == [] {
      ChosenIsBest(rings[1..], p - 1, i);
      var q :| 0 <= q <= p - 1 && rings[1..][q] != [] && Chosen(rings[1..]).value == rings[1..][q][0];
      assert rings[q + 1] == rings[1..][q];
    }
  }

  class RdyQue {
    var rings: Rings
    var bitmap: Pattern
    var top: nat
    /** knl_schedtsk, the task to run; null if none. */
    var schedtsk: Option<TaskId>

    /** What holds while the task to run is not yet updated. */
    ghost predicate Sound()
      reads this
    {
      RingsOk(rings) && BitsOk(rings, bitmap, top)
    }

    ghost predicate Valid()
      reads this
    {
      Sound() && schedtsk == Chosen(rings)
    }

    /** knl_ready_queue_initialize. */
    constructor ()
      ensures Valid() && forall p :: 0 <= p < NUM_TSKPRI ==> rings[p] == []
    {
      rings := seq(NUM_TSKPRI, _ => []);
      bitmap, top, schedtsk := {}, NUM_TSKPRI, None;
      new;
      ChosenTop(rings, top);
    }

    /** knl_ready_queue_calc_top_priority. */
    method CalcTopPriority(pos: nat) returns (r: nat)
      requires pos <= NUM_TSKPRI
      ensures pos <= r <= NUM_TSKPRI && (r < NUM_TSKPRI ==> r in bitmap)
              && forall p: nat :: pos <= p < r ==> p !in bitmap
    {
      r := pos;
      while r < NUM_TSKPRI && r !in bitmap
        invariant pos <= r <= NUM_TSKPRI && forall p: nat :: pos <= p < r ==> p !in bitmap
      {
        r := r + 1;
      }
    }

    /** knl_ready_queue_top. */
    method Top() returns (t: Option<TaskId>)
      requires Sound()
      ensures t == Chosen(rings)
    {
      ChosenTop(rings, top);
      t := if top < NUM_TSKPRI then Some(rings[top][0]) else None;
    }

    /** knl_ready_queue_insert. */
    method Insert(t: TaskId, pri: nat) returns (higher: bool)
      requires Sound() && pri < NUM_TSKPRI && t !in rings[pri]
      modifies this`rings, this`bitmap, this`top
      ensures Sound() && rings == old(rings)[pri := old(rings)[pri] + [t]]
      ensures higher == (pri < old(top)) && top == if higher then pri else old(top)
    {
      SnocNoDup(rings[pri], t);
      rings := rings[pri := rings[pri] + [t]];
      bitmap := bitmap + {pri};
      higher := pri < top;
      if higher { top := pri; }
    }

    /** knl_ready_queue_delete of a task without kernel lock. */
    method Delete(t: TaskId, pri: nat)
      requires Sound() && pri < NUM_TSKPRI && t in rings[pri]
      modifies this`rings, this`bitmap, this`top
      ensures Sound() && rings == old(rings)[pri := Without(old(rings)[pri], t)]
    {
      WithoutNoDup(rings[pri], t);
      ghost var was := rings;
      rings := rings[pri := Without(rings[pri], t)];
      if rings[pri] != [] {
        assert top == pri || rings[top] == was[top] || top == NUM_TSKPRI;
        return;
      }
      bitmap := bitmap - {pri};
      if pri != top { return; }
      top := CalcTopPriority(pri);
    }

    /** knl_reschedule. */
    method Reschedule()
      requires Sound()
      modifies this`schedtsk
      ensures Valid()
    {
      schedtsk := Top();
    }

    /** knl_make_ready, for the queue. */
    method MakeReady(t: TaskId, pri: nat)
      requires Valid() && pri < NUM_TSKPRI && t !in rings[pri]
      modifies this
      ensures Valid() && rings == old(rings)[pri := old(rings)[pri] + [t]]
    {
      ChosenTop(rings, top);
      ghost var r0, top0 := rings, top;
      var higher := Insert(t, pri);
      if higher { schedtsk := Some(t); }
      ChosenTop(rings, top);
      assert higher ==> r0[pri] == [] && rings[pri] == [t];
    }

    /** knl_make_non_ready. */
    method MakeNonReady(t: TaskId, pri: nat)
      requires Valid() && pri < NUM_TSKPRI && t in rings[pri]
      requires forall p :: 0 <= p < NUM_TSKPRI && p != pri ==> t !in rings[p]
      modifies this
      ensures Valid() && rings == old(rings)[pri := Without(old(rings)[pri], t)]
    {
      ghost var r0, top0 := rings, top;
      ChosenTop(r0, top0);
      Delete(t, pri);
      if schedtsk == Some(t) {
        schedtsk := Top();
      } else {
        OtherStays(r0, top0, rings, t, pri);
      }
    }

    /** knl_change_task_priority of a ready task. */
    method ChangePriority(t: TaskId, pri: nat, newpri: nat)
      requires Valid() && pri < NUM_TSKPRI && newpri < NUM_TSKPRI && t in rings[pri]
      requires forall p :: 0 <= p < NUM_TSKPRI && p != pri ==> t !in rings[p]
      modifies this
      ensures Valid()
      ensures var r := old(rings)[pri := Without(old(rings)[pri], t)]; rings == r[newpri := r[newpri] + [t]]
    {
      WithoutNoDup(rings[pri], t);
      Delete(t, pri);
      var higher := Insert(t, newpri);
      Reschedule();
    }

    /** knl_rotate_ready_queue. */
    method Rotate(pri: nat)
      requires Valid() && pri < NUM_TSKPRI
      modifies this
      ensures Valid()
      ensures rings == if old(rings)[pri] == [] then old(rings)
                       else old(rings)[pri := old(rings)[pri][1..] + [old(rings)[pri][0]]]
    {
      if rings[pri] != [] {
        TailNoDup(rings[pri]);
        SnocNoDup(rings[pri][1..], rings[pri][0]);
        rings := rings[pri := rings[pri][1..] + [rings[pri][0]]];
      }
      Reschedule();
    }

    /** knl_rotate_ready_queue_run. */
    method RotateRun()
      requires Valid()
      modifies this
      ensures Valid() && (old(schedtsk).None? ==> rings == old(rings))
      ensures old(schedtsk).Some? ==>
                && old(top) < NUM_TSKPRI
                && rings == old(rings)[old(top) := old(rings)[old(top)][1..] + [old(rings)[old(top)][0]]]
    {
      ChosenTop(rings, top);
      if schedtsk.Some? {
        Rotate(top);
      }
    }
  }

  /** Deleting another task than the chosen one leaves the choice. */
  lemma OtherStays(r0: Rings, top0: nat, r1: Rings, t: TaskId, pri: nat)
    requires RingsOk(r0) && pri < NUM_TSKPRI && t in r0[pri] && r1 == r0[pri := Without(r0[pri], t)]
    requires top0 <= NUM_TSKPRI && (top0 < NUM_TSKPRI ==> r0[top0] != []) && (forall p :: 0 <= p < top0 ==> r0[p] == [])
    requires Chosen(r0) != Some(t)
    ensures Chosen(r1) == Chosen(r0)
  {
    ChosenTop(r0, top0);
    if pri == top0 {
      WithoutAt(r0[pri], t);
      assert r0[pri][0] != t;
      assert Without(r0[pri], t)[0] == r0[pri][0];
    }
    ChosenTop(r1, top0);
  }
}
