/**
 The interrupt entry and exit of the RISC-V port (rtos_int_enter in shim_stubs.c,
 __wrap_rtos_int_exit, knl_force_dispatch in cpu_cntl.c) as steps of a machine: the
 trap code pushes a frame before the entry routine and pops one after the exit
 routine, and the exit routine may exchange the frame for that of another task.
 */
module Dispatcher {
  import opened Common

  /** Size of the frame the trap entry pushes. */
  const FRAME := 128

  /** INTLEVEL_EI. */
  const LEVEL_EI := 0

  /** What a task loses when it is interrupted: its stack pointer and threshold. */
  datatype Context = Context(sp: int, thresh: int)

  /** The frame pointer and threshold kept in a control block. */
  datatype Saved = Saved(ssp: int, intlevel: int)

  /** A pushed trap frame: where it is, and the threshold it holds. */
  datatype Frame = Frame(sp: int, thresh: int)

  datatype Cpu = Cpu(
    taskindp: int, isrNest: int, savedSp: int, sp: int, thresh: int,
    ctxtsk: Option<TaskId>, schedtsk: Option<TaskId>, disabled: int,
    tcb: map<TaskId, Saved>, frames: seq<Frame>, stackTop: int, pending: bool,
    owed: map<TaskId, Context>)

  datatype Step =
    /** An interrupt: the trap entry pushes a frame and calls rtos_int_enter. */
    | Trap(level: int)
    /** The trap exit restores the threshold, calls rtos_int_exit and pops a frame. */
    | Exit
    /** Code runs, in a task or a handler; it may ask for another task to run. */
    | Run(sp: int, thresh: int, sched: Option<TaskId>, disabled: int)
    /** ENTER_TASK_INDEPENDENT and LEAVE_TASK_INDEPENDENT. */
    | EnterIndp
    | LeaveIndp
    /** knl_setup_context, in tk_ext_tsk of the running task. */
    | Setup(t: TaskId, ssp: int)
    /** knl_dispatch, once its waiting loop is over: the software interrupt is requested. */
    | Dispatch
    /** One round of that loop while there is no task to run. */
    | Await
    /** The handler of the software interrupt clears the request. */
    | Acknowledge
    /** The assignments of knl_force_dispatch: the current context is given up. */
    | Force

  /** The stack pointer a handler of the current level starts and ends with. */
  function Base(s: Cpu): int
    requires s.frames != []
  {
    LevelBase(s.frames, s.stackTop, |s.frames|)
  }

  /** Where the stack of nesting level `i` starts. */
  function LevelBase(frames: seq<Frame>, top: int, i: int): int
    requires 1 <= i <= |frames|
  {
    if i == 1 then top else frames[i - 1].sp
  }

  /** Frames on the interrupt stack lie below the base of their level. */
  ghost predicate Nested(frames: seq<Frame>, top: int) {
    forall i :: 1 <= i < |frames| ==> frames[i].sp + FRAME <= LevelBase(frames, top, i)
  }

  ghost predicate Inv(s: Cpu) {
    && s.isrNest == |s.frames| && s.taskindp >= s.isrNest && Nested(s.frames, s.stackTop)
    && (s.isrNest > 0 ==> s.savedSp == s.frames[0].sp && s.sp <= Base(s))
    && Known(s)
    && (forall t :: t in s.tcb && s.ctxtsk != Some(t) ==>
          t in s.owed && s.owed[t] == Context(s.tcb[t].ssp + FRAME, s.tcb[t].intlevel))
  }

  /** The running task and the task to run have control blocks. */
  predicate Known(s: Cpu) {
    (s.ctxtsk.Some? ==> s.ctxtsk.value in s.tcb) && (s.schedtsk.Some? ==> s.schedtsk.value in s.tcb)
  }

  /** Handlers are called and return like functions; tasks to run exist. */
  predicate Enabled(s: Cpu, a: Step) {
    match a
    case Trap(_) => true
    case Exit => s.frames != [] && s.sp == Base(s) && Known(s)
    case Run(sp, _, sched, _) => (sched.Some? ==> sched.value in s.tcb) && (s.frames != [] ==> sp <= Base(s))
    case EnterIndp => true
    case LeaveIndp => s.taskindp > s.isrNest
    case Setup(_, _) => true
    case Dispatch => s.taskindp > 0 || s.schedtsk.Some?
    case Await => s.frames == [] && s.taskindp == 0 && s.schedtsk == None
    case Acknowledge => s.frames != []
    case Force => s.frames == [] && Known(s)
  }

  /** rtos_int_enter after the trap entry pushed its frame. */
  function Entered(s: Cpu, level: int): Cpu {
    var f := s.sp - FRAME;
    var s1 := s.(frames := s.frames + [Frame(f, s.thresh)], thresh := level, taskindp := s.taskindp + 1,
                 isrNest := s.isrNest + 1);
    if s1.isrNest != 1 then s1.(sp := f) else s1.(savedSp := f, sp := s.stackTop)
  }

  /** The outermost exit may switch. */
  predicate Switches(s: Cpu) {
    && s.isrNest == 1 && s.taskindp == 1 && s.disabled == 0
    && s.ctxtsk != s.schedtsk && s.schedtsk.Some?
  }

  /** What the interrupted code had. */
  function Interrupted(s: Cpu): Context
    requires s.frames != []
  {
    var f := s.frames[|s.frames| - 1];
    Context(f.sp + FRAME, f.thresh)
  }

  /** __wrap_rtos_int_exit between the two halves of the trap exit. */
  ghost function Exited(s: Cpu): Cpu
    requires s.frames != [] && (s.schedtsk.Some? ==> s.schedtsk.value in s.tcb)
  {
    var f := s.frames[|s.frames| - 1];
    var s1 := s.(thresh := f.thresh, frames := s.frames[..|s.frames| - 1], taskindp := s.taskindp - 1,
                 isrNest := s.isrNest - 1);
    if s1.isrNest != 0 then s1.(sp := s.sp + FRAME)
    else if !Switches(s) then s1.(sp := s.savedSp + FRAME)
    else
      var t := s.schedtsk.value;
      var tcb := if s.ctxtsk.Some? then s.tcb[s.ctxtsk.value := Saved(s.savedSp, f.thresh)] else s.tcb;
      s1.(tcb := tcb, ctxtsk := s.schedtsk, sp := tcb[t].ssp + FRAME, thresh := tcb[t].intlevel,
          owed := if s.ctxtsk.Some? then s.owed[s.ctxtsk.value := Interrupted(s)] else s.owed)
  }

  ghost function Next(s: Cpu, a: Step): Cpu
    requires Enabled(s, a)
  {
    match a
    case Trap(level) => Entered(s, level)
    case Exit => Exited(s)
    case Run(sp, thresh, sched, disabled) => s.(sp := sp, thresh := thresh, schedtsk := sched, disabled := disabled)
    case EnterIndp => s.(taskindp := s.taskindp + 1)
    case LeaveIndp => s.(taskindp := s.taskindp - 1)
    case Setup(t, ssp) => s.(tcb := s.tcb[t := Saved(ssp, LEVEL_EI)],
                             owed := s.owed[t := Context(ssp + FRAME, LEVEL_EI)])
    case Dispatch => if s.taskindp > 0 then s else s.(pending := true)
    case Await => s.(thresh := LEVEL_EI)
    case Acknowledge => s.(pending := false)
    case Force =>
      s.(pending := true, ctxtsk := None, disabled := 0, taskindp := 0, isrNest := 0, thresh := LEVEL_EI,
         owed := match s.ctxtsk
                 case None => s.owed
                 case Some(t) => s.owed[t := Context(s.tcb[t].ssp + FRAME, s.tcb[t].intlevel)])
  }

  lemma StepKeeps(s: Cpu, a: Step)
    requires Inv(s) && Enabled(s, a)
    ensures Inv(Next(s, a))
  {
    if a.Exit? { ExitKeeps(s); }
  }

  lemma ExitKeeps(s: Cpu)
    requires Inv(s) && Enabled(s, Exit)
    ensures Inv(Exited(s))
  {
    NestedPrefix(s.frames, s.stackTop);
  }

  lemma NestedPrefix(frames: seq<Frame>, top: int)
    requires Nested(frames, top) && frames != []
    ensures var n := |frames| - 1;
            && Nested(frames[..n], top)
            && (n > 0 ==> frames[..n][0] == frames[0] && frames[n].sp + FRAME <= LevelBase(frames[..n], top, n)
                          && (LevelBase(frames, top, n + 1) == frames[n].sp))
  {
    var n := |frames| - 1;
    forall i | 1 <= i < n ensures frames[..n][i].sp + FRAME <= LevelBase(frames[..n], top, i) {
      assert frames[..n][i] == frames[i] && LevelBase(frames[..n], top, i) == LevelBase(frames, top, i);
    }
    if n > 0 { assert LevelBase(frames[..n], top, n) == LevelBase(frames, top, n); }
  }

  /** An exit restores what the interrupted code had, or, if it switches, what the task it
      switches to has lost. */
  lemma ExitRestores(s: Cpu)
    requires Inv(s) && Enabled(s, Exit)
    ensures !Switches(s) ==> Context(Exited(s).sp, Exited(s).thresh) == Interrupted(s) && Exited(s).ctxtsk == s.ctxtsk
    ensures Switches(s) ==>
              var t := s.schedtsk.value;
              && Exited(s).ctxtsk == Some(t) && t in s.owed && Context(Exited(s).sp, Exited(s).thresh) == s.owed[t]
              && (s.ctxtsk.Some? ==> s.ctxtsk.value in Exited(s).owed
                                     && Exited(s).owed[s.ctxtsk.value] == Interrupted(s))
  {
  }

  // ------------------------------------------------------------------- every run

  /** Before the first dispatch. */
  predicate Started(s: Cpu) {
    s.taskindp == 0 && s.isrNest == 0 && s.frames == [] && s.ctxtsk == None && s.schedtsk == None && s.tcb == map[]
  }

  /** The states of a run, first to last. */
  ghost predicate IsRun(ss: seq<Cpu>, run: seq<Step>) {
    && |ss| == |run| + 1 && Started(ss[0])
    && forall i :: 0 <= i < |run| ==> Enabled(ss[i], run[i]) && ss[i + 1] == Next(ss[i], run[i])
  }

  lemma {:induction false} EveryRun(ss: seq<Cpu>, run: seq<Step>, n: nat)
    requires IsRun(ss, run) && n < |ss|
    ensures Inv(ss[n])
  {
    if n > 0 {
      EveryRun(ss, run, n - 1);
      StepKeeps(ss[n - 1], run[n - 1]);
    }
  }

  /** The running task changes only at an outermost exit, outside task-independent code,
      with dispatching enabled, and then to the task chosen to run; a forced dispatch
      gives up the running task first. */
  lemma SwitchOnlyAtExit(s: Cpu, a: Step)
    requires Inv(s) && Enabled(s, a) && Next(s, a).ctxtsk != s.ctxtsk
    ensures (a == Exit && s.isrNest == 1 && s.taskindp == 1 && s.disabled == 0 && Next(s, a).isrNest == 0
             && Next(s, a).taskindp == 0 && s.schedtsk.Some? && Next(s, a).ctxtsk == s.schedtsk)
            || (a == Force && Next(s, a).ctxtsk == None)
  {
  }

  /** knl_dispatch by a task, with dispatching enabled, leads to the task to run: the
      interrupt it requests switches at its exit, and the task gets what it had lost. */
  lemma DispatchSwitches(s: Cpu, level: int)
    requires Inv(s) && s.frames == [] && s.taskindp == 0 && s.disabled == 0 && s.schedtsk.Some?
             && s.ctxtsk != s.schedtsk
    ensures var s1 := Next(s, Dispatch); var s2 := Next(s1, Trap(level)); var t := s.schedtsk.value;
            && s1.pending && Enabled(s2, Exit) && Next(s2, Exit).ctxtsk == s.schedtsk
            && t in s.owed && Context(Next(s2, Exit).sp, Next(s2, Exit).thresh) == s.owed[t]
  {
    var s1 := Next(s, Dispatch);
    StepKeeps(s, Dispatch);
    var s2 := Next(s1, Trap(level));
    StepKeeps(s1, Trap(level));
    ExitRestores(s2);
  }

  /** knl_force_dispatch leads to the task to run whatever was going on: dispatching disabled,
      task-independent sections not left, or that very task running.  What the task had
      lost it gets back; what the code before had is lost. */
  lemma ForceSwitches(s: Cpu, level: int)
    requires Inv(s) && s.frames == [] && s.schedtsk.Some?
    ensures var s1 := Next(s, Force); var s2 := Next(s1, Trap(level)); var t := s.schedtsk.value;
            && s1.pending && s1.ctxtsk == None && Enabled(s2, Exit)
            && var s3 := Next(s2, Exit);
               && s3.ctxtsk == s.schedtsk && s3.taskindp == 0 && s3.isrNest == 0 && s3.disabled == 0
               && s3.frames == [] && s3.tcb == s.tcb
               && Context(s3.sp, s3.thresh) == Context(s.tcb[t].ssp + FRAME, s.tcb[t].intlevel)
               && (s.ctxtsk != s.schedtsk ==> t in s.owed && Context(s3.sp, s3.thresh) == s.owed[t])
  {
    var s1 := Next(s, Force);
    StepKeeps(s, Force);
    StepKeeps(s1, Trap(level));
    SwitchFromNobody(Next(s1, Trap(level)));
  }

  /** The outermost exit after the running task was given up. */
  lemma SwitchFromNobody(s: Cpu)
    requires Inv(s) && s.sp == s.stackTop && s.isrNest == 1 && s.taskindp == 1 && s.disabled == 0
             && s.ctxtsk == None && s.schedtsk.Some?
    ensures Enabled(s, Exit)
    ensures var s' := Next(s, Exit); var t := s.schedtsk.value;
            && s'.ctxtsk == s.schedtsk && s'.taskindp == 0 && s'.isrNest == 0 && s'.disabled == 0
            && s'.frames == [] && s'.tcb == s.tcb
            && Context(s'.sp, s'.thresh) == Context(s.tcb[t].ssp + FRAME, s.tcb[t].intlevel)
  {
    assert Switches(s);
  }

  /** The stack pointer is set to the top of the interrupt stack at the outermost entry
      only; nested entries stay below what they found. */
  lemma InterruptStackOnce(s: Cpu, level: int)
    requires Inv(s)
    ensures s.isrNest == 0 ==> Entered(s, level).sp == s.stackTop
    ensures s.isrNest > 0 ==> Entered(s, level).sp == s.sp - FRAME < s.stackTop
                              && Entered(s, level).savedSp == s.savedSp
  {
    if s.isrNest > 0 { BaseBelowTop(s.frames, s.stackTop, |s.frames| - 1); }
  }

  lemma {:induction false} BaseBelowTop(frames: seq<Frame>, top: int, i: nat)
    requires Nested(frames, top) && i < |frames|
    ensures LevelBase(frames, top, i + 1) <= top
  {
    if i > 0 {
      BaseBelowTop(frames, top, i - 1);
      assert frames[i].sp + FRAME <= LevelBase(frames, top, i);
    }
  }

  /** While `t` is not running, what it is owed stays. */
  lemma OwedStays(s: Cpu, a: Step, t: TaskId)
    requires Inv(s) && Enabled(s, a) && t in s.tcb && s.ctxtsk != Some(t) && !(a.Setup? && a.t == t)
    ensures t in Next(s, a).tcb && t in Next(s, a).owed && Next(s, a).owed[t] == s.owed[t]
  {
  }

  lemma {:induction false} OwedThroughout(ss: seq<Cpu>, run: seq<Step>, i: nat, j: nat, t: TaskId)
    requires IsRun(ss, run) && i <= j < |run| && t in ss[i].tcb
    requires forall k :: i <= k <= j ==> ss[k].ctxtsk != Some(t)
    requires forall k :: i <= k < j ==> !(run[k].Setup? && run[k].t == t)
    ensures t in ss[j].tcb && t in ss[j].owed && t in ss[i].owed && ss[j].owed[t] == ss[i].owed[t]
    decreases j
  {
    EveryRun(ss, run, i);
    if i < j {
      OwedThroughout(ss, run, i, j - 1, t);
      EveryRun(ss, run, j - 1);
      OwedStays(ss[j - 1], run[j - 1], t);
    }
  }

  /** Over every run: a task switched out at step `i` and not running again before step `j`
      switches it in, resumes with exactly the stack pointer and threshold it lost. */
  lemma ResumesWhatItLost(ss: seq<Cpu>, run: seq<Step>, i: nat, j: nat, t: TaskId)
    requires IsRun(ss, run) && i < j < |run|
    requires run[i] == Exit && ss[i].ctxtsk == Some(t) && ss[i + 1].ctxtsk != Some(t)
    requires forall k :: i < k <= j ==> ss[k].ctxtsk != Some(t)
    requires forall k :: i < k < j ==> !(run[k].Setup? && run[k].t == t)
    requires run[j] == Exit && ss[j + 1].ctxtsk == Some(t)
    ensures Context(ss[j + 1].sp, ss[j + 1].thresh) == Interrupted(ss[i])
  {
    EveryRun(ss, run, i);
    EveryRun(ss, run, j);
    ExitRestores(ss[i]);
    OwedThroughout(ss, run, i + 1, j, t);
    ExitRestores(ss[j]);
  }

  /** Over every run: a task that ends itself, by setting up its own context and forcing the
      dispatch, and is switched in again later starts afresh. */
  lemma StartsAfresh(ss: seq<Cpu>, run: seq<Step>, i: nat, j: nat, t: TaskId, ssp: int)
    requires IsRun(ss, run) && i + 1 < j < |run|
    requires ss[i].ctxtsk == Some(t) && run[i] == Setup(t, ssp) && run[i + 1] == Force
    requires forall k :: i + 1 < k <= j ==> ss[k].ctxtsk != Some(t)
    requires forall k :: i + 1 < k < j ==> !(run[k].Setup? && run[k].t == t)
    requires run[j] == Exit && ss[j + 1].ctxtsk == Some(t)
    ensures Context(ss[j + 1].sp, ss[j + 1].thresh) == Context(ssp + FRAME, LEVEL_EI)
  {
    EveryRun(ss, run, j);
    assert ss[i + 2] == Next(Next(ss[i], run[i]), run[i + 1]);
    OwedThroughout(ss, run, i + 2, j, t);
    ExitRestores(ss[j]);
  }

  // ------------------------------------------------------------------ the registers

  class Core {
    var taskindp: int
    var isrNest: int
    var savedSp: int
    var sp: int
    var thresh: int
    var ctxtsk: Option<TaskId>
    var schedtsk: Option<TaskId>
    var disabled: int
    var tcb: map<TaskId, Saved>
    const stackTop: int
    var pending: bool

    ghost function View(frames: seq<Frame>, owed: map<TaskId, Context>): Cpu
      reads this
    {
      Cpu(taskindp, isrNest, savedSp, sp, thresh, ctxtsk, schedtsk, disabled, tcb, frames, stackTop, pending, owed)
    }

    /** rtos_int_enter, with the frame pushed and `sp` at it. */
    method RtosIntEnter(ghost before: Cpu, level: int)
      requires View(before.frames + [Frame(before.sp - FRAME, before.thresh)], before.owed)
               == before.(sp := before.sp - FRAME, thresh := level,
                          frames := before.frames + [Frame(before.sp - FRAME, before.thresh)])
      modifies this
      ensures View(before.frames + [Frame(before.sp - FRAME, before.thresh)], before.owed) == Entered(before, level)
    {
      taskindp := taskindp + 1;
      isrNest := isrNest + 1;
      if isrNest == 1 {
        savedSp := sp;
        sp := stackTop;
      }
    }

    /** __wrap_rtos_int_exit, with the threshold restored; the frame at `sp` is popped next. */
    method RtosIntExit(ghost before: Cpu)
      requires before.frames != [] && (before.schedtsk.Some? ==> before.schedtsk.value in before.tcb)
      requires View(before.frames, before.owed) == before.(thresh := before.frames[|before.frames| - 1].thresh)
      modifies this
      ensures var after := Exited(before);
              View(before.frames[..|before.frames| - 1], after.owed) == after.(sp := after.sp - FRAME)
    {
      taskindp := taskindp - 1;
      isrNest := isrNest - 1;
      if isrNest != 0 { return; }
      sp := savedSp;
      if taskindp != 0 || disabled != 0 || ctxtsk == schedtsk || schedtsk.None? { return; }
      if ctxtsk.Some? {
        tcb := tcb[ctxtsk.value := Saved(sp, thresh)];
      }
      ctxtsk := schedtsk;
      sp := tcb[schedtsk.value].ssp;
      thresh := tcb[schedtsk.value].intlevel;
    }
  }
}
