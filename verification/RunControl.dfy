/**
 * Aborting and resuming a run: a flag, and a signal that wakes the tasks registered for it at that moment and is
 * otherwise forgotten. Tasks and callers take their atomic steps in any order.
 */
module RunControl {

  /** What a task waits in: a provider request that an abort may cancel, or a pause for the user. */
  datatype Kind = Request | Pause

  /**
   * `Waiting` from the moment the task has registered for the signal. `checked` means that it has since read the
   * abort flag and found it clear; it goes on only once it has been `signalled`.
   */
  datatype Task =
    | Working
    | Waiting(kind: Kind, published: bool, checked: bool, signalled: bool)
    | Aborted

  /** A call of `abort`: it sets the flag, then signals. */
  datatype Caller = Ready | FlagSet | Returned

  datatype State = State(flag: bool, tasks: seq<Task>, aborts: seq<Caller>)

  datatype Step =
    | Enter(t: nat, kind: Kind)
    | Advance(t: nat)
    | Answer(t: nat)
    | SetFlag(a: nat)
    | Signal(a: nat)
    | Resume

  function Registered(kind: Kind): Task {
    Waiting(kind, kind.Request?, false, false)
  }

  /** A waiting task's own next step; a task that has checked and has not been signalled is parked. */
  function Advanced(task: Task, flag: bool): Task {
    match task
    case Waiting(kind, published, checked, signalled) =>
      if !published then task.(published := true)
      else if !checked then (if flag then Aborted else task.(checked := true))
      else if !signalled then task
      else if kind.Request? then Registered(Request)
      else if flag then Aborted
      else Working
    case _ => task
  }

  predicate Parked(task: Task) {
    task.Waiting? && task.published && task.checked && !task.signalled
  }

  function Woken(task: Task): Task {
    if task.Waiting? then task.(signalled := true) else task
  }

  function SignalAll(tasks: seq<Task>): seq<Task> {
    seq(|tasks|, i requires 0 <= i < |tasks| => Woken(tasks[i]))
  }

  /** A step that is not possible in a state leaves it as it is. */
  function Next(s: State, step: Step): State {
    match step
    case Enter(t, kind) =>
      if t < |s.tasks| && s.tasks[t].Working? then s.(tasks := s.tasks[t := Registered(kind)]) else s
    case Advance(t) =>
      if t < |s.tasks| then s.(tasks := s.tasks[t := Advanced(s.tasks[t], s.flag)]) else s
    case Answer(t) =>
      if t < |s.tasks| && s.tasks[t].Waiting? && s.tasks[t].kind.Request? then s.(tasks := s.tasks[t := Working]) else s
    case SetFlag(a) =>
      if a < |s.aborts| && s.aborts[a].Ready? then s.(flag := true, aborts := s.aborts[a := FlagSet]) else s
    case Signal(a) =>
      if a < |s.aborts| && s.aborts[a].FlagSet? then s.(tasks := SignalAll(s.tasks), aborts := s.aborts[a := Returned]) else s
    case Resume => s.(tasks := SignalAll(s.tasks))
  }

  function After(s: State, steps: seq<Step>): State
    decreases steps
  {
    if steps == [] then s else After(Next(s, steps[0]), steps[1..])
  }

  // ------------------------------------------------------------------ no lost abort

  ghost predicate AbortReturned(s: State) {
    exists a :: 0 <= a < |s.aborts| && s.aborts[a].Returned?
  }

  ghost predicate Inv(s: State) {
    && (forall a :: 0 <= a < |s.aborts| && !s.aborts[a].Ready? ==> s.flag)
    && (AbortReturned(s) ==> forall t :: 0 <= t < |s.tasks| ==> !Parked(s.tasks[t]))
    && (forall t :: 0 <= t < |s.tasks| && s.tasks[t].Waiting? && s.tasks[t].checked ==> s.tasks[t].published)
  }

  lemma StepKeepsInv(s: State, step: Step)
    requires Inv(s)
    ensures Inv(Next(s, step)) && (AbortReturned(s) ==> AbortReturned(Next(s, step))) && (s.flag ==> Next(s, step).flag)
  {
    var s' := Next(s, step);
    if AbortReturned(s) {
      var a :| 0 <= a < |s.aborts| && s.aborts[a].Returned?;
      assert s'.aborts[a].Returned?;
    }
    if step.Signal? && s' != s {
      forall t | 0 <= t < |s'.tasks| ensures !Parked(s'.tasks[t]) {
        assert s'.tasks[t] == Woken(s.tasks[t]);
      }
    } else {
      assert forall a :: 0 <= a < |s'.aborts| ==> (s'.aborts[a].Returned? <==> s.aborts[a].Returned?);
    }
  }

  /** In every interleaving: once a call of `abort` has returned, no task is parked. */
  lemma {:induction false} NoLostAbort(s: State, steps: seq<Step>)
    requires Inv(s)
    ensures Inv(After(s, steps))
    ensures AbortReturned(After(s, steps)) ==> forall t :: 0 <= t < |After(s, steps).tasks| ==> !Parked(After(s, steps).tasks[t])
    decreases steps
  {
    hide Next;
    if steps != [] {
      StepKeepsInv(s, steps[0]);
      NoLostAbort(Next(s, steps[0]), steps[1..]);
    }
  }

  function Start(tasks: nat, aborts: nat): State {
    State(false, seq(tasks, _ => Working), seq(aborts, _ => Ready))
  }

  /** From the start, in every interleaving: once a call of `abort` has returned, no task is parked. */
  lemma NobodyStaysParked(tasks: nat, aborts: nat, steps: seq<Step>, t: nat)
    requires AbortReturned(After(Start(tasks, aborts), steps))
    requires t < |After(Start(tasks, aborts), steps).tasks|
    ensures !Parked(After(Start(tasks, aborts), steps).tasks[t])
  {
    hide After;
    NoLostAbort(Start(tasks, aborts), steps);
  }

  // ------------------------------------------------------------------ every wait ends

  /** At some point of the run, task `t` has left its wait. */
  ghost predicate Leaves(s: State, steps: seq<Step>, t: nat)
    requires t < |s.tasks|
    decreases steps
  {
    !s.tasks[t].Waiting? || (steps != [] && t < |Next(s, steps[0]).tasks| && Leaves(Next(s, steps[0]), steps[1..], t))
  }

  function StepsOf(steps: seq<Step>, t: nat): nat {
    if steps == [] then 0 else (if steps[0] == Advance(t) then 1 else 0) + StepsOf(steps[1..], t)
  }

  /** How many steps of its own a signalled pause has yet to take. */
  function PauseLeft(task: Task): nat
    requires task.Waiting?
  {
    if !task.published then 3 else if !task.checked then 2 else 1
  }

  /** How many steps of its own a waiting task has yet to take once an abort has returned. */
  function AbortLeft(task: Task): nat
    requires task.Waiting?
  {
    if !task.published then 2 else if task.kind.Request? && task.checked then 2 else 1
  }

  /** After a signal the pause ends, whatever the other steps: nothing takes the signal back. */
  lemma {:induction false} SignalledPauseEnds(s: State, steps: seq<Step>, t: nat)
    requires t < |s.tasks|
    requires var task := s.tasks[t]; task.Waiting? && task.kind.Pause? && task.signalled && StepsOf(steps, t) >= PauseLeft(task)
    ensures Leaves(s, steps, t)
    decreases steps
  {
    var s' := Next(s, steps[0]);
    assert |s'.tasks| == |s.tasks|;
    if s'.tasks[t].Waiting? {
      SignalledPauseEnds(s', steps[1..], t);
    }
  }

  /** A `resume` or an `abort` signal sent while a task has its pause published ends that pause within two of the task's steps. */
  lemma SignalEndsPause(s: State, step: Step, steps: seq<Step>, t: nat)
    requires t < |s.tasks| && s.tasks[t].Waiting? && s.tasks[t].kind.Pause? && s.tasks[t].published
    requires step == Resume || (step.Signal? && step.a < |s.aborts| && s.aborts[step.a].FlagSet?)
    requires StepsOf(steps, t) >= 2
    ensures Leaves(Next(s, step), steps, t)
  {
    SignalledPauseEnds(Next(s, step), steps, t);
  }

  /** Once an abort has returned, every wait ends within two of the task's steps. */
  lemma {:induction false} AbortEndsEveryWait(s: State, steps: seq<Step>, t: nat)
    requires Inv(s) && AbortReturned(s) && t < |s.tasks| && s.tasks[t].Waiting? && StepsOf(steps, t) >= AbortLeft(s.tasks[t])
    ensures Leaves(s, steps, t)
    decreases steps
  {
    var s' := Next(s, steps[0]);
    StepKeepsInv(s, steps[0]);
    assert |s'.tasks| == |s.tasks|;
    assert s.flag && !Parked(s.tasks[t]);
    if s'.tasks[t].Waiting? {
      AbortEndsEveryWait(s', steps[1..], t);
    }
  }

  /** With the flag set no task goes on with its work from a pause. */
  lemma NoPauseSurvivesTheFlag(s: State, step: Step, t: nat)
    requires s.flag && t < |s.tasks| && s.tasks[t].Waiting? && s.tasks[t].kind.Pause?
    ensures !Next(s, step).tasks[t].Working?
  {
  }

  // ------------------------------------------------------------------ exactly which signals count

  predicate Signals(s: State, step: Step) {
    step == Resume || (step.Signal? && step.a < |s.aborts| && s.aborts[step.a].FlagSet?)
  }

  /** Whether a signal is sent in the run. */
  ghost predicate Signalled(s: State, steps: seq<Step>)
    decreases steps
  {
    steps != [] && (Signals(s, steps[0]) || Signalled(Next(s, steps[0]), steps[1..]))
  }

  /** All through the run, task `t` stays in the pause it is in. */
  ghost predicate Stays(s: State, steps: seq<Step>, t: nat)
    decreases steps
  {
    && t < |s.tasks| && s.tasks[t].Waiting? && s.tasks[t].kind.Pause?
    && (steps != [] ==> Stays(Next(s, steps[0]), steps[1..], t))
  }

  /** A pause is signalled exactly if a signal was sent after it registered; an earlier one is forgotten. */
  lemma {:induction false} SignalledIff(s: State, steps: seq<Step>, t: nat)
    requires Stays(s, steps, t)
    ensures var task := After(s, steps).tasks;
            t < |task| && task[t].Waiting? && (task[t].signalled <==> s.tasks[t].signalled || Signalled(s, steps))
    decreases steps
  {
    if steps != [] {
      SignalledIff(Next(s, steps[0]), steps[1..], t);
    }
  }

  /** So a pause that a task enters is signalled exactly if a signal is sent while it lasts. */
  lemma OnlyLaterSignalsCount(s: State, steps: seq<Step>, t: nat)
    requires t < |s.tasks| && s.tasks[t].Working? && Stays(Next(s, Enter(t, Pause)), steps, t)
    ensures var s1 := Next(s, Enter(t, Pause));
            var tasks := After(s1, steps).tasks;
            t < |tasks| && tasks[t].Waiting? && (tasks[t].signalled <==> Signalled(s1, steps))
  {
    hide Stays, Signalled, After;
    SignalledIff(Next(s, Enter(t, Pause)), steps, t);
  }

  // ------------------------------------------------------------------ nothing else ends a wait

  /** Tasks abort only because the flag is set, and the flag is set only by a call of `abort`. */
  ghost predicate AbortsAreCaused(s: State) {
    && ((exists t :: 0 <= t < |s.tasks| && s.tasks[t].Aborted?) ==> s.flag)
    && (s.flag ==> exists a :: 0 <= a < |s.aborts| && !s.aborts[a].Ready?)
  }

  lemma StepKeepsCauses(s: State, step: Step)
    requires AbortsAreCaused(s)
    ensures AbortsAreCaused(Next(s, step))
  {
    var s' := Next(s, step);
    if t :| 0 <= t < |s'.tasks| && s'.tasks[t].Aborted? {
      if s.tasks[t].Aborted? {
        assert s.flag;
      }
    }
    if s.flag {
      var a :| 0 <= a < |s.aborts| && !s.aborts[a].Ready?;
      assert !s'.aborts[a].Ready?;
    } else if s'.flag {
      assert !s'.aborts[step.a].Ready?;
    }
  }

  lemma {:induction false} AfterKeepsCauses(s: State, steps: seq<Step>)
    requires AbortsAreCaused(s)
    ensures AbortsAreCaused(After(s, steps))
    decreases steps
  {
    hide Next, AbortsAreCaused;
    if steps != [] {
      StepKeepsCauses(s, steps[0]);
      AfterKeepsCauses(Next(s, steps[0]), steps[1..]);
    }
  }

  /** From the start, in every interleaving: a task is aborted only once some call of `abort` has set the flag. */
  lemma NoAbortWithoutCall(tasks: nat, aborts: nat, steps: seq<Step>, t: nat)
    requires var s := After(Start(tasks, aborts), steps); t < |s.tasks| && s.tasks[t].Aborted?
    ensures var s := After(Start(tasks, aborts), steps); s.flag && exists a :: 0 <= a < |s.aborts| && !s.aborts[a].Ready?
  {
    hide After;
    AfterKeepsCauses(Start(tasks, aborts), steps);
  }

  /** A wait ends only by its task's own step or, for a request, its answer: a pause that goes on has been signalled, and
      whatever aborts has seen the flag. */
  lemma WhatEndsAWait(s: State, step: Step, t: nat)
    requires t < |s.tasks| && s.tasks[t].Waiting?
    ensures t < |Next(s, step).tasks|
    ensures var now := Next(s, step).tasks[t];
            && (now.Aborted? ==> step == Advance(t) && s.flag && s.tasks[t].published)
            && (now.Working? && s.tasks[t].kind.Pause? ==> step == Advance(t) && s.tasks[t].signalled && s.tasks[t].published)
            && (now.Working? && s.tasks[t].kind.Request? ==> step == Answer(t))
  {
  }
}
