/**
 * The container's background tasks: callers that start a new generation under a mutex, the tasks' own loops,
 * and cancellation from outside, interleaved in any order.
 */
module BackgroundGenerations {
  import opened Wrappers

  /** Where a task's goroutine stands. `AboutToRun` is between the check of the context and the call of the work. */
  datatype TaskPc = AtCheck | AboutToRun | InRun | AtSelect | Returned | Gone

  /** `late` counts the runs of the work begun after the task's context was cancelled. */
  datatype Task = Task(gen: nat, periodic: bool, pc: TaskPc, late: nat)

  /** One generation: its context and the counter of its wait group. */
  datatype Gen = Gen(cancelled: bool, counter: nat)

  /** Where a call of StartBackground stands. */
  datatype CallerPc = Outside | Locked | Stopped | Waited | Spawning

  datatype State = State(mutex: Option<nat>, background: Option<nat>, gens: seq<Gen>, tasks: seq<Task>,
      callers: seq<CallerPc>)

  datatype Action =
    | Lock(c: nat) | StopOld(c: nat) | WaitOld(c: nat) | NewGeneration(c: nat)
    | Spawn(c: nat, periodic: bool) | Unlock(c: nat)
    | Cancel(g: nat)
    | Check(t: nat) | Begin(t: nat) | Finish(t: nat) | Fire(t: nat) | Leave(t: nat) | Done(t: nat)

  predicate At(s: State, c: nat, pc: CallerPc) {
    c < |s.callers| && s.callers[c] == pc
  }

  function Moved(s: State, c: nat, pc: CallerPc): State {
    if c < |s.callers| then s.(callers := s.callers[c := pc]) else s
  }

  function Cancelled(gens: seq<Gen>, g: nat): seq<Gen> {
    if g < |gens| then gens[g := gens[g].(cancelled := true)] else gens
  }

  predicate IsCancelled(gens: seq<Gen>, g: nat) {
    g < |gens| && gens[g].cancelled
  }

  /** The wait group's counter after one more task (up) or one less. */
  function Counted(gens: seq<Gen>, g: nat, up: bool): seq<Gen> {
    if g >= |gens| then gens
    else if up then gens[g := gens[g].(counter := gens[g].counter + 1)]
    else if gens[g].counter > 0 then gens[g := gens[g].(counter := gens[g].counter - 1)]
    else gens
  }

  // ---------- the callers ----------

  function CallerStep(s: State, a: Action): State {
    match a
    case Lock(c) =>
      if At(s, c, Outside) && s.mutex == None then Moved(s, c, Locked).(mutex := Some(c)) else s
    case StopOld(c) =>
      if !At(s, c, Locked) then s
      else if s.background.None? then Moved(s, c, Waited)
      else Moved(s, c, Stopped).(gens := Cancelled(s.gens, s.background.value))
    case WaitOld(c) =>
      if At(s, c, Stopped) && s.background.Some? && s.background.value < |s.gens|
          && s.gens[s.background.value].counter == 0
      then Moved(s, c, Waited) else s
    case NewGeneration(c) =>
      if At(s, c, Waited) then Moved(s, c, Spawning).(background := Some(|s.gens|), gens := s.gens + [Gen(false, 0)])
          else s
    case Spawn(c, periodic) =>
      if At(s, c, Spawning) && s.background.Some?
      then s.(gens := Counted(s.gens, s.background.value, true),
          tasks := s.tasks + [Task(s.background.value, periodic, AtCheck, 0)])
      else s
    case Unlock(c) =>
      if At(s, c, Spawning) then Moved(s, c, Outside).(mutex := None) else s
    case _ => s
  }

  // ---------- the tasks ----------

  /**
   * One step of a task: a periodic one loops between the check, the work and the select, which may take the timer
   * even when the context is cancelled too; any other task may run and return as it likes.
   */
  function TaskStep(task: Task, cancelled: bool, a: Action): Task {
    match a
    case Check(_) =>
      if task.pc != AtCheck then task
      else if task.periodic && cancelled then task.(pc := Returned)
      else task.(pc := AboutToRun)
    case Begin(_) =>
      if task.pc == AboutToRun then task.(pc := InRun, late := if cancelled then task.late + 1 else task.late) else task
    case Finish(_) =>
      if task.pc == InRun then task.(pc := AtSelect) else task
    case Fire(_) =>
      if task.pc == AtSelect then task.(pc := AtCheck) else task
    case Leave(_) =>
      if task.pc == AtSelect && cancelled then task.(pc := Returned)
      else if !task.periodic && task.pc != Gone then task.(pc := Returned)
      else task
    case Done(_) =>
      if task.pc == Returned then task.(pc := Gone) else task
    case _ => task
  }

  function Step(s: State, a: Action): State {
    match a
    case Cancel(g) => s.(gens := Cancelled(s.gens, g))
    case Check(t) => Stepped(s, t, a)
    case Begin(t) => Stepped(s, t, a)
    case Finish(t) => Stepped(s, t, a)
    case Fire(t) => Stepped(s, t, a)
    case Leave(t) => Stepped(s, t, a)
    case Done(t) => Stepped(s, t, a)
    case _ => CallerStep(s, a)
  }

  /** A task's step; the last one, its deferred Done, also lowers the counter. */
  function Stepped(s: State, t: nat, a: Action): State {
    if t >= |s.tasks| then s
    else
      var task := s.tasks[t];
      var after := TaskStep(task, IsCancelled(s.gens, task.gen), a);
      s.(tasks := s.tasks[t := after],
         gens := if task.pc != Gone && after.pc == Gone then Counted(s.gens, task.gen, false) else s.gens)
  }

  function Exec(s: State, run: seq<Action>): State {
    if run == [] then s else Step(Exec(s, run[..|run| - 1]), run[|run| - 1])
  }

  /** A container before its first start, with any number of callers. */
  predicate Initial(s: State) {
    && s.mutex == None && s.background == None && s.gens == [] && s.tasks == []
    && forall c | 0 <= c < |s.callers| :: s.callers[c] == Outside
  }

  // ---------- the invariant ----------

  /** Only the caller that holds the mutex is inside. */
  ghost predicate Exclusive(mutex: Option<nat>, callers: seq<CallerPc>) {
    forall c | 0 <= c < |callers| :: callers[c] != Outside ==> mutex == Some(c)
  }

  ghost predicate LatestIsBackground(background: Option<nat>, gens: seq<Gen>) {
    background == if gens == [] then None else Some(|gens| - 1)
  }

  function Live(tasks: seq<Task>, g: nat): nat {
    if tasks == [] then 0
    else
      var last := tasks[|tasks| - 1];
      Live(tasks[..|tasks| - 1], g) + if last.gen == g && last.pc != Gone then 1 else 0
  }

  ghost predicate CountersMatch(gens: seq<Gen>, tasks: seq<Task>) {
    forall g | 0 <= g < |gens| :: gens[g].counter == Live(tasks, g)
  }

  /** Every task that is not gone belongs to the latest generation. */
  ghost predicate OnlyLatestLives(gens: seq<Gen>, tasks: seq<Task>) {
    forall t | 0 <= t < |tasks| :: tasks[t].gen < |gens| && (tasks[t].pc != Gone ==> tasks[t].gen == |gens| - 1)
  }

  ghost predicate NoneLives(tasks: seq<Task>) {
    forall t | 0 <= t < |tasks| :: tasks[t].pc == Gone
  }

  ghost predicate WaitedMeansNone(callers: seq<CallerPc>, tasks: seq<Task>) {
    forall c | 0 <= c < |callers| :: callers[c] == Waited ==> NoneLives(tasks)
  }

  /** Every generation but the latest has been cancelled. */
  ghost predicate OlderCancelled(gens: seq<Gen>) {
    forall g | 0 <= g < |gens| - 1 :: gens[g].cancelled
  }

  /** A caller that has stopped the old generation, and not yet made its own, has left it cancelled. */
  ghost predicate StoppedMeansCancelled(callers: seq<CallerPc>, gens: seq<Gen>) {
    forall c | 0 <= c < |callers| :: (callers[c] == Stopped || callers[c] == Waited) && |gens| > 0
        ==> gens[|gens| - 1].cancelled
  }

  ghost predicate BeyondStopHasBackground(callers: seq<CallerPc>, background: Option<nat>) {
    forall c | 0 <= c < |callers| :: callers[c] == Stopped || callers[c] == Spawning ==> background.Some?
  }

  /** A periodic task has begun at most one run since the cancellation, and then will not begin another. */
  ghost predicate TaskLateOnce(gens: seq<Gen>, task: Task) {
    && (task.late > 0 ==> IsCancelled(gens, task.gen))
    && (task.periodic ==> task.late <= 1 && (task.late == 1 ==> task.pc != AboutToRun))
  }

  ghost predicate LateOnce(gens: seq<Gen>, tasks: seq<Task>) {
    forall t | 0 <= t < |tasks| :: TaskLateOnce(gens, tasks[t])
  }

  ghost predicate Inv(s: State) {
    && Exclusive(s.mutex, s.callers)
    && LatestIsBackground(s.background, s.gens)
    && CountersMatch(s.gens, s.tasks)
    && OnlyLatestLives(s.gens, s.tasks)
    && WaitedMeansNone(s.callers, s.tasks)
    && BeyondStopHasBackground(s.callers, s.background)
    && LateOnce(s.gens, s.tasks)
    && OlderCancelled(s.gens) && StoppedMeansCancelled(s.callers, s.gens)
  }

  // ---------- counting live tasks ----------

  lemma {:induction false} LiveUpdated(tasks: seq<Task>, t: nat, after: Task, g: nat)
    requires t < |tasks| && after.gen == tasks[t].gen
    ensures Live(tasks[t := after], g) + (if tasks[t].gen == g && tasks[t].pc != Gone then 1 else 0)
            == Live(tasks, g) + (if after.gen == g && after.pc != Gone then 1 else 0)
  {
    var n := |tasks| - 1;
    if t < n {
      assert tasks[t := after][..n] == tasks[..n][t := after];
      LiveUpdated(tasks[..n], t, after, g);
    } else {
      assert tasks[t := after][..n] == tasks[..n];
    }
  }

  lemma LiveAppended(tasks: seq<Task>, task: Task, g: nat)
    ensures Live(tasks + [task], g) == Live(tasks, g) + if task.gen == g && task.pc != Gone then 1 else 0
  {
    assert (tasks + [task])[..|tasks|] == tasks;
  }

  lemma {:induction false} NoneLiveIff(tasks: seq<Task>, g: nat)
    ensures Live(tasks, g) == 0 <==> forall t | 0 <= t < |tasks| :: tasks[t].gen == g ==> tasks[t].pc == Gone
  {
    if tasks != [] {
      var n := |tasks| - 1;
      NoneLiveIff(tasks[..n], g);
      assert forall t | 0 <= t < n :: tasks[..n][t] == tasks[t];
    }
  }

  /** A live task keeps its generation's counter above zero, so `Wait` cannot pass it. */
  lemma LiveIsCounted(s: State, t: nat)
    requires Inv(s) && t < |s.tasks| && s.tasks[t].pc != Gone
    ensures s.tasks[t].gen < |s.gens| && s.gens[s.tasks[t].gen].counter > 0
  {
    NoneLiveIff(s.tasks, s.tasks[t].gen);
  }

  // ---------- preservation ----------

  lemma CancelKeepsInv(s: State, g: nat, z: State)
    requires Inv(s) && z == s.(gens := Cancelled(s.gens, g))
    ensures Inv(z)
  {
    assert forall t | 0 <= t < |s.tasks| :: TaskLateOnce(s.gens, s.tasks[t]) ==> TaskLateOnce(z.gens, z.tasks[t]);
  }

  lemma MovedKeepsInv(s: State, c: nat, pc: CallerPc, z: State)
    requires Inv(s) && c < |s.callers| && s.mutex == Some(c) && z == Moved(s, c, pc)
    requires pc == Waited ==> NoneLives(s.tasks)
    requires pc == Stopped || pc == Spawning ==> s.background.Some?
    requires (pc == Stopped || pc == Waited) && |s.gens| > 0 ==> s.gens[|s.gens| - 1].cancelled
    ensures Inv(z)
  {
  }

  lemma LockKeepsInv(s: State, c: nat, z: State)
    requires Inv(s) && c < |s.callers| && s.callers[c] == Outside && s.mutex == None
    requires z == Moved(s, c, Locked).(mutex := Some(c))
    ensures Inv(z)
  {
  }

  lemma UnlockKeepsInv(s: State, c: nat, z: State)
    requires Inv(s) && At(s, c, Spawning) && z == Moved(s, c, Outside).(mutex := None)
    ensures Inv(z)
  {
  }

  lemma NewGenerationKeepsInv(s: State, c: nat, z: State)
    requires Inv(s) && At(s, c, Waited)
    requires z == Moved(s, c, Spawning).(background := Some(|s.gens|), gens := s.gens + [Gen(false, 0)])
    ensures Inv(z)
  {
    assert CountersMatch(z.gens, z.tasks) by {
      NoneLiveIff(s.tasks, |s.gens|);
    }
    assert LateOnce(z.gens, z.tasks) by {
      assert forall t | 0 <= t < |s.tasks| :: TaskLateOnce(s.gens, s.tasks[t]) ==> TaskLateOnce(z.gens, s.tasks[t]);
    }
  }

  lemma SpawnKeepsCounters(gens: seq<Gen>, tasks: seq<Task>, task: Task)
    requires CountersMatch(gens, tasks) && task.gen < |gens| && task.pc != Gone
    ensures CountersMatch(Counted(gens, task.gen, true), tasks + [task])
  {
    forall h | 0 <= h < |gens|
      ensures Counted(gens, task.gen, true)[h].counter == Live(tasks + [task], h)
    {
      LiveAppended(tasks, task, h);
    }
  }

  lemma SpawnKeepsLate(gens: seq<Gen>, tasks: seq<Task>, task: Task)
    requires LateOnce(gens, tasks) && task.late == 0
    ensures LateOnce(Counted(gens, task.gen, true), tasks + [task])
  {
    var after := Counted(gens, task.gen, true);
    assert forall t | 0 <= t < |tasks| :: TaskLateOnce(gens, tasks[t]) ==> TaskLateOnce(after, tasks[t]);
  }

  lemma SpawnKeepsInv(s: State, c: nat, periodic: bool, z: State)
    requires Inv(s) && At(s, c, Spawning) && z == CallerStep(s, Spawn(c, periodic))
    ensures Inv(z)
  {
    var task := Task(s.background.value, periodic, AtCheck, 0);
    assert CountersMatch(z.gens, z.tasks) by {
      SpawnKeepsCounters(s.gens, s.tasks, task);
    }
    assert LateOnce(z.gens, z.tasks) by {
      SpawnKeepsLate(s.gens, s.tasks, task);
    }
  }

  lemma CallerKeepsInv(s: State, a: Action, z: State)
    requires Inv(s) && z == CallerStep(s, a)
    ensures Inv(z)
  {
    match a
    case Lock(c) => if z != s { LockKeepsInv(s, c, z); }
    case StopOld(c) =>
      if At(s, c, Locked) {
        if s.background.None? {
          MovedKeepsInv(s, c, Waited, z);
        } else {
          var mid := s.(gens := Cancelled(s.gens, s.background.value));
          CancelKeepsInv(s, s.background.value, mid);
          MovedKeepsInv(mid, c, Stopped, z);
        }
      }
    case WaitOld(c) =>
      if z != s {
        NoneLiveIff(s.tasks, s.background.value);
        assert NoneLives(s.tasks);
        MovedKeepsInv(s, c, Waited, z);
      }
    case NewGeneration(c) => if At(s, c, Waited) { NewGenerationKeepsInv(s, c, z); }
    case Spawn(c, periodic) => if At(s, c, Spawning) { SpawnKeepsInv(s, c, periodic, z); }
    case Unlock(c) => if At(s, c, Spawning) { UnlockKeepsInv(s, c, z); }
    case _ =>
  }

  lemma TaskStepFacts(gens: seq<Gen>, task: Task, a: Action)
    requires TaskLateOnce(gens, task)
    ensures var after := TaskStep(task, IsCancelled(gens, task.gen), a);
            after.gen == task.gen && (task.pc == Gone ==> after == task) && TaskLateOnce(gens, after)
  {
  }

  lemma TaskKeepsInv(s: State, t: nat, a: Action, z: State)
    requires Inv(s) && z == Stepped(s, t, a)
    ensures Inv(z)
  {
    if t < |s.tasks| {
      var task := s.tasks[t];
      var after := TaskStep(task, IsCancelled(s.gens, task.gen), a);
      assert TaskLateOnce(s.gens, task);
      TaskStepFacts(s.gens, task, a);
      if task.pc != Gone {
        LiveIsCounted(s, t);
      }
      assert CountersMatch(z.gens, z.tasks) by {
        forall g | 0 <= g < |z.gens|
          ensures z.gens[g].counter == Live(z.tasks, g)
        {
          LiveUpdated(s.tasks, t, after, g);
        }
      }
      assert LateOnce(z.gens, z.tasks) by {
        assert forall u: Task :: TaskLateOnce(s.gens, u) ==> TaskLateOnce(z.gens, u);
      }
    }
  }

  lemma StepKeepsInv(s: State, a: Action)
    requires Inv(s)
    ensures Inv(Step(s, a))
  {
    var z := Step(s, a);
    match a
    case Cancel(g) => CancelKeepsInv(s, g, z);
    case Check(t) => TaskKeepsInv(s, t, a, z);
    case Begin(t) => TaskKeepsInv(s, t, a, z);
    case Finish(t) => TaskKeepsInv(s, t, a, z);
    case Fire(t) => TaskKeepsInv(s, t, a, z);
    case Leave(t) => TaskKeepsInv(s, t, a, z);
    case Done(t) => TaskKeepsInv(s, t, a, z);
    case _ => CallerKeepsInv(s, a, z);
  }

  lemma {:induction false} RunKeepsInv(s: State, run: seq<Action>)
    requires Inv(s)
    ensures Inv(Exec(s, run))
  {
    if run != [] {
      RunKeepsInv(s, run[..|run| - 1]);
      StepKeepsInv(Exec(s, run[..|run| - 1]), run[|run| - 1]);
    }
  }

  // ---------- theorems ----------

  /** In every run, tasks of two generations never overlap: once a newer generation exists, every older task is gone. */
  lemma GenerationsNeverOverlap(s: State, run: seq<Action>, t: nat, g: nat)
    requires Initial(s) && t < |Exec(s, run).tasks|
    requires Exec(s, run).tasks[t].gen < g < |Exec(s, run).gens|
    ensures Exec(s, run).tasks[t].pc == Gone
  {
    RunKeepsInv(s, run);
  }

  /** In every run, every generation but the latest is cancelled: starting a new one stops the old one. */
  lemma OlderGenerationsAreCancelled(s: State, run: seq<Action>, g: nat)
    requires Initial(s) && g + 1 < |Exec(s, run).gens|
    ensures Exec(s, run).gens[g].cancelled
  {
    RunKeepsInv(s, run);
  }

  /** In every run, a periodic task begins at most one run of its work after its context is cancelled. */
  lemma AtMostOneLateRun(s: State, run: seq<Action>, t: nat)
    requires Initial(s) && t < |Exec(s, run).tasks| && Exec(s, run).tasks[t].periodic
    ensures Exec(s, run).tasks[t].late <= 1
  {
    RunKeepsInv(s, run);
    assert TaskLateOnce(Exec(s, run).gens, Exec(s, run).tasks[t]);
  }

  lemma ExecLast(s: State, run: seq<Action>, a: Action)
    ensures Exec(s, run + [a]) == Step(Exec(s, run), a)
  {
    assert (run + [a])[..|run|] == run;
  }

  /** A generation with one periodic task can be started from scratch. */
  lemma FirstStart(s: State) returns (run: seq<Action>)
    requires s == State(None, None, [], [], [Outside])
    ensures Exec(s, run) == State(Some(0), Some(0), [Gen(false, 1)], [Task(0, true, AtCheck, 0)], [Spawning])
  {
    run := [];
    ExecLast(s, run, Lock(0));
    run := run + [Lock(0)];
    ExecLast(s, run, StopOld(0));
    run := run + [StopOld(0)];
    ExecLast(s, run, NewGeneration(0));
    run := run + [NewGeneration(0)];
    ExecLast(s, run, Spawn(0, true));
    run := run + [Spawn(0, true)];
  }

  // ---------- what the steps achieve ----------

  /** An uncancelled periodic task goes round: check, work, select, and back to the check. */
  lemma PeriodicLoop(task: Task, t: nat)
    requires task.periodic && task.pc == AtCheck
    ensures var checked := TaskStep(task, false, Check(t));
            var begun := TaskStep(checked, false, Begin(t));
            var finished := TaskStep(begun, false, Finish(t));
            begun.pc == InRun && finished.pc == AtSelect && TaskStep(finished, false, Fire(t)) == task
    ensures TaskStep(task, true, Check(t)) == task.(pc := Returned)
  {
  }

  /** A start that finds the mutex free takes it, and its wait ends exactly when no task of the old generation is
      left. */
  lemma WaitEndsIff(s: State, c: nat)
    requires Inv(s) && At(s, c, Outside) && s.mutex == None && s.gens != []
    ensures var stopped := Step(Step(s, Lock(c)), StopOld(c)); var g := |s.gens| - 1;
            && At(stopped, c, Stopped) && stopped.mutex == Some(c) && IsCancelled(stopped.gens, g)
            && (At(Step(stopped, WaitOld(c)), c, Waited) <==>
                  forall t | 0 <= t < |s.tasks| :: s.tasks[t].gen == g ==> s.tasks[t].pc == Gone)
  {
    NoneLiveIff(s.tasks, |s.gens| - 1);
  }

  /** Once it has waited, it makes a generation of its own that is not cancelled, and lets go of the mutex in the
      end. */
  lemma WaitedGoesOn(s: State, c: nat)
    requires Inv(s) && At(s, c, Waited)
    ensures var made := Step(s, NewGeneration(c));
            && At(made, c, Spawning) && made.background == Some(|s.gens|)
            && made.gens == s.gens + [Gen(false, 0)] && made.tasks == s.tasks
            && Step(made, Unlock(c)).mutex == None && At(Step(made, Unlock(c)), c, Outside)
  {
  }

  /** The bound is tight: a cancellation between the check and the work lets one run begin late. */
  lemma OneLateRunHappens() returns (s: State, run: seq<Action>)
    ensures Initial(s) && |Exec(s, run).tasks| == 1 && Exec(s, run).tasks[0].late == 1
  {
    s := State(None, None, [], [], [Outside]);
    run := FirstStart(s);
    ExecLast(s, run, Check(0));
    run := run + [Check(0)];
    ExecLast(s, run, Cancel(0));
    run := run + [Cancel(0)];
    ExecLast(s, run, Begin(0));
    run := run + [Begin(0)];
  }

  // ---------- a cancelled generation drains ----------

  function Rank(pc: TaskPc): nat {
    match pc
    case AboutToRun => 5
    case InRun => 4
    case AtSelect => 3
    case AtCheck => 2
    case Returned => 1
    case Gone => 0
  }

  predicate Moves(s: State, a: Action, t: nat) {
    t < |s.tasks| && t < |Step(s, a).tasks| && Step(s, a).tasks[t].pc != s.tasks[t].pc
  }

  function MovesIn(s: State, run: seq<Action>, t: nat): nat {
    if run == [] then 0
    else
      var before := run[..|run| - 1];
      MovesIn(s, before, t) + if Moves(Exec(s, before), run[|run| - 1], t) then 1 else 0
  }

  lemma StepKeepsTask(s: State, a: Action, t: nat)
    requires t < |s.tasks| && s.tasks[t].periodic && IsCancelled(s.gens, s.tasks[t].gen)
    ensures var z := Step(s, a);
            && t < |z.tasks| && z.tasks[t].periodic && z.tasks[t].gen == s.tasks[t].gen
                && IsCancelled(z.gens, z.tasks[t].gen)
            && Rank(z.tasks[t].pc) + (if Moves(s, a, t) then 1 else 0) <= Rank(s.tasks[t].pc)
  {
  }

  /** Once its context is cancelled, a periodic task has at most five moves left: nothing but its work can keep
      `Wait` waiting. */
  lemma {:induction false} CancelledTaskDrains(s: State, run: seq<Action>, t: nat)
    requires t < |s.tasks| && s.tasks[t].periodic && IsCancelled(s.gens, s.tasks[t].gen)
    ensures var z := Exec(s, run);
            && t < |z.tasks| && z.tasks[t].periodic && z.tasks[t].gen == s.tasks[t].gen
                && IsCancelled(z.gens, z.tasks[t].gen)
            && Rank(z.tasks[t].pc) + MovesIn(s, run, t) <= Rank(s.tasks[t].pc) <= 5
  {
    if run != [] {
      CancelledTaskDrains(s, run[..|run| - 1], t);
      StepKeepsTask(Exec(s, run[..|run| - 1]), run[|run| - 1], t);
    }
  }
}
