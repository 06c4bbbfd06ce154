/** The container's start of a new generation, as one call runs while everything else goes on around it. */
module BackgroundContainer {
  import opened Wrappers
  import opened BackgroundGenerations

  predicate IsBy(a: Action, c: nat) {
    (a.Lock? || a.StopOld? || a.WaitOld? || a.NewGeneration? || a.Spawn? || a.Unlock?) && a.c == c
  }

  ghost predicate ByOthers(actions: seq<Action>, c: nat) {
    forall a <- actions :: !IsBy(a, c)
  }

  /** The jobs of one generation, in the order they were started: periodic or not. */
  function Jobs(tasks: seq<Task>, g: nat): seq<bool> {
    if tasks == [] then []
    else
      var last := tasks[|tasks| - 1];
      Jobs(tasks[..|tasks| - 1], g) + if last.gen == g then [last.periodic] else []
  }

  ghost predicate SameJobs(a: seq<Task>, b: seq<Task>) {
    |a| == |b| && forall t | 0 <= t < |a| :: a[t].gen == b[t].gen && a[t].periodic == b[t].periodic
  }

  lemma {:induction false} SameJobsAgree(a: seq<Task>, b: seq<Task>, g: nat)
    requires SameJobs(a, b)
    ensures Jobs(a, g) == Jobs(b, g)
  {
    if a != [] {
      SameJobsAgree(a[..|a| - 1], b[..|b| - 1], g);
    }
  }

  lemma {:induction false} NoJobsYet(tasks: seq<Task>, g: nat)
    requires forall t | 0 <= t < |tasks| :: tasks[t].gen < g
    ensures Jobs(tasks, g) == []
  {
    if tasks != [] {
      NoJobsYet(tasks[..|tasks| - 1], g);
    }
  }

  lemma JobsAppended(tasks: seq<Task>, task: Task)
    ensures Jobs(tasks + [task], task.gen) == Jobs(tasks, task.gen) + [task.periodic]
  {
    assert (tasks + [task])[..|tasks|] == tasks;
  }

  /** While one caller is inside, no step of anything else moves it, replaces its generation or adds a task to it. */
  lemma OthersLeaveCaller(s: State, a: Action, c: nat)
    requires Inv(s) && c < |s.callers| && !IsBy(a, c)
    ensures var z := Step(s, a);
            && |z.callers| == |s.callers| && z.callers[c] == s.callers[c]
            && (s.callers[c] == Spawning ==>
                z.background == s.background && |z.gens| == |s.gens|
                && SameJobs(z.tasks, s.tasks))
  {
  }

  lemma {:induction false} OthersLeaveCallerInRuns(s: State, actions: seq<Action>, c: nat)
    requires Inv(s) && c < |s.callers| && ByOthers(actions, c)
    ensures var z := Exec(s, actions);
            && Inv(z) && |z.callers| == |s.callers| && z.callers[c] == s.callers[c]
            && (s.callers[c] == Spawning ==>
                z.background == s.background && |z.gens| == |s.gens|
                && SameJobs(z.tasks, s.tasks))
  {
    if actions != [] {
      var before, last := actions[..|actions| - 1], actions[|actions| - 1];
      assert forall a <- before :: a in actions;
      OthersLeaveCallerInRuns(s, before, c);
      OthersLeaveCaller(Exec(s, before), last, c);
      StepKeepsInv(Exec(s, before), last);
    }
  }

  // ---------- the steps of one call ----------

  /** What holds while a call has started the first `count` jobs of its generation. */
  ghost predicate Started(s: State, c: nat, jobs: seq<bool>, count: nat) {
    && Inv(s) && c < |s.callers| && count <= |jobs|
    && (if s.callers[c] == Spawning then s.background == Some(|s.gens| - 1) && |s.gens| > 0
        && Jobs(s.tasks, |s.gens| - 1) == jobs[..count]
        else count == 0)
  }

  /** What holds when it lets go of the mutex: the latest generation has exactly these jobs. */
  ghost predicate Complete(s: State, jobs: seq<bool>) {
    Inv(s) && s.background == Some(|s.gens| - 1) && |s.gens| > 0 && Jobs(s.tasks, |s.gens| - 1) == jobs
  }

  lemma BeforeSpawning(s: State, c: nat, jobs: seq<bool>, a: Action)
    requires Started(s, c, jobs, 0) && s.callers[c] != Spawning
    requires a == Lock(c) || a == StopOld(c) || a == WaitOld(c) || a == NewGeneration(c)
    ensures Started(Step(s, a), c, jobs, 0)
  {
    StepKeepsInv(s, a);
    NoJobsYet(s.tasks, |s.gens|);
  }

  lemma WhileSpawning(s: State, c: nat, jobs: seq<bool>, count: nat)
    requires Started(s, c, jobs, count) && s.callers[c] == Spawning && count < |jobs|
    ensures Started(Step(s, Spawn(c, jobs[count])), c, jobs, count + 1)
  {
    var a := Spawn(c, jobs[count]);
    var task := Task(|s.gens| - 1, jobs[count], AtCheck, 0);
    StepKeepsInv(s, a);
    JobsAppended(s.tasks, task);
    assert Step(s, a).tasks == s.tasks + [task];
    assert jobs[..count + 1] == jobs[..count] + [jobs[count]];
  }

  class Container {
    var state: State

    constructor (callers: nat)
      ensures Initial(state) && Inv(state) && |state.callers| == callers
    {
      state := State(None, None, [], [], seq(callers, _ => Outside));
    }

    method Interfere(actions: seq<Action>, c: nat)
      requires Inv(state) && c < |state.callers| && ByOthers(actions, c)
      modifies this
      ensures state == Exec(old(state), actions) && Inv(state)
      ensures |state.callers| == old(|state.callers|) && state.callers[c] == old(state.callers[c])
      ensures state.callers[c] == Spawning ==>
                state.background == old(state.background) && |state.gens| == old(|state.gens|)
                    && SameJobs(state.tasks, old(state.tasks))
    {
      OthersLeaveCallerInRuns(state, actions, c);
      var i := 0;
      while i < |actions|
        invariant 0 <= i <= |actions| && state == Exec(old(state), actions[..i])
      {
        assert actions[..i + 1][..i] == actions[..i];
        state := Step(state, actions[i]);
        i := i + 1;
      }
      assert actions[..|actions|] == actions;
    }

    /** One step of the call itself; a blocked lock or wait simply stays where it is. */
    method Advance(c: nat, jobs: seq<bool>, count: nat) returns (next: nat, finished: bool)
      requires Started(state, c, jobs, count)
      modifies this
      ensures if finished then Complete(state, jobs) else Started(state, c, jobs, next)
    {
      next, finished := count, false;
      match state.callers[c] {
        case Outside =>
          BeforeSpawning(state, c, jobs, Lock(c));
          state := Step(state, Lock(c));
        case Locked =>
          BeforeSpawning(state, c, jobs, StopOld(c));
          state := Step(state, StopOld(c));
        case Stopped =>
          BeforeSpawning(state, c, jobs, WaitOld(c));
          state := Step(state, WaitOld(c));
        case Waited =>
          BeforeSpawning(state, c, jobs, NewGeneration(c));
          state := Step(state, NewGeneration(c));
        case Spawning =>
          if count < |jobs| {
            WhileSpawning(state, c, jobs, count);
            state := Step(state, Spawn(c, jobs[count]));
            next := count + 1;
          } else {
            StepKeepsInv(state, Unlock(c));
            state := Step(state, Unlock(c));
            finished := true;
          }
      }
    }

    /**
     * A whole call, with `others` what everything else does before each of its steps. If it gets through, the latest
     * generation runs exactly its jobs, and no task of any other generation is left.
     */
    method StartBackground(c: nat, jobs: seq<bool>, others: seq<seq<Action>>) returns (finished: bool)
      requires Inv(state) && c < |state.callers| && state.callers[c] == Outside
      requires forall batch <- others :: ByOthers(batch, c)
      modifies this
      ensures Inv(state)
      ensures finished ==>
                && state.background == Some(|state.gens| - 1) && |state.gens| > 0
                && Jobs(state.tasks, |state.gens| - 1) == jobs
                && forall t | 0 <= t < |state.tasks| :: state.tasks[t].gen != |state.gens| - 1
                    ==> state.tasks[t].pc == Gone
    {
      finished := false;
      var count, turn := 0, 0;
      while turn < |others| && !finished
        invariant Inv(state) && turn <= |others|
        invariant !finished ==> Started(state, c, jobs, count)
        invariant finished ==> Complete(state, jobs)
      {
        ghost var tasks := state.tasks;
        Interfere(others[turn], c);
        if state.callers[c] == Spawning {
          SameJobsAgree(state.tasks, tasks, |state.gens| - 1);
        }
        count, finished := Advance(c, jobs, count);
        turn := turn + 1;
      }
    }
  }
}
