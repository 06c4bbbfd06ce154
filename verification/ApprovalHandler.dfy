/** The approval handler as it is called: a request that runs to its reply while everything else goes on. */
module ApprovalHandler {
  import opened Wrappers
  import opened AgentOperationTable
  import opened ApprovalProtocol
  import opened ApprovalSafety
  import opened ApprovalTheorems
  import opened ApprovalIntent
  import opened ApprovalRecords

  predicate ActsAs(a: Action, t: nat) {
    (a.Open? || a.Advance? || a.Crash?) && a.thread == t
  }

  ghost predicate LeavesAlone(run: seq<Action>, t: nat) {
    forall a <- run :: !ActsAs(a, t)
  }

  /** Two stages of one call: everything but the program counter agrees. */
  predicate SameCall(a: Thread, b: Thread) {
    a.operationId == b.operationId && a.approve == b.approve && a.user == b.user
  }

  lemma OtherStepLeavesThread(s: State, a: Action, t: nat)
    requires t in s.threads && !ActsAs(a, t)
    ensures t in Step(s, a).threads && Step(s, a).threads[t] == s.threads[t]
  {
  }

  lemma {:induction false} OthersLeaveThread(s: State, run: seq<Action>, t: nat)
    requires t in s.threads && LeavesAlone(run, t)
    ensures t in Exec(s, run).threads && Exec(s, run).threads[t] == s.threads[t]
  {
    if run != [] {
      OthersLeaveThread(s, run[..|run| - 1], t);
      OtherStepLeavesThread(Exec(s, run[..|run| - 1]), run[|run| - 1], t);
    }
  }

  /** The side effects that thread `t` started. */
  ghost predicate StartedBy(s: State, t: nat, i: nat) {
    i < |s.effects| && s.effects[i].thread == t
  }

  /** What a reply lets the user conclude: it reports an execution exactly when this request started one, with its
      outcome, which is then on record unless the row was left approved; and a rejection only when this user's
      rejection is the one on record. */
  ghost predicate Means(s: State, t: nat, id: string, user: nat, reply: Reply) {
    && (reply == Executed || reply == ExecutionFailed ==>
          exists i: nat | StartedBy(s, t, i) ::
            s.effects[i].operationId == id && s.effects[i].success == (reply == Executed))
    && (ReportsExecution(reply) ==>
          id in s.table.rows && s.table.rows[id].status in {Outcome(reply == Executed), Approved})
    && (reply != Executed && reply != ExecutionFailed ==> forall i: nat :: !StartedBy(s, t, i))
    && (reply == RejectedByUser ==>
          && id in s.table.rows && s.table.rows[id].status == Rejected
          && s.table.rows[id].approval.Some? && s.table.rows[id].approval.value.user == user)
  }

  lemma ReplyIsTruthful(s: State, t: nat)
    requires Inv(s) && t in s.threads && s.threads[t].pc.Done?
    ensures Means(s, t, s.threads[t].operationId, s.threads[t].user, s.threads[t].pc.reply)
  {
    var id, reply := s.threads[t].operationId, s.threads[t].pc.reply;
    assert ThreadInv(s.table, s.claims, s.effects, s.clock, t, s.threads[t]);
    if reply == Executed || reply == ExecutionFailed {
      var i :| 0 <= i < |s.effects| && s.effects[i].operationId == id && s.effects[i].success == (reply == Executed);
      assert StartedBy(s, t, i);
      OutcomeIsItsOwn(s, t, i);
    }
  }

  /** A row that has ended holds the outcome of its one side effect. */
  lemma OutcomeIsItsOwn(s: State, t: nat, i: nat)
    requires EffectsInv(s.table, s.claims, s.effects, s.cluster) && ClaimsInv(s.table, s.claims, s.effects, s.threads)
    requires StartedBy(s, t, i)
    ensures var e := s.effects[i];
            e.operationId in s.table.rows && s.table.rows[e.operationId].status in {Outcome(e.success), Approved}
  {
    var e := s.effects[i];
    var status := s.table.rows[e.operationId].status;
    assert ClaimInv(s.table.rows[e.operationId], s.threads, e.operationId, s.claims[e.operationId]);
    if status != Approved {
      assert Ended(s.effects, e.operationId, status == Succeeded);
      var j :| 0 <= j < |s.effects| && s.effects[j].operationId == e.operationId
          && s.effects[j].success == (status == Succeeded);
      assert j == i;
    }
  }

  lemma StoredAfterRun(start: State, run: seq<Action>, s: State, t: nat, ok: bool)
    requires Inv(start) && s == Exec(start, run) && t in s.threads && StepsLeft(s.threads[t].pc) > 0
    ensures StoredIff(Step(s, Advance(t, ok)), t, ok)
  {
    RunMeansAllOwn(start, run);
    StoredAfterCall(s, t, ok);
  }

  class Platform {
    var state: State

    constructor (facts: Facts, now: int)
      ensures Initial(state)
    {
      state := State(Table(map[], map[]), map[], Cluster([], map[]), facts, now, map[], map[], []);
    }

    /** Everything else that happens between two calls of a handler. */
    method Interfere(others: seq<Action>)
      modifies this
      ensures state == Exec(old(state), others)
    {
      var i := 0;
      assert others[..0] == [];
      while i < |others|
        invariant 0 <= i <= |others|
        invariant state == Exec(old(state), others[..i])
      {
        assert others[..i + 1][..i] == others[..i];
        state := Step(state, others[i]);
        i := i + 1;
      }
      assert others[..i] == others;
    }

    /** One call of thread `t`, after whatever else happened since its previous one; `so` is the run up to here. */
    method Turn(t: nat, others: seq<Action>, ok: bool, ghost start: State, ghost so: seq<Action>)
        returns (ghost run: seq<Action>)
      requires state == Exec(start, so)
      requires t in state.threads && StepsLeft(state.threads[t].pc) > 0
      requires LeavesAlone(others, t) && MeantIt(state.threads[t])
      modifies this
      ensures state == Exec(start, run)
      ensures t in state.threads && SameCall(state.threads[t], old(state.threads[t]))
      ensures StepsLeft(state.threads[t].pc) < StepsLeft(old(state.threads[t].pc)) && !state.threads[t].pc.Crashed?
      ensures Inv(start) ==> StoredIff(state, t, ok)
      ensures MeantIt(state.threads[t])
    {
      ghost var more := others + [Advance(t, ok)];
      assert more[..|more| - 1] == others;
      OthersLeaveThread(state, others, t);
      Interfere(others);
      ghost var before := state;
      ExecSplits(start, so, others);
      CallKeepsIntent(state, t, ok);
      state := Step(state, Advance(t, ok));
      ExecSplits(start, so, more);
      run := so + more;
      if Inv(start) {
        StoredAfterRun(start, so + others, before, t, ok);
      }
    }

    method Begin(t: nat, id: string, approve: bool, user: nat) returns (ghost run: seq<Action>)
      requires t !in state.threads
      modifies this
      ensures state == Exec(old(state), run)
      ensures t in state.threads && state.threads[t] == Thread(id, approve, user, Loading)
    {
      run := [Open(t, id, approve, user)];
      assert run[..0] == [];
      state := Step(state, Open(t, id, approve, user));
    }

    /** All the calls of one request. */
    method Drive(t: nat, others: nat -> seq<Action>, answers: nat -> bool, ghost start: State, ghost so: seq<Action>)
      returns (calls: nat, ghost run: seq<Action>)
      requires state == Exec(start, so) && t in state.threads && state.threads[t].pc.Loading?
      requires forall k: nat :: LeavesAlone(others(k), t)
      modifies this
      ensures state == Exec(start, run) && 0 < calls <= 7
      ensures t in state.threads && SameCall(state.threads[t], old(state.threads[t])) && state.threads[t].pc.Done?
      ensures Inv(start) ==> StoredIff(state, t, answers(calls - 1))
      ensures MeantIt(state.threads[t])
    {
      calls, run := 0, so;
      while !state.threads[t].pc.Done?
        invariant state == Exec(start, run)
        invariant t in state.threads && SameCall(state.threads[t], old(state.threads[t]))
                  && !state.threads[t].pc.Crashed?
        invariant MeantIt(state.threads[t])
        invariant calls + StepsLeft(state.threads[t].pc) <= 7
        invariant calls == 0 ==> !state.threads[t].pc.Done?
        invariant calls > 0 && Inv(start) ==> StoredIff(state, t, answers(calls - 1))
        decreases StepsLeft(state.threads[t].pc)
      {
        run := Turn(t, others(calls), answers(calls), start, run);
        calls := calls + 1;
      }
    }

    method Conclude(t: nat, ghost start: State, ghost run: seq<Action>) returns (reply: Reply)
      requires Inv(start) && state == Exec(start, run)
      requires t in state.threads && state.threads[t].pc.Done?
      ensures Inv(state) && reply == state.threads[t].pc.reply
      ensures Means(state, t, state.threads[t].operationId, state.threads[t].user, reply)
    {
      RunKeepsInvariant(start, run);
      reply := state.threads[t].pc.reply;
      ReplyIsTruthful(state, t);
    }

    /** One browser request, with any other activity between any two of its calls and any of its calls failing.
        It always replies, after at most seven calls of its own; the whole is a run of the protocol; and a reply
        that does not report an execution means that this request executed nothing. An announced outcome is the one
        in the row exactly when the last call worked; otherwise the row is left approved. A request to reject executes
        nothing, and a request to approve rejects nothing. */
    method Resolve(t: nat, id: string, approve: bool, user: nat, others: nat -> seq<Action>, answers: nat -> bool)
      returns (reply: Reply, calls: nat, ghost run: seq<Action>)
      requires Inv(state) && t !in state.threads
      requires forall k: nat :: LeavesAlone(others(k), t)
      modifies this
      ensures Inv(state) && state == Exec(old(state), run)
      ensures 0 < calls <= 7
      ensures t in state.threads && state.threads[t] == Thread(id, approve, user, Done(reply))
      ensures Means(state, t, id, user, reply)
      ensures StoredIff(state, t, answers(calls - 1))
      ensures if approve then reply != RejectedByUser else !ReportsExecution(reply)
    {
      ghost var start := state;
      run := Begin(t, id, approve, user);
      calls, run := Drive(t, others, answers, start, run);
      reply := Conclude(t, start, run);
    }
  }
}
