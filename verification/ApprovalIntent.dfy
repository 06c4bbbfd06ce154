/** A request does what its user asked for: only approvals claim rows and execute, only rejections reject. */
module ApprovalIntent {
  import opened Wrappers
  import opened AgentOperationTable
  import opened ApprovalProtocol

  /** The program counters of a request that is on its way to execute, or that did. */
  predicate Approving(pc: Pc) {
    || pc.Reading? || pc.ReadingNode? || pc.MarkingStale? || pc.Claiming? || pc.Executing? || pc.Recording?
    || (pc.Done? && (pc.reply == Executed || pc.reply == ExecutionFailed))
  }

  predicate Refusing(pc: Pc) {
    pc.Rejecting? || pc == Done(RejectedByUser)
  }

  /** What a request has got to is what its user asked for. */
  predicate MeantIt(thread: Thread) {
    (Approving(thread.pc) ==> thread.approve) && (Refusing(thread.pc) ==> !thread.approve)
  }

  ghost predicate AllMeantIt(threads: map<nat, Thread>) {
    forall t <- threads :: MeantIt(threads[t])
  }

  /** Every row was claimed by a request to approve it. */
  ghost predicate ClaimedByApprovers(claims: map<string, nat>, threads: map<nat, Thread>) {
    forall id <- claims :: claims[id] in threads && threads[claims[id]].approve && threads[claims[id]].operationId == id
  }

  /** A rejected row was rejected by a request to reject it, of the user on record. */
  ghost predicate RejectedByRejecters(table: Table, threads: map<nat, Thread>) {
    forall id <- table.rows :: table.rows[id].status == Rejected ==> HasRejecter(table.rows[id], id, threads)
  }

  ghost predicate HasRejecter(row: Operation, id: string, threads: map<nat, Thread>) {
    exists t <- threads :: RejectedBy(row, id, threads[t])
  }

  predicate RejectedBy(row: Operation, id: string, thread: Thread) {
    !thread.approve && thread.operationId == id && row.approval.Some? && row.approval.value.user == thread.user
  }

  ghost predicate Intended(s: State) {
    AllMeantIt(s.threads) && ClaimedByApprovers(s.claims, s.threads) && RejectedByRejecters(s.table, s.threads)
  }

  // ---------- the calls of one request ----------

  lemma LookKeepsIntent(s: State, thread: Thread, ok: bool)
    requires Looking(thread.pc) && MeantIt(thread)
    ensures MeantIt(thread.(pc := Looked(s, thread, ok)))
  {
  }

  /** Every call keeps a request to what its user asked for. */
  lemma CallKeepsIntent(s: State, t: nat, ok: bool)
    requires t in s.threads && MeantIt(s.threads[t])
    ensures t in Advanced(s, t, ok).threads && MeantIt(Advanced(s, t, ok).threads[t])
  {
    if Looking(s.threads[t].pc) {
      LookKeepsIntent(s, s.threads[t], ok);
    }
  }

  // ---------- every step, every run ----------

  /** Threads keep what identifies them, and none goes away. */
  ghost predicate KeepsIdentity(before: map<nat, Thread>, after: map<nat, Thread>) {
    forall t <- before :: t in after && after[t].operationId == before[t].operationId
                          && after[t].approve == before[t].approve && after[t].user == before[t].user
  }

  lemma RejectionsOutlast(table: Table, before: map<nat, Thread>, after: map<nat, Thread>)
    requires RejectedByRejecters(table, before) && KeepsIdentity(before, after)
    ensures RejectedByRejecters(table, after)
  {
    forall id | id in table.rows && table.rows[id].status == Rejected
      ensures HasRejecter(table.rows[id], id, after)
    {
      var t :| t in before && RejectedBy(table.rows[id], id, before[t]);
      assert RejectedBy(table.rows[id], id, after[t]);
    }
  }

  lemma CloseKeepsIntended(s: State, t: nat, ok: bool)
    requires Intended(s) && t in s.threads && Closing(s.threads[t].pc)
    ensures Intended(Closed(s, t, ok))
  {
    var z, id, c := Closed(s, t, ok), s.threads[t].operationId, ChangeOf(s.threads[t], s.clock);
    CallKeepsIntent(s, t, ok);
    RejectionsOutlast(s.table, s.threads, z.threads);
    if ok && Matches(s.table, id, c.from) && c.to == Rejected {
      assert MeantIt(s.threads[t]) && s.threads[t].pc.Rejecting?;
      assert RejectedBy(z.table.rows[id], id, z.threads[t]);
    }
  }

  lemma ClaimKeepsIntended(s: State, t: nat, ok: bool)
    requires Intended(s) && t in s.threads && s.threads[t].pc.Claiming?
    ensures Intended(Claimed(s, t, ok))
  {
    var z := Claimed(s, t, ok);
    CallKeepsIntent(s, t, ok);
    RejectionsOutlast(s.table, s.threads, z.threads);
  }

  lemma CallKeepsIntended(s: State, t: nat, ok: bool, z: State)
    requires Intended(s) && t in s.threads && z == Advanced(s, t, ok)
    ensures Intended(z)
  {
    var pc := s.threads[t].pc;
    if pc.Claiming? {
      ClaimKeepsIntended(s, t, ok);
    } else if Closing(pc) {
      CloseKeepsIntended(s, t, ok);
    } else {
      CallKeepsIntent(s, t, ok);
      assert z.table == s.table && z.claims == s.claims;
      RejectionsOutlast(s.table, s.threads, z.threads);
    }
  }

  lemma SubmitKeepsIntended(s: State, draft: nat, ok: bool)
    requires Intended(s)
    ensures Intended(Submitted(s, draft, ok))
  {
  }

  lemma MoveKeepsIntended(s: State, z: State)
    requires Intended(s) && z.table == s.table && z.claims == s.claims
    requires KeepsIdentity(s.threads, z.threads) && AllMeantIt(z.threads)
    ensures Intended(z)
  {
    RejectionsOutlast(s.table, s.threads, z.threads);
  }

  lemma OtherStepMoves(s: State, a: Action, z: State)
    requires AllMeantIt(s.threads) && z == Step(s, a) && !a.Advance? && !a.Submit?
    ensures z.table == s.table && z.claims == s.claims
    ensures KeepsIdentity(s.threads, z.threads) && AllMeantIt(z.threads)
  {
  }

  lemma StepKeepsIntended(s: State, a: Action, z: State)
    requires Intended(s) && z == Step(s, a)
    ensures Intended(z)
  {
    if a.Advance? {
      if a.thread in s.threads {
        CallKeepsIntended(s, a.thread, a.ok, z);
      }
    } else if a.Submit? {
      SubmitKeepsIntended(s, a.draft, a.ok);
    } else {
      OtherStepMoves(s, a, z);
      MoveKeepsIntended(s, z);
    }
  }

  lemma {:induction false} RunKeepsIntended(s: State, run: seq<Action>)
    requires Intended(s)
    ensures Intended(Exec(s, run))
  {
    if run != [] {
      RunKeepsIntended(s, run[..|run| - 1]);
      StepKeepsIntended(Exec(s, run[..|run| - 1]), run[|run| - 1], Exec(s, run));
    }
  }

  /** In every run: rows are claimed by requests to approve only, and a row is rejected only by a request to reject it,
      of the user on record. */
  lemma EveryRunIsIntended(s: State, run: seq<Action>)
    requires Initial(s)
    ensures Intended(Exec(s, run))
  {
    RunKeepsIntended(s, run);
  }
}
