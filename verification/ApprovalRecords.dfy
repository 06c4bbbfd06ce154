/** What is left on record of an approval: when an announced outcome is stored, and which approved rows can still
    end. */
module ApprovalRecords {
  import opened Wrappers
  import opened AgentOperationTable
  import opened ApprovalProtocol
  import opened ApprovalSafety
  import opened ApprovalTheorems

  function Outcome(success: bool): Status {
    if success then Succeeded else Failed
  }

  predicate ReportsExecution(reply: Reply) {
    reply == Executed || reply == ExecutionFailed
  }

  /** What a thread between its claim and its last write holds: an approved row, claimed by it. */
  predicate Owns(table: Table, claims: map<string, nat>, t: nat, thread: Thread) {
    thread.pc.Executing? || thread.pc.Recording? ==>
      && thread.operationId in table.rows && table.rows[thread.operationId].status == Approved
      && thread.operationId in claims && claims[thread.operationId] == t
  }

  ghost predicate AllOwn(table: Table, claims: map<string, nat>, threads: map<nat, Thread>) {
    forall t <- threads :: Owns(table, claims, t, threads[t])
  }

  lemma InvMeansAllOwn(s: State)
    requires Inv(s)
    ensures AllOwn(s.table, s.claims, s.threads)
  {
    forall t | t in s.threads
      ensures Owns(s.table, s.claims, t, s.threads[t])
    {
      assert ThreadInv(s.table, s.claims, s.effects, s.clock, t, s.threads[t]);
    }
  }

  lemma RunMeansAllOwn(s: State, run: seq<Action>)
    requires Inv(s)
    ensures AllOwn(Exec(s, run).table, Exec(s, run).claims, Exec(s, run).threads)
  {
    RunKeepsInvariant(s, run);
    InvMeansAllOwn(Exec(s, run));
  }

  // ---------- the last call ----------

  lemma LastWrite(s: State, t: nat, ok: bool)
    requires t in s.threads && s.threads[t].pc.Recording? && Owns(s.table, s.claims, t, s.threads[t])
    ensures var z, id, success := Closed(s, t, ok), s.threads[t].operationId, s.threads[t].pc.success;
            && z.threads[t].pc == Done(if success then Executed else ExecutionFailed)
            && id in z.table.rows
            && z.table.rows[id].status == (if ok then Outcome(success) else Approved)
  {
  }

  /** In every run: a thread that has run its side effect announces the outcome whether or not its last write works,
      and the row holds that outcome exactly when it does. */
  lemma AnnouncedIsStoredIff(s: State, run: seq<Action>, t: nat, ok: bool)
    requires Initial(s) && t in Exec(s, run).threads && Exec(s, run).threads[t].pc.Recording?
    ensures var was, z := Exec(s, run), Exec(s, run + [Advance(t, ok)]);
            var id, success := was.threads[t].operationId, was.threads[t].pc.success;
            && t in z.threads && z.threads[t].pc == Done(if success then Executed else ExecutionFailed)
            && id in z.table.rows
            && z.table.rows[id].status == (if ok then Outcome(success) else Approved)
  {
    RunMeansAllOwn(s, run);
    assert (run + [Advance(t, ok)])[..|run|] == run;
    LastWrite(Exec(s, run), t, ok);
  }

  /** What a call leaves in the row, read off its reply: only the last call of an execution announces one. */
  ghost predicate StoredIff(z: State, t: nat, ok: bool) {
    t in z.threads && z.threads[t].pc.Done? && ReportsExecution(z.threads[t].pc.reply) ==>
      && z.threads[t].operationId in z.table.rows
      && z.table.rows[z.threads[t].operationId].status
         == (if ok then Outcome(z.threads[t].pc.reply == Executed) else Approved)
  }

  lemma StoredAfterCall(s: State, t: nat, ok: bool)
    requires t in s.threads && Owns(s.table, s.claims, t, s.threads[t]) && StepsLeft(s.threads[t].pc) > 0
    ensures StoredIff(Advanced(s, t, ok), t, ok)
  {
    var z := Advanced(s, t, ok);
    if s.threads[t].pc.Recording? {
      LastWrite(s, t, ok);
    } else if z.threads[t].pc.Done? {
      OnlyRecordingReports(s, t, ok);
    }
  }

  lemma OnlyRecordingReports(s: State, t: nat, ok: bool)
    requires t in s.threads && !s.threads[t].pc.Recording? && StepsLeft(s.threads[t].pc) > 0
    ensures var pc := Advanced(s, t, ok).threads[t].pc; pc.Done? ==> !ReportsExecution(pc.reply)
  {
    var pc := s.threads[t].pc;
    if Looking(pc) {
      assert Advanced(s, t, ok).threads[t].pc == Looked(s, s.threads[t], ok);
    } else if Closing(pc) {
      assert Advanced(s, t, ok) == Closed(s, t, ok);
    }
  }

  // ---------- approved rows that nobody will end ----------

  /** The row is approved and the one thread that could record its outcome is gone. */
  predicate Orphaned(s: State, id: string) {
    && id in s.table.rows && s.table.rows[id].status == Approved
    && id in s.claims && s.claims[id] in s.threads
    && (s.threads[s.claims[id]].pc.Done? || s.threads[s.claims[id]].pc.Crashed?)
  }

  /** The row is approved and its claimer is still at work. */
  predicate Tended(s: State, id: string) {
    && id in s.table.rows && s.table.rows[id].status == Approved
    && id in s.claims && s.claims[id] in s.threads
    && (s.threads[s.claims[id]].pc.Executing? || s.threads[s.claims[id]].pc.Recording?)
  }

  lemma ApprovedRowIsTendedOrOrphaned(s: State, id: string)
    requires Inv(s) && id in s.table.rows && s.table.rows[id].status == Approved
    ensures Tended(s, id) || Orphaned(s, id)
    ensures s.threads[s.claims[id]].operationId == id
  {
    var t := s.claims[id];
    assert ClaimInv(s.table.rows[id], s.threads, id, t);
    assert ThreadInv(s.table, s.claims, s.effects, s.clock, t, s.threads[t]);
  }

  /** Only the claimer writes an approved row, and a thread that ended does not move. */
  lemma CallKeepsOrphan(s: State, t: nat, ok: bool, id: string)
    requires Orphaned(s, id) && t in s.threads && Owns(s.table, s.claims, t, s.threads[t])
    ensures Orphaned(Advanced(s, t, ok), id)
  {
    var pc := s.threads[t].pc;
    if Looking(pc) {
      assert Advanced(s, t, ok) == At(s, t, Looked(s, s.threads[t], ok));
    } else if pc.Claiming? {
      CallOfClaimerKeepsOrphan(s, t, ok, id);
    } else if pc.Executing? {
      assert Advanced(s, t, ok) == Ran(s, t, ok);
    } else if Closing(pc) {
      CallOfCloserKeepsOrphan(s, t, ok, id);
    }
  }

  lemma CallOfClaimerKeepsOrphan(s: State, t: nat, ok: bool, id: string)
    requires Orphaned(s, id) && t in s.threads && s.threads[t].pc.Claiming?
    ensures Orphaned(Claimed(s, t, ok), id)
  {
    if ok && Matches(s.table, s.threads[t].operationId, Pending) {
      assert s.threads[t].operationId != id;
    }
  }

  lemma CallOfCloserKeepsOrphan(s: State, t: nat, ok: bool, id: string)
    requires Orphaned(s, id) && t in s.threads && Closing(s.threads[t].pc)
    requires Owns(s.table, s.claims, t, s.threads[t])
    ensures Orphaned(Closed(s, t, ok), id)
  {
    var other, c := s.threads[t].operationId, ChangeOf(s.threads[t], s.clock);
    assert ok && Matches(s.table, other, c.from) ==> other != id;
  }

  lemma StepKeepsOrphan(s: State, a: Action, id: string)
    requires AllOwn(s.table, s.claims, s.threads) && Orphaned(s, id)
    ensures Orphaned(Step(s, a), id)
  {
    match a
    case Advance(t, ok) => if t in s.threads { CallKeepsOrphan(s, t, ok, id); }
    case Submit(draft, ok) => assert id in Submitted(s, draft, ok).table.rows;
    case _ => assert Step(s, a).table == s.table && Step(s, a).claims == s.claims;
  }

  /** Nothing recovers an orphaned row: it is approved in every continuation. */
  lemma {:induction false} OrphanStaysApproved(s: State, run: seq<Action>, id: string)
    requires Inv(s) && Orphaned(s, id)
    ensures Orphaned(Exec(s, run), id)
  {
    if run != [] {
      var before := run[..|run| - 1];
      OrphanStaysApproved(s, before, id);
      RunKeepsInvariant(s, before);
      InvMeansAllOwn(Exec(s, before));
      StepKeepsOrphan(Exec(s, before), run[|run| - 1], id);
    }
  }

  function Calls(t: nat, count: nat): (run: seq<Action>)
    ensures |run| == count
  {
    if count == 0 then [] else Calls(t, count - 1) + [Advance(t, true)]
  }

  lemma CallsStep(s: State, t: nat, count: nat)
    requires count > 0
    ensures Exec(s, Calls(t, count)) == Advanced(Exec(s, Calls(t, count - 1)), t, true)
  {
    assert Calls(t, count)[..count - 1] == Calls(t, count - 1);
  }

  predicate HasEnded(s: State, id: string) {
    id in s.table.rows && (s.table.rows[id].status == Succeeded || s.table.rows[id].status == Failed)
  }

  lemma RunThenRecord(s: State, t: nat, id: string)
    requires t in s.threads && s.threads[t].operationId == id && Owns(s.table, s.claims, t, s.threads[t])
    requires s.threads[t].pc.Executing? || s.threads[t].pc.Recording?
    ensures HasEnded(Exec(s, Calls(t, 1)), id) || HasEnded(Exec(s, Calls(t, 2)), id)
  {
    CallsStep(s, t, 1);
    if s.threads[t].pc.Recording? {
      LastWrite(s, t, true);
    } else {
      CallsStep(s, t, 2);
      LastWrite(Ran(s, t, true), t, true);
    }
  }

  /** Some continuation ends the row. */
  ghost predicate CanEnd(s: State, id: string) {
    exists more: seq<Action> :: HasEnded(Exec(s, more), id)
  }

  lemma TendedCanEnd(s: State, id: string)
    requires AllOwn(s.table, s.claims, s.threads) && Tended(s, id) && s.threads[s.claims[id]].operationId == id
    ensures CanEnd(s, id)
  {
    var t := s.claims[id];
    RunThenRecord(s, t, id);
    if HasEnded(Exec(s, Calls(t, 1)), id) {
      assert CanEnd(s, id);
    }
  }

  lemma OrphanCannotEnd(s: State, id: string)
    requires Inv(s) && Orphaned(s, id)
    ensures !CanEnd(s, id)
  {
    forall more: seq<Action>
      ensures !HasEnded(Exec(s, more), id)
    {
      OrphanStaysApproved(s, more, id);
    }
  }

  /** In every run, an approved row can still end exactly while the thread that claimed it is at work. */
  lemma ApprovedRowCanEndIff(s: State, run: seq<Action>, id: string)
    requires Initial(s) && id in Exec(s, run).table.rows && Exec(s, run).table.rows[id].status == Approved
    ensures CanEnd(Exec(s, run), id) <==> Tended(Exec(s, run), id)
  {
    EveryRunIsSafe(s, run);
    ApprovedRowEndsIff(Exec(s, run), id);
  }

  lemma ApprovedRowEndsIff(s: State, id: string)
    requires Inv(s) && id in s.table.rows && s.table.rows[id].status == Approved
    ensures CanEnd(s, id) <==> Tended(s, id)
  {
    ApprovedRowIsTendedOrOrphaned(s, id);
    if Tended(s, id) {
      InvMeansAllOwn(s);
      TendedCanEnd(s, id);
    } else {
      OrphanCannotEnd(s, id);
    }
  }
}
