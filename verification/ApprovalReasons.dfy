/** Why a row was closed without an execution: expired means late, and a stale scale was superseded. */
module ApprovalReasons {
  import opened Wrappers
  import opened AgentOperationTable
  import opened ApprovalProtocol
  import opened ApprovalSafety
  import opened ApprovalTheorems

  predicate Late(request: Request, now: int) {
    request.expiresAt.Some? && now > request.expiresAt.value
  }

  /** The Deployment of a scale request has had a version after the recorded one. */
  ghost predicate Superseded(c: Cluster, request: Request) {
    request.parameters.Scale? ==>
      exists v | request.resourceVersion < v < |c.history| :: c.history[v].target == request.parameters.target
  }

  ghost predicate RowReason(c: Cluster, now: int, row: Operation) {
    (row.status == Expired ==> Late(row.request, now)) && (row.status == Stale ==> Superseded(c, row.request))
  }

  /** What a thread that is about to close a row knows about it. */
  ghost predicate ThreadReason(c: Cluster, now: int, pc: Pc) {
    && (pc.Expiring? ==> Late(pc.request, now))
    && (pc.MarkingStale? ==> Superseded(c, pc.request))
    && (pc.ReadingNode? ==> !pc.request.parameters.Scale?)
  }

  ghost predicate Reasons(c: Cluster, now: int, table: Table, threads: map<nat, Thread>) {
    && (forall id <- table.rows :: RowReason(c, now, table.rows[id]))
    && (forall t <- threads :: ThreadReason(c, now, threads[t].pc))
  }

  ghost predicate HasReasons(s: State) {
    Reasons(s.cluster, s.clock, s.table, s.threads)
  }

  // ---------- time and versions only move on ----------

  lemma ReasonsOutlast(c: Cluster, now: int, table: Table, threads: map<nat, Thread>, d: Cluster, later: int)
    requires Reasons(c, now, table, threads) && c.history <= d.history && now <= later
    ensures Reasons(d, later, table, threads)
  {
    assert forall r: Request :: Superseded(c, r) ==> Superseded(d, r) by {
      forall r: Request | Superseded(c, r)
        ensures Superseded(d, r)
      {
        if r.parameters.Scale? {
          var v :| r.resourceVersion < v < |c.history| && c.history[v].target == r.parameters.target;
          assert d.history[v] == c.history[v];
        }
      }
    }
    assert forall id <- table.rows :: RowReason(c, now, table.rows[id]) ==> RowReason(d, later, table.rows[id]);
    assert forall t <- threads :: ThreadReason(c, now, threads[t].pc) ==> ThreadReason(d, later, threads[t].pc);
  }

  // ---------- the calls of an approver ----------

  /** What a look at the world tells a thread about the request it holds. */
  lemma LookHasReason(s: State, thread: Thread, ok: bool)
    requires Looking(thread.pc) && ThreadReason(s.cluster, s.clock, thread.pc) && ClusterInv(s.cluster)
    requires thread.pc.Reading? ==> RequestGrounded(s.cluster, thread.pc.request)
    ensures ThreadReason(s.cluster, s.clock, Looked(s, thread, ok))
  {
    if thread.pc.Reading? {
      ReadHasReason(s, thread.pc.request, thread.pc.checkedAt, ok);
    }
  }

  lemma ReadHasReason(s: State, request: Request, checkedAt: int, ok: bool)
    requires ClusterInv(s.cluster) && RequestGrounded(s.cluster, request)
    ensures ThreadReason(s.cluster, s.clock, AfterReading(s, request, checkedAt, ok))
  {
    var pc := AfterReading(s, request, checkedAt, ok);
    if pc.MarkingStale? && request.parameters.Scale? {
      var now := s.cluster.current[request.parameters.target];
      assert request.resourceVersion < now < |s.cluster.history|;
      assert s.cluster.history[now].target == request.parameters.target;
    }
  }

  lemma CloseHasReason(s: State, t: nat, ok: bool)
    requires t in s.threads && Closing(s.threads[t].pc) && HasReasons(s)
    requires s.threads[t].operationId in s.table.rows ==>
               s.table.rows[s.threads[t].operationId].request == s.threads[t].pc.request
    ensures HasReasons(Closed(s, t, ok))
  {
    var id, c := s.threads[t].operationId, ChangeOf(s.threads[t], s.clock);
    assert ThreadReason(s.cluster, s.clock, s.threads[t].pc);
    if ok && Matches(s.table, id, c.from) {
      assert RowReason(s.cluster, s.clock, Moved(s.table.rows[id], c.to, c.error, c.approver, c.completedAt));
    }
  }

  lemma ClaimHasReason(s: State, t: nat, ok: bool)
    requires t in s.threads && s.threads[t].pc.Claiming? && HasReasons(s)
    ensures HasReasons(Claimed(s, t, ok))
  {
  }

  lemma RunHasReason(s: State, t: nat, ok: bool)
    requires t in s.threads && s.threads[t].pc.Executing? && HasReasons(s)
    ensures HasReasons(Ran(s, t, ok))
  {
    var z := Ran(s, t, ok);
    ReasonsOutlast(s.cluster, s.clock, s.table, s.threads, z.cluster, z.clock);
  }

  lemma CallHasReason(s: State, t: nat, ok: bool, z: State)
    requires t in s.threads && z == Advanced(s, t, ok) && HasReasons(s) && Held(s, t)
    ensures HasReasons(z)
  {
    var pc := s.threads[t].pc;
    assert ThreadReason(s.cluster, s.clock, pc);
    if Looking(pc) {
      LookHasReason(s, s.threads[t], ok);
      assert z == At(s, t, Looked(s, s.threads[t], ok));
    } else if pc.Claiming? {
      ClaimHasReason(s, t, ok);
    } else if pc.Executing? {
      RunHasReason(s, t, ok);
    } else if Closing(pc) {
      CloseHasReason(s, t, ok);
    }
  }

  /** What the invariant says about the request a thread holds. */
  ghost predicate Held(s: State, t: nat)
    requires t in s.threads
  {
    && ClusterInv(s.cluster)
    && (HoldsRequest(s.threads[t].pc) ==>
          && s.threads[t].operationId in s.table.rows
          && s.table.rows[s.threads[t].operationId].request == s.threads[t].pc.request
          && RequestGrounded(s.cluster, s.threads[t].pc.request))
  }

  lemma InvMeansHeld(s: State, t: nat)
    requires Inv(s) && t in s.threads
    ensures Held(s, t)
  {
    assert ThreadInv(s.table, s.claims, s.effects, s.clock, t, s.threads[t]);
  }

  lemma StepHasReasons(s: State, a: Action, z: State)
    requires HasReasons(s) && z == Step(s, a)
    requires a.Advance? && a.thread in s.threads ==> Held(s, a.thread)
    ensures HasReasons(z)
  {
    match a
    case Advance(t, ok) => if t in s.threads { CallHasReason(s, t, ok, z); }
    case Submit(draft, ok) => assert z.cluster == s.cluster && z.clock == s.clock && z.threads == s.threads;
    case Tick(_) => ReasonsOutlast(s.cluster, s.clock, s.table, s.threads, z.cluster, z.clock);
    case OutsideWrite(_, _) => ReasonsOutlast(s.cluster, s.clock, s.table, s.threads, z.cluster, z.clock);
    case OutsideDelete(_) => ReasonsOutlast(s.cluster, s.clock, s.table, s.threads, z.cluster, z.clock);
    case _ => assert z.cluster == s.cluster && z.clock == s.clock && z.table == s.table;
  }

  lemma {:induction false} RunHasReasons(s: State, run: seq<Action>)
    requires Initial(s)
    ensures HasReasons(Exec(s, run))
  {
    if run != [] {
      var before, last := run[..|run| - 1], run[|run| - 1];
      RunHasReasons(s, before);
      EveryRunIsSafe(s, before);
      if last.Advance? && last.thread in Exec(s, before).threads {
        InvMeansHeld(Exec(s, before), last.thread);
      }
      StepHasReasons(Exec(s, before), last, Exec(s, run));
    }
  }

  /** In every run: an expired row is past its deadline, and the Deployment of a stale scale has moved on from the
      recorded version. Neither is ever undone. */
  lemma ClosedForAReason(s: State, run: seq<Action>, id: string)
    requires Initial(s) && id in Exec(s, run).table.rows
    ensures var z := Exec(s, run); var row := z.table.rows[id];
            && (row.status == Expired ==> row.request.expiresAt.Some? && z.clock > row.request.expiresAt.value)
            && (row.status == Stale && row.request.parameters.Scale? ==>
                  exists v | row.request.resourceVersion < v < |z.cluster.history| ::
                    z.cluster.history[v].target == row.request.parameters.target)
  {
    RunHasReasons(s, run);
    assert RowReason(Exec(s, run).cluster, Exec(s, run).clock, Exec(s, run).table.rows[id]);
  }
}
