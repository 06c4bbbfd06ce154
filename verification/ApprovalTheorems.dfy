/** The guarantees of the approval protocol, for every run from an empty platform. */
module ApprovalTheorems {
  import opened Wrappers
  import opened AgentOperationTable
  import opened ApprovalProtocol
  import opened ApprovalSafety
  import opened ApprovalIntent

  lemma EveryRunIsSafe(s: State, run: seq<Action>)
    requires Initial(s)
    ensures Inv(Exec(s, run))
  {
    RunKeepsInvariant(s, run);
  }

  // ---------- one side effect, one owner ----------

  /** Each side effect is started at most once, by the one thread whose pending-to-approved swap succeeded: the
      thread recorded as the claimer, a request to approve from the user recorded as the approver, on an expiry check
      that passed. */
  lemma SideEffectStartsAtMostOnce(s: State, run: seq<Action>, i: nat, j: nat)
    requires Initial(s)
    requires i < |Exec(s, run).effects| && j < |Exec(s, run).effects|
    ensures var z := Exec(s, run); var e := z.effects[i];
            && (e.operationId == z.effects[j].operationId ==> i == j)
            && e.operationId in z.claims && z.claims[e.operationId] == e.thread
            && e.operationId in z.table.rows
            && Claimable(z.table.rows[e.operationId].status)
            && z.table.rows[e.operationId].approval.Some?
            && e.thread in z.threads
            && z.threads[e.thread].approve && z.threads[e.thread].operationId == e.operationId
            && z.threads[e.thread].user == z.table.rows[e.operationId].approval.value.user
            && z.table.rows[e.operationId].request.expiresAt.Some?
            && e.checkedAt <= z.table.rows[e.operationId].request.expiresAt.value
  {
    EveryRunIsSafe(s, run);
    EveryRunIsIntended(s, run);
    var z := Exec(s, run);
    assert z.effects[i].operationId in z.claims;
  }

  // ---------- scale operations ----------

  /** A scale that ends succeeded put the requested replicas onto exactly the version its request recorded. */
  lemma SucceededScaleLandedOnItsVersion(s: State, run: seq<Action>, id: string)
    requires Initial(s)
    requires var rows := Exec(s, run).table.rows;
             id in rows && rows[id].status == Succeeded && rows[id].request.parameters.Scale?
    ensures var z := Exec(s, run);
            exists i | 0 <= i < |z.effects| ::
              && z.effects[i].operationId == id && z.effects[i].success
              && Landed(z.cluster, z.table.rows[id].request, z.effects[i].version)
  {
    EveryRunIsSafe(s, run);
    var z := Exec(s, run);
    assert Ended(z.effects, id, true);
    var i :| 0 <= i < |z.effects| && z.effects[i].operationId == id && z.effects[i].success;
    assert EffectInv(z.table.rows[id].request, z.cluster, z.effects[i]);
  }

  /** Of all scale operations requested against one version, at most one ever writes a new version. */
  lemma OneWriterPerVersion(s: State, run: seq<Action>, v: nat, w: nat)
    requires Initial(s)
    requires var c := Exec(s, run).cluster;
             v < |c.history| && w < |c.history| && c.history[v].writer.Some? && c.history[w].writer.Some?
    requires var z := Exec(s, run); var a, b := z.cluster.history[v].writer.value, z.cluster.history[w].writer.value;
             a in z.table.rows && b in z.table.rows
             && z.table.rows[a].request.resourceVersion == z.table.rows[b].request.resourceVersion
    ensures v == w
  {
    EveryRunIsSafe(s, run);
    var z := Exec(s, run);
    assert WriterInv(z.table, z.cluster, v) && WriterInv(z.table, z.cluster, w);
  }

  /** Two results over one version: one of them found its replicas already there. */
  lemma OneOfTwoFoundItsReplicas(c: Cluster, one: Request, two: Request, v: nat, w: nat)
    requires ClusterInv(c) && Landed(c, one, v) && Landed(c, two, w)
    requires one.operationId != two.operationId && one.resourceVersion == two.resourceVersion < |c.history|
    ensures var there := c.history[one.resourceVersion].replicas;
            one.parameters.replicas == there || two.parameters.replicas == there
  {
  }

  /** In every run: if two scale operations requested against one version both end succeeded, that version already had
      the replicas one of them asked for. */
  lemma BothSucceededMeansOneWasThere(s: State, run: seq<Action>, a: string, b: string)
    requires Initial(s) && a != b
    requires var rows := Exec(s, run).table.rows;
             && a in rows && rows[a].status == Succeeded && rows[a].request.parameters.Scale?
             && b in rows && rows[b].status == Succeeded && rows[b].request.parameters.Scale?
             && rows[a].request.resourceVersion == rows[b].request.resourceVersion
    ensures var z := Exec(s, run); var one, two := z.table.rows[a].request, z.table.rows[b].request;
            && one.resourceVersion < |z.cluster.history|
            && var there := z.cluster.history[one.resourceVersion].replicas;
               one.parameters.replicas == there || two.parameters.replicas == there
  {
    var z := Exec(s, run);
    SucceededScaleLandedOnItsVersion(s, run, a);
    SucceededScaleLandedOnItsVersion(s, run, b);
    var i :| 0 <= i < |z.effects| && Landed(z.cluster, z.table.rows[a].request, z.effects[i].version);
    var j :| 0 <= j < |z.effects| && Landed(z.cluster, z.table.rows[b].request, z.effects[j].version);
    EveryRunIsSafe(s, run);
    OneOfTwoFoundItsReplicas(z.cluster, z.table.rows[a].request, z.table.rows[b].request, z.effects[i].version,
        z.effects[j].version);
  }

  // ---------- rows over time ----------

  /** The moves a status may make, and staying put. */
  predicate Follows(from: Status, to: Status) {
    || from == to
    || from == Pending
    || (from == Approved && (to == Succeeded || to == Failed))
  }

  /** A row keeps its request and its approver, and a finished row never changes again. */
  predicate RowEvolves(a: Operation, b: Operation) {
    && b.request == a.request
    && Follows(a.status, b.status)
    && (a.approval.Some? ==> b.approval == a.approval)
    && (a.status != Pending && a.status != Approved ==> b == a)
  }

  ghost predicate TableEvolves(t: Table, u: Table) {
    forall id <- t.rows :: id in u.rows && RowEvolves(t.rows[id], u.rows[id])
  }

  /** Nothing a later state knows contradicts an earlier one: requests, claims, effects and versions are only added. */
  ghost predicate Evolves(s: State, z: State) {
    && TableEvolves(s.table, z.table)
    && (forall id <- s.claims :: id in z.claims && z.claims[id] == s.claims[id])
    && s.effects <= z.effects
    && s.cluster.history <= z.cluster.history
  }

  lemma PutEvolves(table: Table, id: string, row: Operation)
    requires id in table.rows && RowEvolves(table.rows[id], row)
    ensures TableEvolves(table, Put(table, id, row))
  {
  }

  lemma ClosingEvolves(s: State, t: nat, ok: bool)
    requires t in s.threads && Closing(s.threads[t].pc)
    requires s.threads[t].operationId in s.table.rows ==> RowColumns(s.table.rows[s.threads[t].operationId])
    ensures Evolves(s, Closed(s, t, ok))
  {
    var id, c := s.threads[t].operationId, ChangeOf(s.threads[t], s.clock);
    if ok && Matches(s.table, id, c.from) {
      PutEvolves(s.table, id, Moved(s.table.rows[id], c.to, c.error, c.approver, c.completedAt));
    }
  }

  lemma ClaimingEvolves(s: State, t: nat, ok: bool)
    requires t in s.threads && s.threads[t].pc.Claiming?
    requires s.threads[t].operationId in s.table.rows ==> RowColumns(s.table.rows[s.threads[t].operationId])
    requires Matches(s.table, s.threads[t].operationId, Pending) ==> s.threads[t].operationId !in s.claims
    ensures Evolves(s, Claimed(s, t, ok))
  {
    var id := s.threads[t].operationId;
    if ok && Matches(s.table, id, Pending) {
      PutEvolves(s.table, id, Moved(s.table.rows[id], Approved, "", Some(Approval(s.threads[t].user, s.clock)), None));
    }
  }

  lemma RunningEvolves(s: State, t: nat, ok: bool)
    requires t in s.threads && s.threads[t].pc.Executing?
    ensures Evolves(s, Ran(s, t, ok))
  {
  }

  lemma AdvanceEvolves(s: State, t: nat, ok: bool, z: State)
    requires t in s.threads && z == Advanced(s, t, ok)
    requires s.threads[t].operationId in s.table.rows ==> RowColumns(s.table.rows[s.threads[t].operationId])
    requires Matches(s.table, s.threads[t].operationId, Pending) ==> s.threads[t].operationId !in s.claims
    ensures Evolves(s, z)
  {
    var pc := s.threads[t].pc;
    if Looking(pc) {
      assert z == At(s, t, Looked(s, s.threads[t], ok));
    } else if Closing(pc) {
      ClosingEvolves(s, t, ok);
    } else if pc.Claiming? {
      ClaimingEvolves(s, t, ok);
    } else if pc.Executing? {
      RunningEvolves(s, t, ok);
    }
  }

  lemma SubmitEvolves(s: State, draft: nat, ok: bool, z: State)
    requires z == Submitted(s, draft, ok)
    ensures Evolves(s, z)
  {
  }

  /** The part of the invariant that the moves of a row rest on. */
  ghost predicate Orderly(table: Table, claims: map<string, nat>) {
    forall id <- table.rows :: RowColumns(table.rows[id]) && (table.rows[id].status == Pending ==> id !in claims)
  }

  lemma InvIsOrderly(s: State)
    requires Inv(s)
    ensures Orderly(s.table, s.claims)
  {
  }

  lemma StepEvolves(s: State, a: Action, z: State)
    requires Orderly(s.table, s.claims) && z == Step(s, a)
    ensures Evolves(s, z)
  {
    match a
    case Advance(t, ok) => if t in s.threads { AdvanceEvolves(s, t, ok, z); }
    case Submit(draft, ok) => SubmitEvolves(s, draft, ok, z);
    case _ => assert z.table == s.table && z.claims == s.claims && z.effects == s.effects
        && s.cluster.history <= z.cluster.history;
  }

  /** The arrows of the status diagram. */
  predicate Arrow(from: Status, to: Status) {
    || (from == Pending && (to == Expired || to == Rejected || to == Stale || to == Approved))
    || (from == Approved && (to == Succeeded || to == Failed))
  }

  /** No single step of anything moves a row other than along one arrow. */
  lemma StepFollowsArrow(s: State, a: Action, id: string)
    requires id in s.table.rows
    ensures id in Step(s, a).table.rows
    ensures var from, to := s.table.rows[id].status, Step(s, a).table.rows[id].status; from == to || Arrow(from, to)
  {
    if a.Advance? && a.thread in s.threads {
      var pc := s.threads[a.thread].pc;
      if Looking(pc) {
        assert Step(s, a).table == s.table;
      } else if Closing(pc) {
        assert Arrow(ChangeOf(s.threads[a.thread], s.clock).from, ChangeOf(s.threads[a.thread], s.clock).to);
      }
    }
  }

  lemma EvolvesTransitive(s: State, m: State, z: State)
    requires Evolves(s, m) && Evolves(m, z)
    ensures Evolves(s, z)
  {
    forall id <- s.table.rows
      ensures id in z.table.rows && RowEvolves(s.table.rows[id], z.table.rows[id])
    {
      assert id in m.table.rows && RowEvolves(s.table.rows[id], m.table.rows[id]);
    }
  }

  /** Between any two points of any run. */
  lemma {:induction false} RunEvolves(s: State, run: seq<Action>)
    requires Inv(s)
    ensures Evolves(s, Exec(s, run))
  {
    if run != [] {
      var before := run[..|run| - 1];
      RunEvolves(s, before);
      RunKeepsInvariant(s, before);
      InvIsOrderly(Exec(s, before));
      StepEvolves(Exec(s, before), run[|run| - 1], Exec(s, run));
      EvolvesTransitive(s, Exec(s, before), Exec(s, run));
    }
  }

  lemma {:induction false} ExecSplits(s: State, a: seq<Action>, b: seq<Action>)
    ensures Exec(s, a + b) == Exec(Exec(s, a), b)
  {
    if b == [] {
      assert a + b == a;
    } else {
      assert (a + b)[..|a + b| - 1] == a + b[..|b| - 1];
      ExecSplits(s, a, b[..|b| - 1]);
    }
  }

  /** Whatever was true after a prefix of a run is only extended by the rest: statuses follow pending to
      {expired, rejected, stale, approved} and approved to {succeeded, failed}, finished rows never change
      again, and a request's columns are frozen. */
  lemma HistoryOnlyGrows(s: State, earlier: seq<Action>, later: seq<Action>)
    requires Initial(s)
    ensures Evolves(Exec(s, earlier), Exec(s, earlier + later))
  {
    EveryRunIsSafe(s, earlier);
    RunEvolves(Exec(s, earlier), later);
    ExecSplits(s, earlier, later);
  }

  /** The columns always agree with the status, and one (runtime, request id) names one row. */
  lemma RowsAreConsistent(s: State, run: seq<Action>, a: string, b: string)
    requires Initial(s)
    requires a in Exec(s, run).table.rows && b in Exec(s, run).table.rows
    ensures var rows := Exec(s, run).table.rows;
            && (rows[a].completedAt.Some? <==> rows[a].status in {Succeeded, Failed})
            && (rows[a].approval.Some? <==> rows[a].status in {Approved, Rejected, Succeeded, Failed})
            && (KeyOf(rows[a]) == KeyOf(rows[b]) ==> a == b)
  {
    EveryRunIsSafe(s, run);
    var z := Exec(s, run);
    assert RowColumns(z.table.rows[a]);
    if KeyOf(z.table.rows[a]) == KeyOf(z.table.rows[b]) {
      RequestNamesOneRow(z.table, a, b);
    }
  }
}
