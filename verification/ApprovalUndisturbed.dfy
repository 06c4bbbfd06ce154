/** What a request comes to when every call works and nothing else happens in between, read off the row and the
    facts. */
module ApprovalUndisturbed {
  import opened Wrappers
  import opened AgentOperationTable
  import opened ApprovalProtocol

  // ---------- filing ----------

  /** A request that is filed at once records the version its Deployment has now, and may wait fifteen minutes. */
  lemma RequestIsFiled(s: State, draft: nat, request: Request, z: State)
    requires draft !in s.drafts && z == Step(Step(s, Draft(draft, request)), Submit(draft, true))
    requires request.parameters.Scale? && request.parameters.target in s.cluster.current
    requires request.runtimeId != 0 && request.requestId != "" && request.operationId != ""
    requires request.operationId !in s.table.rows
    requires RequestKey(request.runtimeId, request.requestId) !in s.table.byRequest
    ensures request.operationId in z.table.rows
    ensures var row := z.table.rows[request.operationId];
            && row.status == Pending && row.approval == None && row.completedAt == None
            && row.request.resourceVersion == s.cluster.current[request.parameters.target]
            && row.request.expiresAt == Some(s.clock + 900)
            && row.request.capability == Some(DeploymentScale)
            && row.request.parameters == request.parameters && row.request.requestId == request.requestId
    ensures z.table.rows == s.table.rows[request.operationId := z.table.rows[request.operationId]]
    ensures z.cluster == s.cluster && z.effects == s.effects && z.threads == s.threads
  {
    var filed := s.drafts[draft := request.(
      resourceVersion := s.cluster.current[request.parameters.target],
      capability := Some(DeploymentScale),
      expiresAt := Some(s.clock + 900))];
    assert Step(s, Draft(draft, request)).drafts == filed;
  }

  // ---------- the first two calls ----------

  /** A request that has just come in, for a pending row. */
  predicate JustOpened(s: State, t: nat, id: string, approve: bool, user: nat) {
    && t in s.threads && s.threads[t] == Thread(id, approve, user, Loading)
    && id in s.table.rows && s.table.rows[id].status == Pending && s.table.rows[id].request.expiresAt.Some?
  }

  predicate InTime(s: State, id: string)
    requires id in s.table.rows && s.table.rows[id].request.expiresAt.Some?
  {
    s.clock <= s.table.rows[id].request.expiresAt.value
  }

  /** The state after `n` calls of `t` that work, with nothing in between. */
  function Called(s: State, t: nat, n: nat): State {
    if n == 0 then s else Step(Called(s, t, n - 1), Advance(t, true))
  }

  lemma CalledOnce(s: State, t: nat, n: nat, m: State)
    requires Called(s, t, n) == m
    ensures Called(s, t, n + 1) == Advanced(m, t, true)
  {
  }

  lemma FirstTwoCalls(s: State, t: nat, id: string, approve: bool, user: nat)
    requires JustOpened(s, t, id, approve, user)
    ensures var r := s.table.rows[id].request;
            Called(s, t, 2) == At(s, t,
              if !InTime(s, id) then Expiring(r) else if approve then Reading(r, s.clock) else Rejecting(r, s.clock))
  {
    var r := s.table.rows[id].request;
    assert Called(s, t, 0) == s;
    assert Called(s, t, 1) == At(s, t, Loaded(r));
  }

  /** What a request that started nothing leaves as it was. */
  predicate OnlyTouches(s: State, z: State, id: string) {
    && id in s.table.rows && id in z.table.rows && z.table.rows == s.table.rows[id := z.table.rows[id]]
    && z.table.rows[id].request == s.table.rows[id].request
    && z.cluster == s.cluster && z.claims == s.claims && z.effects == s.effects
  }

  /** A rejection in time: the row is rejected by that user, nothing else changes, and the reply says so. */
  lemma RejectionRejects(s: State, t: nat, id: string, user: nat, z: State)
    requires JustOpened(s, t, id, false, user) && InTime(s, id) && z == Called(s, t, 3)
    ensures OnlyTouches(s, z, id) && t in z.threads && z.threads[t].pc == Done(RejectedByUser)
    ensures z.table.rows[id].status == Rejected && z.table.rows[id].approval == Some(Approval(user, s.clock))
  {
    FirstTwoCalls(s, t, id, false, user);
  }

  /** Past the deadline a request closes the row as expired, whether it is to approve or to reject. */
  lemma LateRequestExpires(s: State, t: nat, id: string, approve: bool, user: nat, z: State)
    requires JustOpened(s, t, id, approve, user) && !InTime(s, id) && z == Called(s, t, 3)
    ensures OnlyTouches(s, z, id) && t in z.threads && z.threads[t].pc == Done(Conflict)
    ensures z.table.rows[id].status == Expired && z.table.rows[id].approval == s.table.rows[id].approval
  {
    FirstTwoCalls(s, t, id, approve, user);
  }

  // ---------- cleanups and pulls ----------

  lemma FourCalls(s: State, t: nat, k: nat)
    ensures Called(s, t, k + 2) == Advanced(Advanced(Called(s, t, k), t, true), t, true)
    ensures Called(s, t, k + 4) == Advanced(Advanced(Called(s, t, k + 2), t, true), t, true)
  {
    assert Called(s, t, k + 1) == Advanced(Called(s, t, k), t, true);
    assert Called(s, t, k + 3) == Advanced(Called(s, t, k + 2), t, true);
  }

  /** The second read passes, and the row is claimed. */
  lemma NodeManagedClaims(m: State, t: nat, id: string, r: Request, z: State)
    requires t in m.threads && m.threads[t].operationId == id && m.threads[t].pc.ReadingNode?
    requires m.threads[t].pc.request == r && Matches(m.table, id, Pending)
    requires NodeOf(r.parameters) in m.facts.managedNodes && z == Advanced(Advanced(m, t, true), t, true)
    ensures t in z.threads && z.threads[t].operationId == id && z.threads[t].pc.Executing?
    ensures z.threads[t].pc.request == r && Matches(z.table, id, Approved)
    ensures z.cluster == m.cluster && z.effects == m.effects
  {
    var m1 := At(m, t, Claiming(r, m.threads[t].pc.checkedAt, r.resourceVersion));
    assert Advanced(m, t, true) == m1;
    assert z == Claimed(m1, t, true);
  }

  /** The claimed side effect runs, and its outcome is recorded. */
  lemma ClaimedRuns(m: State, t: nat, id: string, r: Request, z: State)
    requires t in m.threads && m.threads[t].operationId == id && m.threads[t].pc.Executing?
    requires m.threads[t].pc.request == r && !r.parameters.Scale? && Matches(m.table, id, Approved)
    requires z == Advanced(Advanced(m, t, true), t, true)
    ensures id in z.table.rows && z.table.rows[id].status == Succeeded
    ensures z.cluster == m.cluster && |z.effects| == |m.effects| + 1
    ensures z.effects[|m.effects|].operationId == id && z.effects[|m.effects|].success
  {
    var m1 := Ran(m, t, true);
    assert Advanced(m, t, true) == m1 && m1.threads[t].pc == Recording(r, true);
    assert z == Closed(m1, t, true);
  }

  lemma NodeManagedSucceeds(s: State, t: nat, id: string, r: Request, k: nat, m: State, z: State)
    requires m == Called(s, t, k) && z == Called(s, t, k + 4)
    requires t in m.threads && m.threads[t].operationId == id && m.threads[t].pc.ReadingNode?
    requires m.threads[t].pc.request == r && !r.parameters.Scale? && Matches(m.table, id, Pending)
    requires NodeOf(r.parameters) in m.facts.managedNodes
    ensures id in z.table.rows && z.table.rows[id].status == Succeeded
    ensures z.cluster == m.cluster && |z.effects| == |m.effects| + 1
    ensures z.effects[|m.effects|].operationId == id && z.effects[|m.effects|].success
  {
    var claimed := Called(s, t, k + 2);
    FourCalls(s, t, k);
    NodeManagedClaims(m, t, id, r, claimed);
    ClaimedRuns(claimed, t, id, r, z);
  }

  /** A stale target is marked. */
  lemma StaleIsMarked(m: State, t: nat, id: string, r: Request, z: State)
    requires t in m.threads && m.threads[t].operationId == id && m.threads[t].pc == MarkingStale(r)
    requires Matches(m.table, id, Pending) && z == Advanced(m, t, true)
    ensures id in z.table.rows && z.table.rows[id].status == Stale && z.cluster == m.cluster && z.effects == m.effects
    ensures t in z.threads && z.threads[t].pc == Done(Conflict)
  {
  }

  /** After the second read the node decides, and with it how many calls are made. */
  lemma NodeDecides(s: State, t: nat, id: string, r: Request, m: State, managed: bool, z: State)
    requires m == Called(s, t, 3) && z == Called(s, t, if managed then 7 else 5)
    requires t in m.threads && m.threads[t].operationId == id && m.threads[t].pc.ReadingNode?
    requires m.threads[t].pc.request == r && !r.parameters.Scale? && Matches(m.table, id, Pending)
    requires managed == (NodeOf(r.parameters) in m.facts.managedNodes)
    ensures id in z.table.rows && z.cluster == m.cluster
    ensures z.table.rows[id].status == (if managed then Succeeded else Stale)
    ensures |z.effects| == |m.effects| + (if managed then 1 else 0)
  {
    if managed {
      NodeManagedSucceeds(s, t, id, r, 3, m, z);
    } else {
      assert Called(s, t, 4) == At(m, t, MarkingStale(r));
      StaleIsMarked(At(m, t, MarkingStale(r)), t, id, r, z);
    }
  }

  /** What comes of a row that needs two reads, by what they find. */
  predicate Came(s: State, z: State, id: string, runs: bool) {
    && id in z.table.rows && z.cluster == s.cluster
    && z.table.rows[id].status == (if runs then Succeeded else Stale)
    && |z.effects| == |s.effects| + (if runs then 1 else 0)
  }

  /** The calls that are made: to the end, or until a read finds the target stale. */
  function CallsMade(first: bool, second: bool): nat {
    if !first then 4 else if second then 7 else 5
  }

  lemma TwoReads(s: State, t: nat, id: string, user: nat, first: bool, managed: bool, z: State)
    requires JustOpened(s, t, id, true, user) && InTime(s, id) && !s.table.rows[id].request.parameters.Scale?
    requires managed == (NodeOf(s.table.rows[id].request.parameters) in s.facts.managedNodes)
    requires var r := s.table.rows[id].request;
             AfterReading(s, r, s.clock, true) == if first then ReadingNode(r, s.clock) else MarkingStale(r)
    requires z == Called(s, t, CallsMade(first, managed))
    ensures Came(s, z, id, first && managed)
  {
    var r := s.table.rows[id].request;
    FirstTwoCalls(s, t, id, true, user);
    CalledOnce(s, t, 2, At(s, t, Reading(r, s.clock)));
    FirstRead(s, t, r, At(s, t, Reading(r, s.clock)));
    if first {
      NodeDecides(s, t, id, r, At(s, t, ReadingNode(r, s.clock)), managed, z);
    } else {
      StaleIsMarked(At(s, t, MarkingStale(r)), t, id, r, z);
    }
  }

  lemma FirstRead(s: State, t: nat, r: Request, m: State)
    requires t in s.threads && m == At(s, t, Reading(r, s.clock))
    ensures Advanced(m, t, true) == At(s, t, AfterReading(s, r, s.clock, true))
  {
    assert AfterReading(m, r, s.clock, true) == AfterReading(s, r, s.clock, true);
  }

  /** A cleanup runs exactly when its alert is still firing on its node and the node is managed; otherwise it goes
      stale. */
  lemma CleanupOutcome(s: State, t: nat, id: string, user: nat, alert: nat, node: string, recipe: string)
    requires JustOpened(s, t, id, true, user) && InTime(s, id)
    requires s.table.rows[id].request.capability == Some(MaintenanceCleanup)
    requires s.table.rows[id].request.parameters == Cleanup(alert, node, recipe)
    requires s.facts.cleanupExecutor && alert != 0 && recipe in s.facts.recipes && node in s.facts.validNodes
    ensures var firing := && alert in s.facts.alerts && s.facts.alerts[alert].node == node
                          && !s.facts.alerts[alert].resolved;
            var managed := node in s.facts.managedNodes;
            Came(s, Called(s, t, CallsMade(firing, managed)), id, firing && managed)
  {
    var firing := alert in s.facts.alerts && s.facts.alerts[alert].node == node && !s.facts.alerts[alert].resolved;
    var managed := node in s.facts.managedNodes;
    TwoReads(s, t, id, user, firing, managed, Called(s, t, CallsMade(firing, managed)));
  }

  /** A pull runs exactly when its registry still verifies with the same image and the node is managed. */
  lemma PullOutcome(s: State, t: nat, id: string, user: nat, node: string, registry: string, image: string)
    requires JustOpened(s, t, id, true, user) && InTime(s, id) && s.facts.pullExecutor
    requires s.table.rows[id].request.capability == Some(RegistryPullCheck)
    requires s.table.rows[id].request.parameters == Pull(node, registry, image)
    ensures var same := registry in s.facts.images && s.facts.images[registry] == image && image != "";
            var managed := node in s.facts.managedNodes;
            Came(s, Called(s, t, CallsMade(same, managed)), id, same && managed)
  {
    var same := registry in s.facts.images && s.facts.images[registry] == image && image != "";
    var managed := node in s.facts.managedNodes;
    TwoReads(s, t, id, user, same, managed, Called(s, t, CallsMade(same, managed)));
  }

  /** Without its executor, or with parameters that do not decode, an approval changes nothing at all. */
  lemma UnexecutableStaysPending(s: State, t: nat, id: string, user: nat)
    requires JustOpened(s, t, id, true, user) && InTime(s, id)
    requires var r := s.table.rows[id].request;
             match r.capability
             case Some(RegistryPullCheck) => !s.facts.pullExecutor || !r.parameters.Pull?
             case Some(MaintenanceCleanup) => !s.facts.cleanupExecutor || !r.parameters.Cleanup?
             case Some(DeploymentScale) => !s.facts.kubernetes || !r.parameters.Scale?
             case _ => true
    ensures var z := Called(s, t, 3);
            && z.table == s.table && z.cluster == s.cluster && z.effects == s.effects && z.claims == s.claims
            && t in z.threads && (z.threads[t].pc == Done(Unavailable) || z.threads[t].pc == Done(Invalid))
  {
    FirstTwoCalls(s, t, id, true, user);
  }
}
