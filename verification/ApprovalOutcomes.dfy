/** Where approvals of scale operations end: on the recorded version, on a superseded one, and after the deadline. */
module ApprovalOutcomes {
  import opened Wrappers
  import opened AgentOperationTable
  import opened ApprovalProtocol
  import opened ApprovalSafety
  import opened ApprovalTheorems
  import opened ApprovalRecords
  import opened ApprovalHandler

  /** A pending scale operation that nothing but the state of its Deployment can still stop. */
  predicate Approvable(s: State, id: string) {
    && id in s.table.rows
    && s.table.rows[id].status == Pending
    && s.facts.kubernetes
    && s.table.rows[id].request.capability == Some(DeploymentScale)
    && s.table.rows[id].request.parameters.Scale?
    && s.table.rows[id].request.expiresAt.Some?
    && s.table.rows[id].request.parameters.target in s.cluster.current
    && s.table.rows[id].request.resourceVersion < |s.cluster.history|
  }

  predicate OnTime(s: State, id: string)
    requires Approvable(s, id)
  {
    s.clock <= s.table.rows[id].request.expiresAt.value
  }

  predicate Fresh(s: State, id: string)
    requires Approvable(s, id)
  {
    s.cluster.current[s.table.rows[id].request.parameters.target] == s.table.rows[id].request.resourceVersion
  }

  /** Load the row and check its deadline. */
  function Check(t: nat, id: string, user: nat): seq<Action> {
    [Open(t, id, true, user), Advance(t, true), Advance(t, true)]
  }

  /** Read the Deployment, claim, update, record; the last two do nothing once the thread has replied. */
  function Finish(t: nat): seq<Action> {
    [Advance(t, true), Advance(t, true), Advance(t, true), Advance(t, true)]
  }

  lemma ExecOne(s: State, a: Action)
    ensures Exec(s, [a]) == Step(s, a)
  {
    assert [a][..0] == [];
  }

  lemma CheckRuns(s: State, t: nat, id: string, user: nat)
    requires Approvable(s, id) && OnTime(s, id) && t !in s.threads
    ensures Exec(s, Check(t, id, user)) ==
            s.(threads := s.threads[t := Thread(id, true, user, Reading(s.table.rows[id].request, s.clock))])
  {
    var r := s.table.rows[id].request;
    var s1 := s.(threads := s.threads[t := Thread(id, true, user, Loading)]);
    var s2 := s.(threads := s.threads[t := Thread(id, true, user, Loaded(r))]);
    var s3 := s.(threads := s.threads[t := Thread(id, true, user, Reading(r, s.clock))]);
    assert Step(s, Open(t, id, true, user)) == s1;
    assert Step(s1, Advance(t, true)) == s2;
    assert Step(s2, Advance(t, true)) == s3;
    ExecThree(s, Open(t, id, true, user), Advance(t, true), Advance(t, true));
  }

  lemma ExecThree(s: State, a: Action, b: Action, c: Action)
    ensures Exec(s, [a, b, c]) == Step(Step(Step(s, a), b), c)
  {
    assert [a, b, c][..2] == [a, b] && [a, b][..1] == [a];
    ExecOne(s, a);
  }

  lemma FinishIsFourSteps(s: State, t: nat)
    ensures Exec(s, Finish(t)) == Advanced(Advanced(Advanced(Advanced(s, t, true), t, true), t, true), t, true)
  {
    var a := Advance(t, true);
    assert Finish(t) == [a, a, a] + [a];
    ExecSplits(s, [a, a, a], [a]);
    ExecThree(s, a, a, a);
    ExecOne(Step(Step(Step(s, a), a), a), a);
  }

  /** An approver that holds its request and has passed its deadline check. */
  predicate Poised(s: State, t: nat, id: string) {
    && Approvable(s, id)
    && t in s.threads
    && s.threads[t].operationId == id
    && s.threads[t].pc.Reading?
    && s.threads[t].pc.request == s.table.rows[id].request
  }

  /** What a finished approval leaves of everything that is not its own. */
  predicate Elsewhere(s: State, z: State, id: string) {
    && z.clock == s.clock && z.facts == s.facts
    && z.threads.Keys == s.threads.Keys
    && id in s.table.rows && id in z.table.rows
    && z.table.rows == s.table.rows[id := z.table.rows[id]]
    && z.table.rows[id].request == s.table.rows[id].request
  }

  lemma FreshApprovalClaims(s: State, t: nat, id: string, s1: State, s2: State)
    requires Poised(s, t, id) && Fresh(s, id)
    requires var pc := s.threads[t].pc; s1 == At(s, t, Claiming(pc.request, pc.checkedAt, pc.request.resourceVersion))
    requires s2 == Claimed(s1, t, true)
    ensures Advanced(s, t, true) == s1 && Advanced(s1, t, true) == s2
    ensures s2.threads[t].pc.Executing? && Elsewhere(s, s2, id) && s2.table.rows[id].status == Approved
    ensures s2.cluster == s.cluster && s2.effects == s.effects
  {
  }

  lemma FreshApprovalSucceeds(s: State, t: nat, id: string, z: State)
    requires Poised(s, t, id) && Fresh(s, id) && z == Exec(s, Finish(t))
    ensures Elsewhere(s, z, id)
    ensures z.table.rows[id].status == Succeeded
    ensures var r := s.table.rows[id].request;
            z.cluster == Updated(s.cluster, r.parameters.target, r.resourceVersion, r.parameters.replicas, Some(id)).0
    ensures |z.effects| == |s.effects| + 1 && z.effects[|s.effects|].operationId == id
    ensures z.effects[|s.effects|].startedAt == s.clock && z.effects[|s.effects|].success
  {
    var pc := s.threads[t].pc;
    var s1 := At(s, t, Claiming(pc.request, pc.checkedAt, pc.request.resourceVersion));
    var s2 := Claimed(s1, t, true);
    FreshApprovalClaims(s, t, id, s1, s2);
    var s3 := Ran(s2, t, true);
    assert Advanced(s2, t, true) == s3;
    assert s3.threads[t].pc == Recording(pc.request, true);
    assert Advanced(s3, t, true) == Closed(s3, t, true);
    FinishIsFourSteps(s, t);
  }

  lemma OutdatedApprovalGoesStale(s: State, t: nat, id: string, z: State)
    requires Poised(s, t, id) && !Fresh(s, id) && z == Exec(s, Finish(t))
    ensures Elsewhere(s, z, id)
    ensures z.table.rows[id].status == Stale
    ensures z.cluster == s.cluster && z.effects == s.effects
  {
    var s1 := At(s, t, MarkingStale(s.threads[t].pc.request));
    assert Advanced(s, t, true) == s1;
    var s2 := Closed(s1, t, true);
    assert Advanced(s1, t, true) == s2;
    assert Advanced(s2, t, true) == s2;
    FinishIsFourSteps(s, t);
  }

  /** Two operations requested against one version and approved one after the other. The second succeeds as well
      exactly when the first asked for the replicas that version already had; otherwise it goes stale. */
  lemma SecondApprovalOfOneVersion(s: State, a: string, b: string, t: nat, u: nat, admin: nat)
    requires a != b && Approvable(s, a) && Approvable(s, b) && OnTime(s, a) && OnTime(s, b) && Fresh(s, a)
    requires s.table.rows[a].request.resourceVersion == s.table.rows[b].request.resourceVersion
    requires s.table.rows[a].request.parameters.target == s.table.rows[b].request.parameters.target
    requires t != u && t !in s.threads && u !in s.threads
    ensures var z := Exec(s, (Check(t, a, admin) + Finish(t)) + (Check(u, b, admin) + Finish(u)));
            var r := s.table.rows[a].request;
            && a in z.table.rows && b in z.table.rows
            && z.table.rows[a].status == Succeeded
            && z.table.rows[b].status ==
                 (if s.cluster.history[r.resourceVersion].replicas == r.parameters.replicas then Succeeded else Stale)
  {
    var first, second := Check(t, a, admin) + Finish(t), Check(u, b, admin) + Finish(u);
    CheckRuns(s, t, a, admin);
    ExecSplits(s, Check(t, a, admin), Finish(t));
    var m := Exec(s, first);
    FreshApprovalSucceeds(Exec(s, Check(t, a, admin)), t, a, m);
    ExecSplits(s, first, second);
    ExecSplits(m, Check(u, b, admin), Finish(u));
    CheckRuns(m, u, b, admin);
    var n := Exec(m, Check(u, b, admin));
    if Fresh(n, b) {
      FreshApprovalSucceeds(n, u, b, Exec(n, Finish(u)));
    } else {
      OutdatedApprovalGoesStale(n, u, b, Exec(n, Finish(u)));
    }
  }

  /** The deadline is compared with the clock once, before the target is read: an approver that stalls after its
      check still executes, however long after the deadline. */
  lemma DeadlineBoundsTheCheckOnly(s: State, id: string, t: nat, admin: nat, stall: nat)
    requires Approvable(s, id) && OnTime(s, id) && Fresh(s, id) && t !in s.threads
    ensures var z := Exec(s, Check(t, id, admin) + ([Tick(stall)] + Finish(t)));
            && id in z.table.rows && z.table.rows[id].status == Succeeded
            && |z.effects| == |s.effects| + 1
            && z.effects[|s.effects|].operationId == id
            && z.effects[|s.effects|].startedAt == s.clock + stall
            && (z.effects[|s.effects|].startedAt <= s.table.rows[id].request.expiresAt.value
                <==> stall <= s.table.rows[id].request.expiresAt.value - s.clock)
  {
    CheckRuns(s, t, id, admin);
    var m := Exec(s, Check(t, id, admin));
    ExecSplits(s, Check(t, id, admin), [Tick(stall)] + Finish(t));
    ExecSplits(m, [Tick(stall)], Finish(t));
    ExecOne(m, Tick(stall));
    FreshApprovalSucceeds(Step(m, Tick(stall)), t, id, Exec(Step(m, Tick(stall)), Finish(t)));
  }

  // ---------- two approvals of one version, interleaved ----------

  /** Read and claim. */
  function Claim(t: nat): seq<Action> {
    [Advance(t, true), Advance(t, true)]
  }

  lemma ClaimRuns(s: State, t: nat, id: string, z: State)
    requires Poised(s, t, id) && Fresh(s, id) && z == Exec(s, Claim(t))
    ensures Elsewhere(s, z, id) && z.table.rows[id].status == Approved
    ensures z.cluster == s.cluster && z.threads[t].operationId == id
    ensures z.threads[t].pc.Executing? && z.threads[t].pc.request == s.table.rows[id].request
    ensures z.threads[t].pc.seen == s.table.rows[id].request.resourceVersion
    ensures forall u <- s.threads :: u != t ==> z.threads[u] == s.threads[u]
  {
    var pc := s.threads[t].pc;
    var s1 := At(s, t, Claiming(pc.request, pc.checkedAt, pc.request.resourceVersion));
    FreshApprovalClaims(s, t, id, s1, Claimed(s1, t, true));
    assert Claim(t)[..1] == [Advance(t, true)];
    ExecOne(s, Advance(t, true));
  }

  /** Update and record, for a claimer whose version is still the current one. */
  lemma ClaimerFinishes(s: State, t: nat, id: string, z: State)
    requires t in s.threads && s.threads[t].operationId == id && s.threads[t].pc.Executing?
    requires id in s.table.rows && s.table.rows[id].status == Approved && s.threads[t].pc.request.parameters.Scale?
    requires var pc := s.threads[t].pc; var target := pc.request.parameters.target;
             target in s.cluster.current && s.cluster.current[target] == pc.seen < |s.cluster.history|
    requires z == Exec(s, Claim(t))
    ensures id in z.table.rows && z.table.rows == s.table.rows[id := z.table.rows[id]]
    ensures z.table.rows[id].status == Succeeded
  {
    var m := Ran(s, t, true);
    assert Claim(t)[..1] == [Advance(t, true)];
    ExecOne(s, Advance(t, true));
    assert m.threads[t].pc == Recording(s.threads[t].pc.request, true);
    assert z == Closed(m, t, true);
  }

  /** The order of the claims decides nothing: while the first approver stalls between its claim and its update,
      a second one that asks for the replicas already there succeeds, and then so does the first, whatever it asks
      for. */
  lemma InterleavedApprovalsBothSucceed(s: State, a: string, b: string, t: nat, u: nat, admin: nat)
    requires a != b && Approvable(s, a) && Approvable(s, b) && OnTime(s, a) && OnTime(s, b) && Fresh(s, a)
    requires s.table.rows[a].request.resourceVersion == s.table.rows[b].request.resourceVersion
    requires s.table.rows[a].request.parameters.target == s.table.rows[b].request.parameters.target
    requires var r := s.table.rows[b].request; s.cluster.history[r.resourceVersion].replicas == r.parameters.replicas
    requires t != u && t !in s.threads && u !in s.threads
    ensures var z := Exec(s, ((Check(t, a, admin) + Claim(t)) + (Check(u, b, admin) + Finish(u))) + Claim(t));
            && a in z.table.rows && z.table.rows[a].status == Succeeded
            && b in z.table.rows && z.table.rows[b].status == Succeeded
  {
    var first, second := Check(t, a, admin) + Claim(t), Check(u, b, admin) + Finish(u);
    CheckRuns(s, t, a, admin);
    ExecSplits(s, Check(t, a, admin), Claim(t));
    var m := Exec(s, first);
    ClaimRuns(Exec(s, Check(t, a, admin)), t, a, m);
    var n := Exec(m, second);
    SecondSucceedsMeanwhile(m, b, u, admin, n);
    OthersLeaveThread(m, second, t);
    ExecSplits(s, first, second);
    ExecSplits(s, first + second, Claim(t));
    ClaimerFinishes(n, t, a, Exec(n, Claim(t)));
  }

  lemma SecondSucceedsMeanwhile(m: State, b: string, u: nat, admin: nat, n: State)
    requires Approvable(m, b) && OnTime(m, b) && Fresh(m, b) && u !in m.threads
    requires var r := m.table.rows[b].request; m.cluster.history[r.resourceVersion].replicas == r.parameters.replicas
    requires n == Exec(m, Check(u, b, admin) + Finish(u))
    ensures n.cluster == m.cluster
    ensures b in n.table.rows && n.table.rows == m.table.rows[b := n.table.rows[b]]
            && n.table.rows[b].status == Succeeded
  {
    CheckRuns(m, u, b, admin);
    ExecSplits(m, Check(u, b, admin), Finish(u));
    FreshApprovalSucceeds(Exec(m, Check(u, b, admin)), u, b, n);
  }

  predicate BothSucceeded(s: State, a: string, b: string) {
    && a in s.table.rows && s.table.rows[a].status == Succeeded
    && b in s.table.rows && s.table.rows[b].status == Succeeded
  }

  ghost predicate CanBothSucceed(s: State, a: string, b: string) {
    exists more: seq<Action> :: BothSucceeded(Exec(s, more), a, b)
  }

  /** Two pending, fresh operations of one version and one Deployment. */
  predicate Rivals(s: State, a: string, b: string) {
    && a != b && Approvable(s, a) && Approvable(s, b) && OnTime(s, a) && OnTime(s, b) && Fresh(s, a)
    && s.table.rows[a].request.resourceVersion == s.table.rows[b].request.resourceVersion
    && s.table.rows[a].request.parameters.target == s.table.rows[b].request.parameters.target
  }

  /** The version they were requested against already has the replicas that `id` asks for. */
  predicate AsksForNothingNew(s: State, id: string)
    requires Approvable(s, id)
  {
    var r := s.table.rows[id].request;
    s.cluster.history[r.resourceVersion].replicas == r.parameters.replicas
  }

  lemma FirstFindsItsReplicas(s: State, a: string, b: string, t: nat, u: nat, admin: nat)
    requires Rivals(s, a, b) && AsksForNothingNew(s, a) && t != u && t !in s.threads && u !in s.threads
    ensures CanBothSucceed(s, a, b) && CanBothSucceed(s, b, a)
  {
    SecondApprovalOfOneVersion(s, a, b, t, u, admin);
    var z := Exec(s, (Check(t, a, admin) + Finish(t)) + (Check(u, b, admin) + Finish(u)));
    assert BothSucceeded(z, a, b) && BothSucceeded(z, b, a);
  }

  lemma BothSucceededLater(s: State, run: seq<Action>, a: string, b: string, more: seq<Action>)
    requires Initial(s) && Rivals(Exec(s, run), a, b) && BothSucceeded(Exec(Exec(s, run), more), a, b)
    ensures AsksForNothingNew(Exec(s, run), a) || AsksForNothingNew(Exec(s, run), b)
  {
    var z, y := Exec(s, run), Exec(s, run + more);
    ExecSplits(s, run, more);
    HistoryOnlyGrows(s, run, more);
    assert RowEvolves(z.table.rows[a], y.table.rows[a]) && RowEvolves(z.table.rows[b], y.table.rows[b]);
    BothSucceededMeansOneWasThere(s, run + more, a, b);
    var v := z.table.rows[a].request.resourceVersion;
    assert y.cluster.history[v] == z.cluster.history[v];
  }

  /** At every point of every run: two rivals can both end succeeded exactly when the version they name already has the
      replicas that one of them asks for. */
  lemma BothCanSucceedIff(s: State, run: seq<Action>, a: string, b: string, t: nat, u: nat)
    requires Initial(s) && Rivals(Exec(s, run), a, b)
    requires t != u && t !in Exec(s, run).threads && u !in Exec(s, run).threads
    ensures CanBothSucceed(Exec(s, run), a, b) <==>
              AsksForNothingNew(Exec(s, run), a) || AsksForNothingNew(Exec(s, run), b)
  {
    var z := Exec(s, run);
    if CanBothSucceed(z, a, b) {
      var more: seq<Action> :| BothSucceeded(Exec(z, more), a, b);
      BothSucceededLater(s, run, a, b, more);
    }
    if AsksForNothingNew(z, a) {
      FirstFindsItsReplicas(z, a, b, t, u, 0);
    } else if AsksForNothingNew(z, b) {
      FirstFindsItsReplicas(z, b, a, t, u, 0);
    }
  }

  // ---------- an execution that is not recorded ----------

  /** The state of a platform with one scale request on file, for a Deployment that is as it was. */
  lemma FirstRequest(s: State, request: Request, replicas: int) returns (run: seq<Action>)
    requires Initial(s) && request.parameters.Scale? && Complete(request)
    ensures var z, id := Exec(s, run), request.operationId;
            && id in z.table.rows && z.table.rows[id].status == Pending
            && z.table.rows[id].request == request.(
                 resourceVersion := 0, capability := Some(DeploymentScale),
                     expiresAt := Some(s.clock + APPROVAL_WINDOW))
            && z.cluster == Cluster([Version(request.parameters.target, replicas, None, None)],
                map[request.parameters.target := 0])
            && z.facts == s.facts && z.clock == s.clock && z.threads == map[] && z.claims == map[] && z.effects == []
  {
    var target := request.parameters.target;
    var write, draft, submit := OutsideWrite(target, replicas), Draft(0, request), Submit(0, true);
    run := [write, draft, submit];
    var s1 := s.(cluster := Cluster([Version(target, replicas, None, None)], map[target := 0]));
    assert s.cluster.current[target := 0] == map[target := 0];
    assert Step(s, write) == s1;
    assert Exec(s, run[..1]) == s1 by {
      assert run[..1][..0] == [];
    }
    var s2 := Step(s1, draft);
    assert Exec(s, run[..2]) == s2 by {
      assert run[..2][..1] == run[..1];
    }
    assert Exec(s, run) == Step(s2, submit);
  }

  /** The last write fails: the reply says executed, the side effect has happened, and the row stays approved. */
  lemma UnrecordedExecution(s: State, t: nat, id: string, z: State)
    requires Poised(s, t, id) && Fresh(s, id) && z == Exec(Exec(s, Claim(t)), [Advance(t, true), Advance(t, false)])
    ensures t in z.threads && z.threads[t].pc == Done(Executed) && z.threads[t].operationId == id
    ensures Orphaned(z, id)
  {
    var m := Exec(s, Claim(t));
    ClaimRuns(s, t, id, m);
    ClaimRecordsClaim(s, t, id);
    var n := Ran(m, t, true);
    assert [Advance(t, true), Advance(t, false)][..1] == [Advance(t, true)];
    ExecOne(m, Advance(t, true));
    assert n.threads[t].pc == Recording(m.threads[t].pc.request, true);
    assert z == Closed(n, t, false);
  }

  lemma ClaimRecordsClaim(s: State, t: nat, id: string)
    requires Poised(s, t, id) && Fresh(s, id)
    ensures id in Exec(s, Claim(t)).claims && Exec(s, Claim(t)).claims[id] == t
  {
    var pc := s.threads[t].pc;
    var s1 := At(s, t, Claiming(pc.request, pc.checkedAt, pc.request.resourceVersion));
    FreshApprovalClaims(s, t, id, s1, Claimed(s1, t, true));
    assert Claim(t)[..1] == [Advance(t, true)];
    ExecOne(s, Advance(t, true));
  }

  /** Every scale request on an empty platform can end so, and then nothing ever ends it. */
  lemma UnrecordedExecutionHappens(s: State, request: Request, replicas: int, t: nat, admin: nat)
      returns (run: seq<Action>)
    requires Initial(s) && s.facts.kubernetes && request.parameters.Scale? && Complete(request)
    ensures var z := Exec(s, run);
            t in z.threads && z.threads[t].pc == Done(Executed) && Orphaned(z, request.operationId)
    ensures !CanEnd(Exec(s, run), request.operationId)
  {
    var id := request.operationId;
    var filed := FirstRequest(s, request, replicas);
    var m := Exec(s, filed);
    CheckRuns(m, t, id, admin);
    var n := Exec(m, Check(t, id, admin));
    var last := [Advance(t, true), Advance(t, false)];
    UnrecordedExecution(n, t, id, Exec(Exec(n, Claim(t)), last));
    run := filed + (Check(t, id, admin) + (Claim(t) + last));
    ExecSplits(n, Claim(t), last);
    ExecSplits(m, Check(t, id, admin), Claim(t) + last);
    ExecSplits(s, filed, Check(t, id, admin) + (Claim(t) + last));
    EveryRunIsSafe(s, run);
    OrphanCannotEnd(Exec(s, run), id);
  }
}
