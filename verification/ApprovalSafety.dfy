/** What every interleaving of requests, approvers, outside writers and crashes keeps. */
module ApprovalSafety {
  import opened Wrappers
  import opened AgentOperationTable
  import opened ApprovalProtocol

  // ---------- the invariant ----------

  /** The statuses behind the pending-to-approved compare-and-swap. */
  predicate Claimable(status: Status) {
    status == Approved || status == Succeeded || status == Failed
  }

  predicate RowColumns(row: Operation) {
    && (row.approval.Some? <==> Claimable(row.status) || row.status == Rejected)
    && (row.completedAt.Some? <==> row.status == Succeeded || row.status == Failed)
  }

  /** A scale request names a version that its own Deployment had. */
  predicate RequestGrounded(c: Cluster, r: Request) {
    && r.capability == CapabilityOf(r.parameters)
    && (r.parameters.Scale? ==>
        r.resourceVersion < |c.history|
        && c.history[r.resourceVersion].target == r.parameters.target)
  }

  ghost predicate ClusterInv(c: Cluster) {
    && (forall t <- c.current :: c.current[t] < |c.history| && c.history[c.current[t]].target == t)
    && (forall v | 0 <= v < |c.history| ::
          c.history[v].target in c.current ==> v <= c.current[c.history[v].target])
    && (forall v | 0 <= v < |c.history| && c.history[v].base.Some? ::
          c.history[v].base.value < v && c.history[c.history[v].base.value].target == c.history[v].target)
    && (forall v, w | 0 <= v < w < |c.history| && c.history[v].base.Some? :: c.history[v].base != c.history[w].base)
  }

  ghost predicate RequestsInv(table: Table, drafts: map<nat, Request>, c: Cluster) {
    && Indexed(table)
    && (forall id <- table.rows :: RowColumns(table.rows[id]) && RequestGrounded(c, table.rows[id].request))
    && (forall d <- drafts :: RequestGrounded(c, drafts[d]))
  }

  predicate HoldsRequest(pc: Pc) {
    !pc.Loading? && !pc.Done? && !pc.Crashed?
  }

  predicate PastExpiryCheck(pc: Pc) {
    pc.Rejecting? || pc.Reading? || pc.ReadingNode? || pc.Claiming? || pc.Executing?
  }

  ghost predicate Started(effects: seq<Effect>, id: string) {
    exists i :: 0 <= i < |effects| && effects[i].operationId == id
  }

  ghost predicate Ended(effects: seq<Effect>, id: string, success: bool) {
    exists i :: 0 <= i < |effects| && effects[i].operationId == id && effects[i].success == success
  }

  ghost predicate ThreadInv(
    table: Table, claims: map<string, nat>, effects: seq<Effect>, clock: int, t: nat, thread: Thread)
  {
    var id, pc := thread.operationId, thread.pc;
    && (HoldsRequest(pc) ==> id in table.rows && table.rows[id].request == pc.request)
    && (PastExpiryCheck(pc) ==>
        pc.checkedAt <= clock && pc.request.expiresAt.Some?
        && pc.checkedAt <= pc.request.expiresAt.value)
    && (pc.Claiming? || pc.Executing? ==> pc.request.parameters.Scale? ==> pc.seen == pc.request.resourceVersion)
    && (pc.Executing? || pc.Recording? ==> table.rows[id].status == Approved && id in claims && claims[id] == t)
    && (pc.Executing? ==> !Started(effects, id))
    && (pc.Recording? ==> Ended(effects, id, pc.success))
    && (id in claims && claims[id] == t ==> pc.Executing? || Acted(pc))
    && (pc.Done? ==> Truthful(table, claims, effects, t, thread, pc.reply))
  }

  /** The program counters a thread can have once it has started a side effect. */
  predicate Acted(pc: Pc) {
    pc.Recording? || pc.Crashed? || (pc.Done? && (pc.reply == Executed || pc.reply == ExecutionFailed))
  }

  /** What a reply lets its reader conclude. */
  ghost predicate Truthful(table: Table, claims: map<string, nat>, effects: seq<Effect>, t: nat, thread: Thread,
      reply: Reply) {
    var id := thread.operationId;
    && (reply == Executed || reply == ExecutionFailed ==>
          id in claims && claims[id] == t && Ended(effects, id, reply == Executed))
    && (reply == RejectedByUser ==>
          && id in table.rows
          && table.rows[id].status == Rejected
          && table.rows[id].approval.Some?
          && table.rows[id].approval.value.user == thread.user)
  }

  ghost predicate ThreadsInv(
    table: Table, claims: map<string, nat>, effects: seq<Effect>, clock: int, threads: map<nat, Thread>)
  {
    forall t <- threads :: ThreadInv(table, claims, effects, clock, t, threads[t])
  }

  predicate ClaimInv(row: Operation, threads: map<nat, Thread>, id: string, t: nat) {
    && Claimable(row.status)
    && row.approval.Some?
    && t in threads
    && threads[t].operationId == id
    && threads[t].user == row.approval.value.user
  }

  ghost predicate ClaimsInv(table: Table, claims: map<string, nat>, effects: seq<Effect>, threads: map<nat, Thread>) {
    && (forall id <- claims :: id in table.rows && ClaimInv(table.rows[id], threads, id, claims[id]))
    && (forall id <- table.rows :: Claimable(table.rows[id].status) ==> id in claims)
    && (forall id <- table.rows ::
          && (table.rows[id].status == Succeeded ==> Ended(effects, id, true))
          && (table.rows[id].status == Failed ==> Ended(effects, id, false)))
  }

  /** A scale that succeeded stored the requested replicas on top of the requested version: either as the one
      version written over it, or by finding that version to hold them already. */
  predicate Landed(c: Cluster, r: Request, version: nat) {
    && r.parameters.Scale?
    && version < |c.history|
    && c.history[version].target == r.parameters.target
    && c.history[version].replicas == r.parameters.replicas
    && (version == r.resourceVersion
        || (c.history[version].base == Some(r.resourceVersion) && c.history[version].writer == Some(r.operationId)))
  }

  predicate EffectInv(r: Request, c: Cluster, e: Effect) {
    && e.checkedAt <= e.startedAt
    && r.expiresAt.Some?
    && e.checkedAt <= r.expiresAt.value
    && (r.parameters.Scale? && e.success ==> Landed(c, r, e.version))
  }

  predicate WriterInv(table: Table, c: Cluster, v: nat)
    requires v < |c.history| && c.history[v].writer.Some?
  {
    var id := c.history[v].writer.value;
    && id in table.rows
    && table.rows[id].request.parameters.Scale?
    && c.history[v].base == Some(table.rows[id].request.resourceVersion)
  }

  ghost predicate EffectsInv(table: Table, claims: map<string, nat>, effects: seq<Effect>, c: Cluster) {
    && (forall i | 0 <= i < |effects| ::
          && effects[i].operationId in claims
          && claims[effects[i].operationId] == effects[i].thread
          && effects[i].operationId in table.rows
          && EffectInv(table.rows[effects[i].operationId].request, c, effects[i]))
    && (forall i, j | 0 <= i < j < |effects| :: effects[i].operationId != effects[j].operationId)
  }

  ghost predicate WritersInv(table: Table, c: Cluster) {
    forall v | 0 <= v < |c.history| && c.history[v].writer.Some? :: WriterInv(table, c, v)
  }

  ghost predicate Inv(s: State) {
    && ClusterInv(s.cluster)
    && RequestsInv(s.table, s.drafts, s.cluster)
    && ThreadsInv(s.table, s.claims, s.effects, s.clock, s.threads)
    && ClaimsInv(s.table, s.claims, s.effects, s.threads)
    && EffectsInv(s.table, s.claims, s.effects, s.cluster)
    && WritersInv(s.table, s.cluster)
  }

  // ---------- steps outside the approvers ----------

  lemma WrittenKeepsCluster(c: Cluster, target: Target, replicas: int, writer: Option<string>)
    requires ClusterInv(c)
    ensures ClusterInv(Written(c, target, if target in c.current then Some(c.current[target]) else None, replicas,
            writer))
  {
    var d := Written(c, target, if target in c.current then Some(c.current[target]) else None, replicas, writer);
    forall v, w | 0 <= v < w < |d.history| && d.history[v].base.Some?
      ensures d.history[v].base != d.history[w].base
    {
      if w == |c.history| && d.history[w].base.Some? {
        assert c.history[v] == d.history[v];
      }
    }
  }

  /** New versions that no operation wrote. */
  lemma OutsideVersionsKeepInv(s: State, c: Cluster)
    requires Inv(s) && ClusterInv(c)
    requires s.cluster.history <= c.history
    requires forall v | |s.cluster.history| <= v < |c.history| :: c.history[v].writer.None?
    ensures Inv(s.(cluster := c))
  {
    forall r, v: nat | Landed(s.cluster, r, v) ensures Landed(c, r, v) {}
  }

  lemma TickKeepsInv(s: State, seconds: nat)
    requires Inv(s)
    ensures Inv(s.(clock := s.clock + seconds))
  {
  }

  lemma DraftKeepsInv(s: State, draft: nat, request: Request)
    requires Inv(s)
    ensures Inv(Drafted(s, draft, request))
  {
    var z := Drafted(s, draft, request);
    assert RequestsInv(z.table, z.drafts, z.cluster);
  }

  lemma NewRowKeepsThreads(s: State, table: Table)
    requires ThreadsInv(s.table, s.claims, s.effects, s.clock, s.threads)
    requires forall id <- s.table.rows :: id in table.rows && table.rows[id] == s.table.rows[id]
    ensures ThreadsInv(table, s.claims, s.effects, s.clock, s.threads)
  {
  }

  lemma NewRowKeepsRequests(s: State, draft: nat)
    requires RequestsInv(s.table, s.drafts, s.cluster)
    requires draft in s.drafts
    ensures RequestsInv(Created(s.table, Filed(s.drafts[draft])), s.drafts, s.cluster)
  {
    CreatedKeepsIndexed(s.table, Filed(s.drafts[draft]));
  }

  lemma SubmitKeepsInv(s: State, draft: nat, ok: bool)
    requires Inv(s)
    ensures Inv(Submitted(s, draft, ok))
  {
    if ok && draft in s.drafts {
      var table := Created(s.table, Filed(s.drafts[draft]));
      NewRowKeepsRequests(s, draft);
      NewRowKeepsThreads(s, table);
      assert ClaimsInv(table, s.claims, s.effects, s.threads);
      assert EffectsInv(table, s.claims, s.effects, s.cluster);
    }
  }

  /** A thread that starts, or moves without touching anything but its own program counter. */
  lemma ThreadMoveKeepsInv(s: State, t: nat, thread: Thread, z: State)
    requires Inv(s)
    requires t in s.threads ==> s.threads[t].operationId == thread.operationId && s.threads[t].user == thread.user
    requires ThreadInv(s.table, s.claims, s.effects, s.clock, t, thread)
    requires z == s.(threads := s.threads[t := thread])
    ensures Inv(z)
  {
  }

  // ---------- status changes ----------

  function Put(table: Table, id: string, row: Operation): Table {
    table.(rows := table.rows[id := row])
  }

  predicate Replaces(table: Table, id: string, row: Operation) {
    id in table.rows && row.request == table.rows[id].request && RowColumns(row)
  }

  lemma PutKeepsRequests(table: Table, drafts: map<nat, Request>, c: Cluster, id: string, row: Operation)
    requires RequestsInv(table, drafts, c) && Replaces(table, id, row)
    ensures RequestsInv(Put(table, id, row), drafts, c)
  {
  }

  lemma PutKeepsEffects(table: Table, claims: map<string, nat>, effects: seq<Effect>, c: Cluster, id: string,
      row: Operation)
    requires EffectsInv(table, claims, effects, c) && WritersInv(table, c) && Replaces(table, id, row)
    ensures EffectsInv(Put(table, id, row), claims, effects, c) && WritersInv(Put(table, id, row), c)
  {
  }

  /** A status change bothers no thread but the ones that rely on the row being approved. */
  lemma PutKeepsThread(s: State, t: nat, id: string, row: Operation)
    requires t in s.threads && ThreadInv(s.table, s.claims, s.effects, s.clock, t, s.threads[t])
    requires Replaces(s.table, id, row)
    requires s.threads[t].operationId == id && (s.threads[t].pc.Executing? || s.threads[t].pc.Recording?)
             ==> row.status == Approved
    requires s.table.rows[id].status != Rejected
    ensures ThreadInv(Put(s.table, id, row), s.claims, s.effects, s.clock, t, s.threads[t])
  {
  }

  lemma PutKeepsClaims(
    table: Table, claims: map<string, nat>, effects: seq<Effect>, threads: map<nat, Thread>, id: string, row: Operation)
    requires ClaimsInv(table, claims, effects, threads) && Replaces(table, id, row)
    requires Claimable(row.status) <==> Claimable(table.rows[id].status)
    requires Claimable(row.status) ==> row.approval == table.rows[id].approval
    requires row.status == Succeeded ==> Ended(effects, id, true)
    requires row.status == Failed ==> Ended(effects, id, false)
    ensures ClaimsInv(Put(table, id, row), claims, effects, threads)
  {
  }

  lemma MoveKeepsClaims(
    table: Table, claims: map<string, nat>, effects: seq<Effect>, threads: map<nat, Thread>, t: nat, thread: Thread)
    requires ClaimsInv(table, claims, effects, threads)
    requires t in threads && threads[t].operationId == thread.operationId && threads[t].user == thread.user
    ensures ClaimsInv(table, claims, effects, threads[t := thread])
  {
  }

  /** The state after the row of a thread's operation is replaced and the thread ends. */
  lemma CloseKeepsThreads(s: State, t: nat, row: Operation, reply: Reply)
    requires ThreadsInv(s.table, s.claims, s.effects, s.clock, s.threads) && t in s.threads
    requires Replaces(s.table, s.threads[t].operationId, row)
    requires s.table.rows[s.threads[t].operationId].status == Pending || s.threads[t].pc.Recording?
    requires Truthful(Put(s.table, s.threads[t].operationId, row), s.claims, s.effects, t, s.threads[t], reply)
    requires Closing(s.threads[t].pc) && (s.threads[t].pc.Recording? ==> Acted(Done(reply)))
    ensures ThreadsInv(Put(s.table, s.threads[t].operationId, row), s.claims, s.effects, s.clock,
                       s.threads[t := s.threads[t].(pc := Done(reply))])
  {
    forall u <- s.threads
      ensures u != t ==> ThreadInv(Put(s.table, s.threads[t].operationId, row), s.claims, s.effects, s.clock, u,
              s.threads[u])
    {
      if u != t {
        PutKeepsThread(s, u, s.threads[t].operationId, row);
      }
    }
  }

  /** What makes `row` and `reply` a proper end of thread `t`. */
  ghost predicate Closes(s: State, t: nat, row: Operation, reply: Reply)
    requires t in s.threads
  {
    var id := s.threads[t].operationId;
    && Replaces(s.table, id, row)
    && (s.table.rows[id].status == Pending || s.threads[t].pc.Recording?)
    && (Claimable(row.status) <==> Claimable(s.table.rows[id].status))
    && (Claimable(row.status) ==> row.approval == s.table.rows[id].approval)
    && (row.status == Succeeded ==> Ended(s.effects, id, true))
    && (row.status == Failed ==> Ended(s.effects, id, false))
    && Truthful(Put(s.table, id, row), s.claims, s.effects, t, s.threads[t], reply)
    && Closing(s.threads[t].pc) && (s.threads[t].pc.Recording? ==> Acted(Done(reply)))
  }

  /** Pending to expired, rejected or stale; or approved to succeeded or failed by the thread that ran the effect. */
  lemma CloseKeepsInv(s: State, t: nat, row: Operation, reply: Reply, z: State)
    requires Inv(s) && t in s.threads && Closes(s, t, row, reply)
    requires z == At(s, t, Done(reply)).(table := Put(s.table, s.threads[t].operationId, row))
    ensures Inv(z)
  {
    var id := s.threads[t].operationId;
    assert RequestsInv(z.table, z.drafts, z.cluster) by { PutKeepsRequests(s.table, s.drafts, s.cluster, id, row); }
    assert EffectsInv(z.table, z.claims, z.effects, z.cluster) && WritersInv(z.table, z.cluster) by {
      PutKeepsEffects(s.table, s.claims, s.effects, s.cluster, id, row);
    }
    assert ThreadsInv(z.table, z.claims, z.effects, z.clock, z.threads) by { CloseKeepsThreads(s, t, row, reply); }
    assert ClaimsInv(z.table, z.claims, z.effects, z.threads) by {
      PutKeepsClaims(s.table, s.claims, s.effects, s.threads, id, row);
      MoveKeepsClaims(z.table, s.claims, s.effects, s.threads, t, z.threads[t]);
    }
  }

  // ---------- the claim and the side effect ----------

  lemma ClaimKeepsClaims(s: State, t: nat, row: Operation)
    requires ClaimsInv(s.table, s.claims, s.effects, s.threads)
    requires t in s.threads && s.threads[t].operationId in s.table.rows
    requires row.status == Approved && row.approval.Some? && row.approval.value.user == s.threads[t].user
    ensures ClaimsInv(Put(s.table, s.threads[t].operationId, row), s.claims[s.threads[t].operationId := t], s.effects,
            s.threads)
  {
  }

  lemma ClaimKeepsThreads(s: State, t: nat, row: Operation, pc: Pc)
    requires ThreadsInv(s.table, s.claims, s.effects, s.clock, s.threads)
    requires t in s.threads && s.threads[t].pc.Claiming?
    requires var id := s.threads[t].operationId;
             id !in s.claims && Replaces(s.table, id, row)
             && !Started(s.effects, id)
    requires row.status == Approved && Matches(s.table, s.threads[t].operationId, Pending)
    requires pc == Executing(s.threads[t].pc.request, s.threads[t].pc.checkedAt, s.threads[t].pc.seen)
    ensures ThreadsInv(Put(s.table, s.threads[t].operationId, row), s.claims[s.threads[t].operationId := t], s.effects,
            s.clock,
                       s.threads[t := s.threads[t].(pc := pc)])
  {
    var id := s.threads[t].operationId;
    forall u <- s.threads
      ensures u != t ==> ThreadInv(Put(s.table, id, row), s.claims[id := t], s.effects, s.clock, u, s.threads[u])
    {
      if u != t {
        PutKeepsThread(s, u, id, row);
      }
    }
  }

  lemma NewClaimKeepsEffects(table: Table, claims: map<string, nat>, effects: seq<Effect>, c: Cluster, id: string,
      t: nat)
    requires EffectsInv(table, claims, effects, c) && id !in claims
    ensures EffectsInv(table, claims[id := t], effects, c)
    ensures !Started(effects, id)
  {
  }

  /** Pending to approved: afterwards exactly this thread may run the side effect, and nothing has run yet. */
  lemma ClaimKeepsInv(s: State, t: nat, z: State)
    requires Inv(s) && t in s.threads && s.threads[t].pc.Claiming?
    requires Matches(s.table, s.threads[t].operationId, Pending) && z == Claimed(s, t, true)
    ensures Inv(z)
  {
    var id, pc := s.threads[t].operationId, s.threads[t].pc;
    var row := Moved(s.table.rows[id], Approved, "", Some(Approval(s.threads[t].user, s.clock)), None);
    assert id !in s.claims;
    NewClaimKeepsEffects(s.table, s.claims, s.effects, s.cluster, id, t);
    assert Replaces(s.table, id, row) by { assert RowColumns(s.table.rows[id]); }
    assert RequestsInv(z.table, z.drafts, z.cluster) by { PutKeepsRequests(s.table, s.drafts, s.cluster, id, row); }
    assert EffectsInv(z.table, z.claims, z.effects, z.cluster) && WritersInv(z.table, z.cluster) by {
      PutKeepsEffects(s.table, z.claims, s.effects, s.cluster, id, row);
    }
    assert ThreadsInv(z.table, z.claims, z.effects, z.clock, z.threads) by {
      ClaimKeepsThreads(s, t, row, Executing(pc.request, pc.checkedAt, pc.seen));
    }
    assert ClaimsInv(z.table, z.claims, z.effects, z.threads) by {
      ClaimKeepsClaims(s, t, row);
      MoveKeepsClaims(z.table, z.claims, s.effects, s.threads, t, z.threads[t]);
    }
  }

  lemma UpdatedKeepsCluster(c: Cluster, target: Target, version: nat, replicas: int, writer: Option<string>)
    requires ClusterInv(c)
    ensures var (d, landed) := Updated(c, target, version, replicas, writer);
            ClusterInv(d) && c.history <= d.history
  {
    WrittenKeepsCluster(c, target, replicas, writer);
  }

  lemma LongerHistoryKeepsRequests(table: Table, drafts: map<nat, Request>, c: Cluster, d: Cluster)
    requires RequestsInv(table, drafts, c) && c.history <= d.history
    ensures RequestsInv(table, drafts, d)
  {
  }

  lemma LongerHistoryKeepsEffects(table: Table, claims: map<string, nat>, effects: seq<Effect>, c: Cluster, d: Cluster)
    requires EffectsInv(table, claims, effects, c) && c.history <= d.history
    ensures EffectsInv(table, claims, effects, d)
  {
    forall r, v: nat | Landed(c, r, v) ensures Landed(d, r, v) {}
  }

  lemma NewEffectKeepsEffects(table: Table, claims: map<string, nat>, effects: seq<Effect>, c: Cluster, e: Effect)
    requires EffectsInv(table, claims, effects, c) && !Started(effects, e.operationId)
    requires e.operationId in claims && claims[e.operationId] == e.thread
    requires e.operationId in table.rows && EffectInv(table.rows[e.operationId].request, c, e)
    ensures EffectsInv(table, claims, effects + [e], c)
  {
  }

  lemma NewEffectKeepsEnded(effects: seq<Effect>, e: Effect, id: string, success: bool)
    ensures Ended(effects, id, success) || (e.operationId == id && e.success == success)
            ==> Ended(effects + [e], id, success)
    ensures Started(effects + [e], id) ==> Started(effects, id) || e.operationId == id
  {
    if Ended(effects, id, success) {
      var i :| 0 <= i < |effects| && effects[i].operationId == id && effects[i].success == success;
      assert (effects + [e])[i] == effects[i];
    } else if e.operationId == id && e.success == success {
      assert (effects + [e])[|effects|] == e;
    }
  }

  lemma NewEffectKeepsClaims(table: Table, claims: map<string, nat>, effects: seq<Effect>, threads: map<nat, Thread>,
      e: Effect)
    requires ClaimsInv(table, claims, effects, threads)
    ensures ClaimsInv(table, claims, effects + [e], threads)
  {
    forall id, success ensures Ended(effects, id, success) ==> Ended(effects + [e], id, success) {
      NewEffectKeepsEnded(effects, e, id, success);
    }
  }

  lemma NewEffectKeepsThreads(s: State, t: nat, e: Effect)
    requires ThreadsInv(s.table, s.claims, s.effects, s.clock, s.threads)
    requires t in s.threads && s.threads[t].pc.Executing?
    requires e.operationId == s.threads[t].operationId
    ensures ThreadsInv(s.table, s.claims, s.effects + [e], s.clock,
                       s.threads[t := s.threads[t].(pc := Recording(s.threads[t].pc.request, e.success))])
  {
    NewEffectKeepsEnded(s.effects, e, e.operationId, e.success);
    forall u <- s.threads
      ensures u != t ==> ThreadInv(s.table, s.claims, s.effects + [e], s.clock, u, s.threads[u])
    {
      var id := s.threads[u].operationId;
      NewEffectKeepsEnded(s.effects, e, id, true);
      NewEffectKeepsEnded(s.effects, e, id, false);
    }
  }

  lemma RunKeepsWriters(s: State, t: nat, ok: bool)
    requires WritersInv(s.table, s.cluster) && ThreadsInv(s.table, s.claims, s.effects, s.clock, s.threads)
    requires t in s.threads && s.threads[t].pc.Executing?
    ensures WritersInv(s.table, Ran(s, t, ok).cluster)
  {
    assert ThreadInv(s.table, s.claims, s.effects, s.clock, t, s.threads[t]);
  }

  /** What the side effect leaves behind on the version the request recorded. */
  lemma RunLands(s: State, t: nat, ok: bool, z: State, e: Effect)
    requires ClusterInv(s.cluster) && Indexed(s.table) && t in s.threads && s.threads[t].pc.Executing?
    requires ThreadInv(s.table, s.claims, s.effects, s.clock, t, s.threads[t])
    requires z == Ran(s, t, ok)
    requires e == z.effects[|s.effects|]
    ensures ClusterInv(z.cluster) && s.cluster.history <= z.cluster.history
    ensures EffectInv(s.table.rows[e.operationId].request, z.cluster, e)
    ensures z == s.(cluster := z.cluster, effects := s.effects + [e],
                    threads := s.threads[t := s.threads[t].(pc := Recording(s.threads[t].pc.request, e.success))])
  {
    var pc := s.threads[t].pc;
    if pc.request.parameters.Scale? {
      UpdatedKeepsCluster(s.cluster, pc.request.parameters.target, pc.seen, pc.request.parameters.replicas,
          Some(e.operationId));
    }
  }

  /** The side effect runs once, under the claim. */
  lemma RunKeepsInv(s: State, t: nat, ok: bool, z: State)
    requires Inv(s) && t in s.threads && s.threads[t].pc.Executing?
    requires z == Ran(s, t, ok)
    ensures Inv(z)
  {
    var e := z.effects[|s.effects|];
    assert ThreadInv(s.table, s.claims, s.effects, s.clock, t, s.threads[t]);
    RunLands(s, t, ok, z, e);
    assert WritersInv(z.table, z.cluster) by { RunKeepsWriters(s, t, ok); }
    assert RequestsInv(z.table, z.drafts, z.cluster) by {
      LongerHistoryKeepsRequests(s.table, s.drafts, s.cluster, z.cluster);
    }
    assert EffectsInv(z.table, z.claims, z.effects, z.cluster) by {
      LongerHistoryKeepsEffects(s.table, s.claims, s.effects, s.cluster, z.cluster);
      NewEffectKeepsEffects(s.table, s.claims, s.effects, z.cluster, e);
    }
    assert ThreadsInv(z.table, z.claims, z.effects, z.clock, z.threads) by { NewEffectKeepsThreads(s, t, e); }
    assert ClaimsInv(z.table, z.claims, z.effects, z.threads) by {
      NewEffectKeepsClaims(s.table, s.claims, s.effects, s.threads, e);
      MoveKeepsClaims(s.table, s.claims, z.effects, s.threads, t, z.threads[t]);
    }
  }

  // ---------- every step, every run ----------

  lemma ClosingRow(row: Operation, thread: Thread, now: int, moved: Operation)
    requires Closing(thread.pc) && RowColumns(row) && row.status == ChangeOf(thread, now).from
    requires var c := ChangeOf(thread, now); moved == Moved(row, c.to, c.error, c.approver, c.completedAt)
    ensures moved.request == row.request && RowColumns(moved)
    ensures thread.pc.Recording? ==>
              moved.approval == row.approval && Claimable(row.status)
              && moved.status == (if thread.pc.success then Succeeded else Failed)
    ensures !thread.pc.Recording? ==> row.status == Pending && !Claimable(moved.status)
  {
  }

  lemma ClosingIsTruthful(s: State, t: nat, row: Operation)
    requires t in s.threads && Closing(s.threads[t].pc) && s.threads[t].operationId in s.table.rows
    requires ThreadInv(s.table, s.claims, s.effects, s.clock, t, s.threads[t])
    requires var id, c := s.threads[t].operationId, ChangeOf(s.threads[t], s.clock);
             row == Moved(s.table.rows[id], c.to, c.error, c.approver, c.completedAt)
    ensures Truthful(Put(s.table, s.threads[t].operationId, row), s.claims, s.effects, t, s.threads[t],
            ReplyOf(s.threads[t].pc, true))
  {
  }

  /** The swap failed or found the row changed: only the thread ends. */
  lemma ClosingInVainKeepsInv(s: State, t: nat, z: State)
    requires Inv(s) && t in s.threads && Closing(s.threads[t].pc)
    requires z == At(s, t, Done(ReplyOf(s.threads[t].pc, false)))
    ensures Inv(z)
  {
    assert ThreadInv(s.table, s.claims, s.effects, s.clock, t, s.threads[t]);
    ThreadMoveKeepsInv(s, t, z.threads[t], z);
  }

  lemma ClosingForRealKeepsInv(s: State, t: nat, row: Operation, z: State)
    requires Inv(s) && t in s.threads && Closing(s.threads[t].pc)
    requires var id, c := s.threads[t].operationId, ChangeOf(s.threads[t], s.clock);
             Matches(s.table, id, c.from) && row == Moved(s.table.rows[id], c.to, c.error, c.approver, c.completedAt)
    requires z == At(s, t, Done(ReplyOf(s.threads[t].pc, true))).(table := Put(s.table, s.threads[t].operationId, row))
    ensures Inv(z)
  {
    assert ThreadInv(s.table, s.claims, s.effects, s.clock, t, s.threads[t]);
    SwapCloses(s, t, row);
    CloseKeepsInv(s, t, row, ReplyOf(s.threads[t].pc, true), z);
  }

  lemma SwapCloses(s: State, t: nat, row: Operation)
    requires t in s.threads && Closing(s.threads[t].pc)
    requires ThreadInv(s.table, s.claims, s.effects, s.clock, t, s.threads[t])
    requires var id, c := s.threads[t].operationId, ChangeOf(s.threads[t], s.clock);
             && Matches(s.table, id, c.from) && RowColumns(s.table.rows[id])
             && row == Moved(s.table.rows[id], c.to, c.error, c.approver, c.completedAt)
    ensures Closes(s, t, row, ReplyOf(s.threads[t].pc, true))
  {
    ClosingRow(s.table.rows[s.threads[t].operationId], s.threads[t], s.clock, row);
    ClosingIsTruthful(s, t, row);
  }

  lemma ClosingKeepsInv(s: State, t: nat, ok: bool, z: State)
    requires Inv(s) && t in s.threads && Closing(s.threads[t].pc) && z == Closed(s, t, ok)
    ensures Inv(z)
  {
    var id, c := s.threads[t].operationId, ChangeOf(s.threads[t], s.clock);
    if ok && Matches(s.table, id, c.from) {
      ClosingForRealKeepsInv(s, t, Moved(s.table.rows[id], c.to, c.error, c.approver, c.completedAt), z);
    } else {
      ClosingInVainKeepsInv(s, t, z);
    }
  }

  /** A step that only reads is entitled to what the thread then holds. */
  lemma LookingIsJustified(s: State, t: nat, ok: bool)
    requires Indexed(s.table)
    requires t in s.threads && Looking(s.threads[t].pc)
    requires ThreadInv(s.table, s.claims, s.effects, s.clock, t, s.threads[t])
    ensures ThreadInv(s.table, s.claims, s.effects, s.clock, t, s.threads[t].(pc := Looked(s, s.threads[t], ok)))
  {
    match s.threads[t].pc
    case Loading => LoadingIsJustified(s, t, ok);
    case Loaded(request) => CheckingIsJustified(s, t, request);
    case Reading(request, checkedAt) => ReadingIsJustified(s, t, request, checkedAt, ok);
    case ReadingNode(request, checkedAt) => ReadingNodeIsJustified(s, t, request, checkedAt, ok);
  }

  lemma LoadingIsJustified(s: State, t: nat, ok: bool)
    requires t in s.threads && s.threads[t].pc.Loading?
    requires ThreadInv(s.table, s.claims, s.effects, s.clock, t, s.threads[t])
    ensures ThreadInv(s.table, s.claims, s.effects, s.clock, t,
                      s.threads[t].(pc := AfterLoading(s, s.threads[t].operationId, ok)))
  {
  }

  lemma CheckingIsJustified(s: State, t: nat, request: Request)
    requires Indexed(s.table)
    requires t in s.threads && s.threads[t].pc == Loaded(request)
    requires ThreadInv(s.table, s.claims, s.effects, s.clock, t, s.threads[t])
    ensures ThreadInv(s.table, s.claims, s.effects, s.clock, t,
                      s.threads[t].(pc := AfterExpiryCheck(request, s.threads[t].approve, s.clock)))
  {
    assert Complete(s.table.rows[s.threads[t].operationId].request);
  }

  lemma ReadingIsJustified(s: State, t: nat, request: Request, checkedAt: int, ok: bool)
    requires t in s.threads && s.threads[t].pc == Reading(request, checkedAt)
    requires ThreadInv(s.table, s.claims, s.effects, s.clock, t, s.threads[t])
    ensures ThreadInv(s.table, s.claims, s.effects, s.clock, t,
            s.threads[t].(pc := AfterReading(s, request, checkedAt, ok)))
  {
  }

  lemma ReadingNodeIsJustified(s: State, t: nat, request: Request, checkedAt: int, ok: bool)
    requires t in s.threads && s.threads[t].pc == ReadingNode(request, checkedAt)
    requires ThreadInv(s.table, s.claims, s.effects, s.clock, t, s.threads[t])
    ensures ThreadInv(s.table, s.claims, s.effects, s.clock, t,
            s.threads[t].(pc := AfterReadingNode(s, request, checkedAt, ok)))
  {
  }

  lemma ClaimingKeepsInv(s: State, t: nat, ok: bool, z: State)
    requires Inv(s) && t in s.threads && s.threads[t].pc.Claiming? && z == Claimed(s, t, ok)
    ensures Inv(z)
  {
    if ok && Matches(s.table, s.threads[t].operationId, Pending) {
      ClaimKeepsInv(s, t, z);
    } else {
      ThreadMoveKeepsInv(s, t, s.threads[t].(pc := Done(Conflict)), z);
    }
  }

  lemma AdvanceKeepsInv(s: State, t: nat, ok: bool, z: State)
    requires Inv(s) && t in s.threads && z == Advanced(s, t, ok)
    ensures Inv(z)
  {
    var pc := s.threads[t].pc;
    if Looking(pc) {
      assert ThreadInv(s.table, s.claims, s.effects, s.clock, t, s.threads[t]);
      LookingIsJustified(s, t, ok);
      ThreadMoveKeepsInv(s, t, s.threads[t].(pc := Looked(s, s.threads[t], ok)), z);
    } else if pc.Claiming? {
      ClaimingKeepsInv(s, t, ok, z);
    } else if pc.Executing? {
      RunKeepsInv(s, t, ok, z);
    } else if Closing(pc) {
      ClosingKeepsInv(s, t, ok, z);
    }
  }

  lemma OpenKeepsInv(s: State, t: nat, thread: Thread, z: State)
    requires Inv(s) && thread.pc == Loading
    requires z == if t in s.threads then s else s.(threads := s.threads[t := thread])
    ensures Inv(z)
  {
    if t !in s.threads {
      ThreadMoveKeepsInv(s, t, thread, z);
    }
  }

  lemma CrashKeepsInv(s: State, t: nat, z: State)
    requires Inv(s) && z == if t in s.threads then At(s, t, Crashed) else s
    ensures Inv(z)
  {
    if t in s.threads {
      ThreadMoveKeepsInv(s, t, s.threads[t].(pc := Crashed), z);
    }
  }

  lemma OutsideWriteKeepsInv(s: State, target: Target, replicas: int, z: State)
    requires Inv(s) && z == Step(s, OutsideWrite(target, replicas))
    ensures Inv(z)
  {
    WrittenKeepsCluster(s.cluster, target, replicas, None);
    OutsideVersionsKeepInv(s, z.cluster);
  }

  lemma StepKeepsInv(s: State, a: Action, z: State)
    requires Inv(s) && z == Step(s, a)
    ensures Inv(z)
  {
    match a
    case Draft(draft, request) => DraftKeepsInv(s, draft, request);
    case Submit(draft, ok) => SubmitKeepsInv(s, draft, ok);
    case Open(t, id, approve, user) => OpenKeepsInv(s, t, Thread(id, approve, user, Loading), z);
    case Advance(t, ok) =>
      if t in s.threads {
        AdvanceKeepsInv(s, t, ok, z);
      }
    case Crash(t) => CrashKeepsInv(s, t, z);
    case Tick(seconds) => TickKeepsInv(s, seconds);
    case OutsideWrite(target, replicas) => OutsideWriteKeepsInv(s, target, replicas, z);
    case OutsideDelete(target) => OutsideVersionsKeepInv(s, z.cluster);
    case OutsideFacts(_) =>
  }

  lemma {:induction false} RunKeepsInvariant(s: State, run: seq<Action>)
    requires Inv(s)
    ensures Inv(Exec(s, run))
  {
    if run != [] {
      RunKeepsInvariant(s, run[..|run| - 1]);
      StepKeepsInv(Exec(s, run[..|run| - 1]), run[|run| - 1], Exec(s, run));
    }
  }
}
