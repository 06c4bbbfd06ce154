/** The approval protocol as a transition system: request drafts, approver threads that stop between any
    two calls, an API server with versioned Deployments, outside writers, a clock and crashes. */
module ApprovalProtocol {
  import opened Wrappers
  import opened AgentOperationTable

  // ---------- the API server ----------

  /** One stored version of a Deployment: its replicas, the version it replaced and the operation that wrote it. */
  datatype Version = Version(target: Target, replicas: int, base: Option<nat>, writer: Option<string>)

  /** Resource versions are the indices of `history`; `current` maps each live Deployment to its version. */
  datatype Cluster = Cluster(history: seq<Version>, current: map<Target, nat>)

  /** An `Update` that carries a resource version. It answers with the version now stored, or refuses.
      Writing back an unchanged object keeps its version. */
  function Updated(c: Cluster, target: Target, version: nat, replicas: int, writer: Option<string>)
    : (Cluster, Option<nat>)
  {
    if target !in c.current || c.current[target] != version || version >= |c.history| then
      (c, None)
    else if c.history[version].replicas == replicas then
      (c, Some(version))
    else
      (Written(c, target, Some(version), replicas, writer), Some(|c.history|))
  }

  function Written(c: Cluster, target: Target, base: Option<nat>, replicas: int, writer: Option<string>): Cluster {
    Cluster(c.history + [Version(target, replicas, base, writer)], c.current[target := |c.history|])
  }

  // ---------- the facts an approval checks ----------

  datatype Alert = Alert(node: string, resolved: bool)

  datatype Facts = Facts(
    alerts: map<nat, Alert>,
    managedNodes: set<string>,
    images: map<string, string>,
    kubernetes: bool,
    cleanupExecutor: bool,
    pullExecutor: bool,
    recipes: set<string>,
    validNodes: set<string>)

  // ---------- approver threads ----------

  datatype Reply = NotFound | Conflict | Unavailable | Invalid | RejectedByUser | ExecutionFailed | Executed

  datatype Pc =
    | Loading
    | Loaded(request: Request)
    | Expiring(request: Request)
    | Rejecting(request: Request, checkedAt: int)
    | Reading(request: Request, checkedAt: int)
    | ReadingNode(request: Request, checkedAt: int)
    | MarkingStale(request: Request)
    | Claiming(request: Request, checkedAt: int, seen: nat)
    | Executing(request: Request, checkedAt: int, seen: nat)
    | Recording(request: Request, success: bool)
    | Done(reply: Reply)
    | Crashed

  datatype Thread = Thread(operationId: string, approve: bool, user: nat, pc: Pc)

  /** A side effect that was started: who started it, when its expiry was checked and when it began. */
  datatype Effect = Effect(operationId: string, thread: nat, checkedAt: int, startedAt: int, success: bool,
      version: nat)

  datatype State = State(
    table: Table,
    drafts: map<nat, Request>,
    cluster: Cluster,
    facts: Facts,
    clock: int,
    threads: map<nat, Thread>,
    claims: map<string, nat>,
    effects: seq<Effect>)

  const APPROVAL_WINDOW := 900

  /** Every source of nondeterminism is a field of an action: which thread moves, whether its call fails,
      what an outside writer stores. */
  datatype Action =
    | Draft(draft: nat, request: Request)
    | Submit(draft: nat, ok: bool)
    | Open(thread: nat, operationId: string, approve: bool, user: nat)
    | Advance(thread: nat, ok: bool)
    | Crash(thread: nat)
    | Tick(seconds: nat)
    | OutsideWrite(target: Target, replicas: int)
    | OutsideDelete(target: Target)
    | OutsideFacts(facts: Facts)

  // ---------- requests ----------

  /** A scale request reads its Deployment and keeps the version it saw; the request is inserted in a later step. */
  function Drafted(s: State, draft: nat, request: Request): State {
    if draft in s.drafts then
      s
    else if request.parameters.Scale? && request.parameters.target !in s.cluster.current then
      s
    else
      s.(drafts := s.drafts[draft := request.(
        resourceVersion := if request.parameters.Scale? then s.cluster.current[request.parameters.target] else 0,
        capability := CapabilityOf(request.parameters),
        expiresAt := Some(s.clock + APPROVAL_WINDOW))])
  }

  function CapabilityOf(p: Parameters): Option<Capability> {
    match p
    case Scale(_, _) => Some(DeploymentScale)
    case Cleanup(_, _, _) => Some(MaintenanceCleanup)
    case Pull(_, _, _) => Some(RegistryPullCheck)
    case Malformed => Some(OtherCapability)
    case Absent => None
  }

  /** A request as it is first stored. */
  function Filed(request: Request): Operation {
    Operation(request, Pending, "", None, None)
  }

  function Submitted(s: State, draft: nat, ok: bool): State {
    if ok && draft in s.drafts then
      s.(table := Created(s.table, Filed(s.drafts[draft])))
    else
      s
  }

  // ---------- one step of one approver ----------

  function At(s: State, t: nat, pc: Pc): State
    requires t in s.threads
  {
    s.(threads := s.threads[t := s.threads[t].(pc := pc)])
  }

  predicate Looking(pc: Pc) {
    pc.Loading? || pc.Loaded? || pc.Reading? || pc.ReadingNode?
  }

  predicate Closing(pc: Pc) {
    pc.Expiring? || pc.Rejecting? || pc.MarkingStale? || pc.Recording?
  }

  /** A step of thread `t` moves its own program counter and no other thread. */
  predicate OnlyMoves(s: State, t: nat, z: State) {
    && t in s.threads
    && t in z.threads
    && z.threads == s.threads[t := s.threads[t].(pc := z.threads[t].pc)]
  }

  /** How many more calls a thread makes at most. */
  function StepsLeft(pc: Pc): nat {
    match pc
    case Loading => 7
    case Loaded(_) => 6
    case Reading(_, _) => 5
    case ReadingNode(_, _) => 4
    case Claiming(_, _, _) => 3
    case Executing(_, _, _) => 2
    case Done(_) => 0
    case Crashed => 0
    case _ => 1
  }

  function Advanced(s: State, t: nat, ok: bool): (z: State)
    ensures t !in s.threads ==> z == s
    ensures t in s.threads ==> OnlyMoves(s, t, z)
    ensures t in s.threads && StepsLeft(s.threads[t].pc) > 0 ==>
              StepsLeft(z.threads[t].pc) < StepsLeft(s.threads[t].pc) && !z.threads[t].pc.Crashed?
  {
    if t !in s.threads then s
    else if Looking(s.threads[t].pc) then At(s, t, Looked(s, s.threads[t], ok))
    else if s.threads[t].pc.Claiming? then Claimed(s, t, ok)
    else if s.threads[t].pc.Executing? then Ran(s, t, ok)
    else if Closing(s.threads[t].pc) then Closed(s, t, ok)
    else s
  }

  /** The steps that only read. */
  function Looked(s: State, thread: Thread, ok: bool): (pc: Pc)
    requires Looking(thread.pc)
    ensures StepsLeft(pc) < StepsLeft(thread.pc) && !pc.Crashed?
  {
    match thread.pc
    case Loading => AfterLoading(s, thread.operationId, ok)
    case Loaded(request) => AfterExpiryCheck(request, thread.approve, s.clock)
    case Reading(request, checkedAt) => AfterReading(s, request, checkedAt, ok)
    case ReadingNode(request, checkedAt) => AfterReadingNode(s, request, checkedAt, ok)
  }

  function AfterLoading(s: State, id: string, ok: bool): (pc: Pc)
    ensures pc.Done? || (pc.Loaded? && id in s.table.rows && pc.request == s.table.rows[id].request)
  {
    if !ok || id !in s.table.rows then Done(NotFound)
    else if s.table.rows[id].status != Pending then Done(Conflict)
    else Loaded(s.table.rows[id].request)
  }

  /** The only place where the deadline is compared with the clock. */
  function AfterExpiryCheck(request: Request, approve: bool, now: int): (pc: Pc)
    ensures (pc.Expiring? || pc.Rejecting? || pc.Reading?) && pc.request == request
    ensures pc.Expiring? <==> request.expiresAt.Some? && now > request.expiresAt.value
    ensures !pc.Expiring? ==> pc.checkedAt == now
  {
    if request.expiresAt.Some? && now > request.expiresAt.value then Expiring(request)
    else if !approve then Rejecting(request, now)
    else Reading(request, now)
  }

  /** The first freshness read: the Deployment, the alert event or the mirror configuration. */
  function AfterReading(s: State, request: Request, checkedAt: int, ok: bool): (pc: Pc)
    ensures pc.Done? || ((pc.MarkingStale? || pc.ReadingNode? || pc.Claiming?) && pc.request == request)
    ensures pc.ReadingNode? || pc.Claiming? ==> pc.checkedAt == checkedAt
    ensures pc.Claiming? ==>
              && request.parameters.Scale? && pc.seen == request.resourceVersion
              && request.parameters.target in s.cluster.current
                  && s.cluster.current[request.parameters.target] == pc.seen
    ensures pc.ReadingNode? ==> request.parameters.Cleanup? || request.parameters.Pull?
    ensures pc.MarkingStale? && request.parameters.Scale? ==>
              request.parameters.target in s.cluster.current
                  && s.cluster.current[request.parameters.target] != request.resourceVersion
  {
    if request.capability == Some(RegistryPullCheck) then
      if !s.facts.pullExecutor then Done(Unavailable)
      else if !request.parameters.Pull? then Done(Invalid)
      else if !ok then Done(Unavailable)
      else if !ImageFresh(s.facts, request.parameters) then MarkingStale(request)
      else ReadingNode(request, checkedAt)
    else if request.capability == Some(MaintenanceCleanup) then
      if !s.facts.cleanupExecutor then Done(Unavailable)
      else if !CleanupWellFormed(s.facts, request.parameters) then Done(Invalid)
      else if !ok || !AlertFresh(s.facts, request.parameters) then MarkingStale(request)
      else ReadingNode(request, checkedAt)
    else if request.capability != Some(DeploymentScale) || !s.facts.kubernetes then Done(Unavailable)
    else if !request.parameters.Scale? then Done(Invalid)
    else if !ok || request.parameters.target !in s.cluster.current then Done(Unavailable)
    else if s.cluster.current[request.parameters.target] != request.resourceVersion then MarkingStale(request)
    else Claiming(request, checkedAt, s.cluster.current[request.parameters.target])
  }

  predicate CleanupWellFormed(facts: Facts, p: Parameters) {
    p.Cleanup? && p.recipe in facts.recipes && p.alert != 0 && p.node in facts.validNodes
  }

  predicate AlertFresh(facts: Facts, p: Parameters)
    requires p.Cleanup?
  {
    p.alert in facts.alerts && facts.alerts[p.alert].node == p.node && !facts.alerts[p.alert].resolved
  }

  predicate ImageFresh(facts: Facts, p: Parameters)
    requires p.Pull?
  {
    p.registry in facts.images && facts.images[p.registry] != "" && facts.images[p.registry] == p.image
  }

  /** The second freshness read: is the node still managed by the platform? */
  function AfterReadingNode(s: State, request: Request, checkedAt: int, ok: bool): (pc: Pc)
    ensures pc.Done? || ((pc.MarkingStale? || pc.Claiming?) && pc.request == request)
    ensures pc.Claiming? ==> pc.checkedAt == checkedAt && pc.seen == request.resourceVersion
    ensures pc.Claiming? <==> ok && NodeOf(request.parameters) in s.facts.managedNodes
    ensures pc.MarkingStale? <==> ok && NodeOf(request.parameters) !in s.facts.managedNodes
  {
    if !ok then Done(Unavailable)
    else if NodeOf(request.parameters) !in s.facts.managedNodes then MarkingStale(request)
    else Claiming(request, checkedAt, request.resourceVersion)
  }

  function NodeOf(p: Parameters): string {
    match p
    case Cleanup(_, node, _) => node
    case Pull(node, _, _) => node
    case _ => ""
  }

  /** Pending to approved: the one compare-and-swap that lets a thread go on to execute. */
  function Claimed(s: State, t: nat, ok: bool): (z: State)
    requires t in s.threads && s.threads[t].pc.Claiming?
    ensures OnlyMoves(s, t, z) && (z.threads[t].pc.Executing? || z.threads[t].pc == Done(Conflict))
    ensures z.threads[t].pc.Executing? <==> ok && Matches(s.table, s.threads[t].operationId, Pending)
    ensures z.threads[t].pc.Done? ==> z.table == s.table && z.claims == s.claims
    ensures z.cluster == s.cluster && z.effects == s.effects
  {
    var id, pc := s.threads[t].operationId, s.threads[t].pc;
    if ok && Matches(s.table, id, Pending) then
      At(s, t, Executing(pc.request, pc.checkedAt, pc.seen)).(
        table := Swapped(s.table, id, Pending, Approved, "", Some(Approval(s.threads[t].user, s.clock)), None),
        claims := s.claims[id := t])
    else
      At(s, t, Done(Conflict))
  }

  /** The side effect: a versioned `Update` for a scale, an opaque remote call for a cleanup or a pull. */
  function Ran(s: State, t: nat, ok: bool): (z: State)
    requires t in s.threads && s.threads[t].pc.Executing?
    ensures OnlyMoves(s, t, z) && z.threads[t].pc.Recording?
    ensures z.table == s.table && z.claims == s.claims
    ensures |z.effects| == |s.effects| + 1 && z.effects[|s.effects|].operationId == s.threads[t].operationId
    ensures z.effects[|s.effects|].success == z.threads[t].pc.success
  {
    var id, pc := s.threads[t].operationId, s.threads[t].pc;
    var p := pc.request.parameters;
    if p.Scale? then
      var (cluster, landed) :=
        if ok then Updated(s.cluster, p.target, pc.seen, p.replicas, Some(id)) else (s.cluster, None);
      At(s, t, Recording(pc.request, landed.Some?)).(
        cluster := cluster,
        effects := s.effects + [Effect(id, t, pc.checkedAt, s.clock, landed.Some?,
                                       if landed.Some? then landed.value else pc.seen)])
    else
      At(s, t, Recording(pc.request, ok)).(
        effects := s.effects + [Effect(id, t, pc.checkedAt, s.clock, ok, pc.seen)])
  }

  /** The arguments of the compare-and-swap that ends a thread. */
  datatype Change = Change(from: Status, to: Status, error: string, approver: Option<Approval>,
      completedAt: Option<int>)

  function ChangeOf(thread: Thread, now: int): (c: Change)
    requires Closing(thread.pc)
    ensures c.from == Pending ==> (c.to == Expired || c.to == Rejected || c.to == Stale) && c.completedAt.None?
    ensures c.from == Pending ==> (c.approver.Some? <==> c.to == Rejected)
    ensures c.from == Approved <==> thread.pc.Recording?
    ensures c.from == Approved || c.from == Pending
    ensures c.from == Approved ==>
              c.to == (if thread.pc.success then Succeeded else Failed) && c.approver.None? && c.completedAt.Some?
  {
    match thread.pc
    case Expiring(_) => Change(Pending, Expired, "approval expired", None, None)
    case Rejecting(_, _) => Change(Pending, Rejected, "rejected", Some(Approval(thread.user, now)), None)
    case MarkingStale(_) => Change(Pending, Stale, "target changed", None, None)
    case Recording(_, true) => Change(Approved, Succeeded, "", None, Some(now))
    case Recording(_, false) => Change(Approved, Failed, "execution failed", None, Some(now))
  }

  function ReplyOf(pc: Pc, changed: bool): Reply
    requires Closing(pc)
  {
    match pc
    case Rejecting(_, _) => if changed then RejectedByUser else Conflict
    case Recording(_, true) => Executed
    case Recording(_, false) => ExecutionFailed
    case _ => Conflict
  }

  /** The compare-and-swap that ends a thread. A call that fails changes nothing, and an approver that ran the
      side effect answers as if its outcome had been recorded. */
  function Closed(s: State, t: nat, ok: bool): (z: State)
    requires t in s.threads && Closing(s.threads[t].pc)
    ensures OnlyMoves(s, t, z) && z.threads[t].pc.Done?
  {
    var id, c := s.threads[t].operationId, ChangeOf(s.threads[t], s.clock);
    var changed := ok && Matches(s.table, id, c.from);
    At(s, t, Done(ReplyOf(s.threads[t].pc, changed))).(
      table := if changed then Swapped(s.table, id, c.from, c.to, c.error, c.approver, c.completedAt) else s.table)
  }

  // ---------- the system ----------

  function Step(s: State, a: Action): State {
    match a
    case Draft(draft, request) => Drafted(s, draft, request)
    case Submit(draft, ok) => Submitted(s, draft, ok)
    case Open(t, id, approve, user) =>
      if t in s.threads then s else s.(threads := s.threads[t := Thread(id, approve, user, Loading)])
    case Advance(t, ok) => Advanced(s, t, ok)
    case Crash(t) => if t in s.threads then At(s, t, Crashed) else s
    case Tick(seconds) => s.(clock := s.clock + seconds)
    case OutsideWrite(target, replicas) =>
      s.(cluster := Written(s.cluster, target,
           if target in s.cluster.current then Some(s.cluster.current[target]) else None, replicas, None))
    case OutsideDelete(target) => s.(cluster := s.cluster.(current := s.cluster.current - {target}))
    case OutsideFacts(facts) => s.(facts := facts)
  }

  /** The state after a whole run. */
  function Exec(s: State, run: seq<Action>): State {
    if run == [] then s else Step(Exec(s, run[..|run| - 1]), run[|run| - 1])
  }

  predicate Initial(s: State) {
    && s.table == Table(map[], map[])
    && s.drafts == map[]
    && s.cluster == Cluster([], map[])
    && s.threads == map[]
    && s.claims == map[]
    && s.effects == []
  }
}
