/** Draining, force-draining, removing and rejoining a node, over one classifier of the Pods on it. */
module NodeDrain {
  import opened Wrappers

  // ---------- Pods ----------

  datatype Phase = Pending | Running | Succeeded | Failed | UnknownPhase

  datatype Owner = Owner(kind: string, controller: Option<bool>)

  datatype Key = Key(namespace: string, name: string)

  /** `mirror` is the value of the mirror annotation, `emptyDirs` tells for each volume whether it is an emptyDir. */
  datatype Pod = Pod(key: Key, phase: Phase, mirror: string, owners: seq<Owner>, emptyDirs: seq<bool>)

  datatype Reason =
    | Completed | StaticPod | DaemonSetPod | Unmanaged | HasEmptyDir | WillEvict
    | BudgetForbids | EvictionFailed | DeletionFailed | DeletionSubmitted | NotCordoned | StillReady

  datatype DrainPod = DrainPod(key: Key, ownerKind: string, reason: Reason)

  function ControllerKind(owners: seq<Owner>): string {
    if owners == [] then ""
    else if owners[0].controller == Some(true) then owners[0].kind
    else ControllerKind(owners[1..])
  }

  predicate IsDaemonSetPod(pod: Pod) {
    exists i | 0 <= i < |pod.owners| :: pod.owners[i].kind == "DaemonSet" && pod.owners[i].controller != Some(false)
  }

  predicate UsesEmptyDir(pod: Pod) {
    true in pod.emptyDirs
  }

  /** The classifier, in the order of its cases. */
  function ReasonFor(pod: Pod): Reason {
    if pod.phase == Succeeded || pod.phase == Failed then Completed
    else if pod.mirror != "" then StaticPod
    else if IsDaemonSetPod(pod) then DaemonSetPod
    else if ControllerKind(pod.owners) == "" then Unmanaged
    else if UsesEmptyDir(pod) then HasEmptyDir
    else WillEvict
  }

  /** The owner at `i` is the one that controls the Pod: the first that says so. */
  predicate Controls(owners: seq<Owner>, i: nat) {
    i < |owners| && owners[i].controller == Some(true) && forall j | 0 <= j < i :: owners[j].controller != Some(true)
  }

  lemma {:induction false} ControllerKindIff(owners: seq<Owner>, kind: string)
    requires kind != ""
    ensures ControllerKind(owners) == kind <==> exists i: nat :: Controls(owners, i) && owners[i].kind == kind
  {
    if owners != [] {
      var rest := owners[1..];
      if owners[0].controller == Some(true) {
        assert Controls(owners, 0);
        assert forall i: nat :: Controls(owners, i) ==> i == 0;
      } else {
        ControllerKindIff(rest, kind);
        assert forall i: nat :: Controls(rest, i) ==> Controls(owners, i + 1) && owners[i + 1] == rest[i];
        assert forall i: nat :: Controls(owners, i) ==> i > 0 && Controls(rest, i - 1) && owners[i] == rest[i - 1];
      }
    }
  }

  // ---------- the classes, on the fields of a Pod ----------

  predicate Finished(pod: Pod) {
    pod.phase == Succeeded || pod.phase == Failed
  }

  ghost predicate OwnedByDaemonSet(pod: Pod) {
    exists o <- pod.owners :: o.kind == "DaemonSet" && o.controller != Some(false)
  }

  /** Neither finished nor static nor of a DaemonSet: a Pod that a drain has to deal with. */
  ghost predicate AtWork(pod: Pod) {
    !Finished(pod) && pod.mirror == "" && !OwnedByDaemonSet(pod)
  }

  /** A controller of some kind would recreate it elsewhere. */
  ghost predicate Controlled(pod: Pod) {
    exists i: nat :: Controls(pod.owners, i) && pod.owners[i].kind != ""
  }

  ghost predicate HoldsEmptyDir(pod: Pod) {
    exists i | 0 <= i < |pod.emptyDirs| :: pod.emptyDirs[i]
  }

  lemma ControlledIff(pod: Pod)
    ensures Controlled(pod) <==> ControllerKind(pod.owners) != ""
  {
    if i: nat :| Controls(pod.owners, i) && pod.owners[i].kind != "" {
      ControllerKindIff(pod.owners, pod.owners[i].kind);
    }
    if ControllerKind(pod.owners) != "" {
      ControllerKindIff(pod.owners, ControllerKind(pod.owners));
    }
  }

  /** Which Pods get which reason, and so which list, by their fields alone. */
  lemma ClassifiedIff(pod: Pod)
    ensures ReasonFor(pod) == Completed <==> Finished(pod)
    ensures ReasonFor(pod) == StaticPod <==> !Finished(pod) && pod.mirror != ""
    ensures ReasonFor(pod) == DaemonSetPod <==> !Finished(pod) && pod.mirror == "" && OwnedByDaemonSet(pod)
    ensures ReasonFor(pod) == Unmanaged <==> AtWork(pod) && !Controlled(pod)
    ensures ReasonFor(pod) == HasEmptyDir <==> AtWork(pod) && Controlled(pod) && HoldsEmptyDir(pod)
    ensures ReasonFor(pod) == WillEvict <==> AtWork(pod) && Controlled(pod) && !HoldsEmptyDir(pod)
  {
    ControlledIff(pod);
    assert IsDaemonSetPod(pod) <==> OwnedByDaemonSet(pod);
    assert UsesEmptyDir(pod) <==> HoldsEmptyDir(pod);
  }

  function ItemFor(pod: Pod): (item: DrainPod)
    ensures Every(item.reason)
  {
    DrainPod(pod.key, ControllerKind(pod.owners), ReasonFor(pod))
  }

  predicate Skips(r: Reason) {
    r == Completed || r == StaticPod || r == DaemonSetPod
  }

  predicate Evicts(r: Reason) { r == WillEvict }

  predicate Empties(r: Reason) { r == HasEmptyDir }

  predicate Moves(r: Reason) { Evicts(r) || Empties(r) }

  predicate Blocks(r: Reason) { r == Unmanaged }

  predicate MovesOrBlocks(r: Reason) { Moves(r) || Blocks(r) }

  predicate Every(r: Reason) { MovesOrBlocks(r) || Skips(r) }

  // ---------- the plan ----------

  datatype Plan = Plan(alreadyCordoned: bool, evictable: seq<DrainPod>, emptyDir: seq<DrainPod>,
      blocked: seq<DrainPod>, skipped: seq<DrainPod>)

  /** The items of the Pods that `wanted` selects, in Pod order. */
  function Selected(pods: seq<Pod>, wanted: Reason -> bool): seq<DrainPod> {
    if pods == [] then []
    else
      var last := pods[|pods| - 1];
      Selected(pods[..|pods| - 1], wanted) + (if wanted(ReasonFor(last)) then [ItemFor(last)] else [])
  }

  function PlanFor(cordoned: bool, pods: seq<Pod>): Plan {
    Plan(
      cordoned,
      Selected(pods, Evicts),
      Selected(pods, Empties),
      Selected(pods, Blocks),
      Selected(pods, Skips))
  }

  function Candidates(plan: Plan): seq<DrainPod> {
    plan.evictable + plan.emptyDir
  }

  method BuildPlan(cordoned: bool, pods: seq<Pod>) returns (plan: Plan)
    ensures plan == PlanFor(cordoned, pods)
  {
    plan := Plan(cordoned, [], [], [], []);
    for i := 0 to |pods|
      invariant plan == PlanFor(cordoned, pods[..i])
    {
      assert pods[..i + 1][..i] == pods[..i];
      var pod := pods[i];
      var item := ItemFor(pod);
      match item.reason {
        case Unmanaged => plan := plan.(blocked := plan.blocked + [item]);
        case HasEmptyDir => plan := plan.(emptyDir := plan.emptyDir + [item]);
        case WillEvict => plan := plan.(evictable := plan.evictable + [item]);
        case _ => plan := plan.(skipped := plan.skipped + [item]);
      }
    }
    assert pods[..|pods|] == pods;
  }

  lemma {:induction false} SelectedIsExact(pods: seq<Pod>, wanted: Reason -> bool, item: DrainPod)
    ensures item in Selected(pods, wanted) <==> exists p <- pods :: wanted(ReasonFor(p)) && ItemFor(p) == item
  {
    if pods != [] {
      var before, last := pods[..|pods| - 1], pods[|pods| - 1];
      SelectedIsExact(before, wanted, item);
      assert forall p :: p in pods <==> p in before || p == last by {
        assert pods == before + [last];
      }
    }
  }

  function Items(pods: seq<Pod>): seq<DrainPod> {
    Selected(pods, Every)
  }

  lemma {:induction false} SelectedSplits(pods: seq<Pod>, one: Reason -> bool, two: Reason -> bool,
      either: Reason -> bool)
    requires forall r: Reason :: (either(r) <==> one(r) || two(r)) && !(one(r) && two(r))
    ensures multiset(Selected(pods, one)) + multiset(Selected(pods, two)) == multiset(Selected(pods, either))
  {
    if pods != [] {
      SelectedSplits(pods[..|pods| - 1], one, two, either);
    }
  }

  lemma {:induction false} OneItemPerPod(pods: seq<Pod>)
    ensures |Items(pods)| == |pods|
  {
    if pods != [] {
      OneItemPerPod(pods[..|pods| - 1]);
    }
  }

  /** The plan is a partition: its four lists hold the item of every Pod exactly as often as the Pod list does. */
  lemma PlanIsPartition(cordoned: bool, pods: seq<Pod>)
    ensures var plan := PlanFor(cordoned, pods);
            multiset(plan.evictable) + multiset(plan.emptyDir) + multiset(plan.blocked) + multiset(plan.skipped)
                == multiset(Items(pods))
    ensures |Items(pods)| == |pods|
  {
    OneItemPerPod(pods);
    MovedItems(pods);
    MovedOrBlockedItems(pods);
    AllItems(pods);
  }

  lemma MovedItems(pods: seq<Pod>)
    ensures multiset(Selected(pods, Evicts)) + multiset(Selected(pods, Empties)) == multiset(Selected(pods, Moves))
  {
    SelectedSplits(pods, Evicts, Empties, Moves);
  }

  lemma MovedOrBlockedItems(pods: seq<Pod>)
    ensures multiset(Selected(pods, Moves)) + multiset(Selected(pods, Blocks))
            == multiset(Selected(pods, MovesOrBlocks))
  {
    SelectedSplits(pods, Moves, Blocks, MovesOrBlocks);
  }

  lemma AllItems(pods: seq<Pod>)
    ensures multiset(Selected(pods, MovesOrBlocks)) + multiset(Selected(pods, Skips)) == multiset(Items(pods))
  {
    SelectedSplits(pods, MovesOrBlocks, Skips, Every);
  }

  ghost predicate DistinctKeys(pods: seq<Pod>) {
    forall i, j | 0 <= i < j < |pods| :: pods[i].key != pods[j].key
  }

  lemma CandidateHasPod(cordoned: bool, pods: seq<Pod>, item: DrainPod)
    requires item in Candidates(PlanFor(cordoned, pods))
    ensures exists p <- pods :: Moves(ReasonFor(p)) && ItemFor(p) == item
  {
    if item in Selected(pods, Evicts) {
      SelectedIsExact(pods, Evicts, item);
      var p :| p in pods && Evicts(ReasonFor(p)) && ItemFor(p) == item;
    } else {
      SelectedIsExact(pods, Empties, item);
      var p :| p in pods && Empties(ReasonFor(p)) && ItemFor(p) == item;
    }
  }

  /** With the unique names the API server guarantees, no candidate shares its key with a skipped or blocked Pod. */
  lemma CandidatesAreOnlyMovable(cordoned: bool, pods: seq<Pod>, item: DrainPod, pod: Pod)
    requires DistinctKeys(pods)
    requires item in Candidates(PlanFor(cordoned, pods)) && pod in pods && pod.key == item.key
    ensures Moves(ReasonFor(pod)) && ItemFor(pod) == item
  {
    CandidateHasPod(cordoned, pods, item);
    var p :| p in pods && Moves(ReasonFor(p)) && ItemFor(p) == item;
    var i, j :| 0 <= i < |pods| && 0 <= j < |pods| && pods[i] == p && pods[j] == pod;
    assert i == j;
  }

  // ---------- the node ----------

  datatype ConditionStatus = IsTrue | IsFalse | IsUnknown

  datatype Condition = Condition(kind: string, status: ConditionStatus, heartbeat: Option<int>, transition: Option<int>)

  datatype Node = Node(unschedulable: bool, annotations: map<string, string>, labels: set<string>,
      conditions: seq<Condition>)

  datatype Health = Ready | NotReady | FailedHealth

  const READY := "Ready"
  const DRAIN_MARK := "cylism.io/drained-at"
  const FAILURE_THRESHOLD := 300

  function HeartbeatOf(c: Condition): Option<int> {
    if c.heartbeat.Some? then c.heartbeat else c.transition
  }

  /** The first Ready condition decides the health. */
  function HealthOf(conditions: seq<Condition>, now: int): Health {
    if conditions == [] then NotReady
    else if conditions[0].kind != READY then HealthOf(conditions[1..], now)
    else
      match conditions[0].status
      case IsTrue => Ready
      case IsUnknown =>
        var beat := HeartbeatOf(conditions[0]);
        if beat.Some? && now - beat.value > FAILURE_THRESHOLD then FailedHealth else NotReady
      case IsFalse => NotReady
  }

  /** A node counts as failed exactly when its first Ready condition is unknown and its last sign of life is over
      the threshold. */
  lemma {:induction false} FailedIff(conditions: seq<Condition>, now: int)
    ensures HealthOf(conditions, now) == FailedHealth <==>
              exists i | 0 <= i < |conditions| ::
                && conditions[i].kind == READY && (forall j | 0 <= j < i :: conditions[j].kind != READY)
                && conditions[i].status == IsUnknown
                && HeartbeatOf(conditions[i]).Some? && now - HeartbeatOf(conditions[i]).value > FAILURE_THRESHOLD
  {
    if conditions != [] && conditions[0].kind != READY {
      var rest := conditions[1..];
      FailedIff(rest, now);
      assert forall i | 0 <= i < |rest| :: rest[i] == conditions[i + 1];
      if HealthOf(conditions, now) == FailedHealth {
        var i :| 0 <= i < |rest| && rest[i].kind == READY && (forall j | 0 <= j < i :: rest[j].kind != READY)
                 && rest[i].status == IsUnknown && HeartbeatOf(rest[i]).Some?
                     && now - HeartbeatOf(rest[i]).value > FAILURE_THRESHOLD;
        assert conditions[i + 1] == rest[i];
        assert forall j | 0 < j < i + 1 :: conditions[j] == rest[j - 1];
      }
    }
  }

  /** Any Ready condition that holds makes the node ready. */
  predicate NodeReady(node: Node) {
    exists i | 0 <= i < |node.conditions| :: node.conditions[i].kind == READY && node.conditions[i].status == IsTrue
  }

  predicate IsControlPlane(node: Node) {
    "node-role.kubernetes.io/control-plane" in node.labels || "node-role.kubernetes.io/master" in node.labels
  }

  function Drained(node: Node, stamp: string): Node {
    node.(unschedulable := true, annotations := node.annotations[DRAIN_MARK := stamp])
  }

  function MarkOf(node: Node): string {
    if DRAIN_MARK in node.annotations then node.annotations[DRAIN_MARK] else ""
  }

  function Rejoined(node: Node): Node {
    if !node.unschedulable && MarkOf(node) == "" then node
    else node.(unschedulable := false, annotations := node.annotations - {DRAIN_MARK})
  }

  /** Rejoining undoes a drain exactly when the node was schedulable and unmarked before it. */
  lemma RejoinUndoesDrainIff(node: Node, stamp: string)
    ensures Rejoined(Drained(node, stamp)) == node <==> !node.unschedulable && DRAIN_MARK !in node.annotations
    ensures !Rejoined(Drained(node, stamp)).unschedulable && MarkOf(Rejoined(Drained(node, stamp))) == ""
    ensures Drained(node, stamp).unschedulable && MarkOf(Drained(node, stamp)) == stamp
    ensures Drained(node, stamp).conditions == node.conditions && Drained(node, stamp).labels == node.labels
  {
    var back := Rejoined(Drained(node, stamp));
    assert back.annotations == node.annotations - {DRAIN_MARK};
  }

  // ---------- the removal check ----------

  datatype Check = Check(canRemove: bool, blockers: seq<DrainPod>)

  const NO_POD := Key("", "")

  function Blockers(node: Node, plan: Plan): seq<DrainPod> {
    (if node.unschedulable then [] else [DrainPod(NO_POD, "", NotCordoned)])
    + (if NodeReady(node) then [DrainPod(NO_POD, "", StillReady)] else [])
    + plan.evictable + plan.emptyDir + plan.blocked
  }

  function CheckFor(node: Node, pods: seq<Pod>): Check {
    var blockers := Blockers(node, PlanFor(node.unschedulable, pods));
    Check(|blockers| == 0, blockers)
  }

  lemma {:induction false} SelectedEmptyIff(pods: seq<Pod>, wanted: Reason -> bool)
    ensures Selected(pods, wanted) == [] <==> forall p <- pods :: !wanted(ReasonFor(p))
  {
    if pods != [] {
      var before, last := pods[..|pods| - 1], pods[|pods| - 1];
      SelectedEmptyIff(before, wanted);
      assert forall p :: p in pods <==> p in before || p == last by {
        assert pods == before + [last];
      }
    }
  }

  /** What makes a drain refuse, seen on the Pods. */
  lemma RefusalLists(cordoned: bool, pods: seq<Pod>)
    ensures PlanFor(cordoned, pods).blocked == [] <==> forall p <- pods :: ReasonFor(p) != Unmanaged
    ensures PlanFor(cordoned, pods).emptyDir == [] <==> forall p <- pods :: ReasonFor(p) != HasEmptyDir
    ensures PlanFor(cordoned, pods).evictable == [] <==> forall p <- pods :: ReasonFor(p) != WillEvict
  {
    SelectedEmptyIff(pods, Blocks);
    SelectedEmptyIff(pods, Empties);
    SelectedEmptyIff(pods, Evicts);
  }

  ghost predicate AllControlled(pods: seq<Pod>) {
    forall p <- pods :: AtWork(p) ==> Controlled(p)
  }

  /** No Pod that would be moved loses local data. */
  ghost predicate NoneLosesData(pods: seq<Pod>) {
    forall p <- pods :: AtWork(p) && Controlled(p) ==> !HoldsEmptyDir(p)
  }

  /** The two lists a drain looks at, on the fields of the Pods. */
  lemma RefusalIff(cordoned: bool, pods: seq<Pod>)
    ensures PlanFor(cordoned, pods).blocked == [] <==> AllControlled(pods)
    ensures PlanFor(cordoned, pods).emptyDir == [] <==> NoneLosesData(pods)
  {
    RefusalLists(cordoned, pods);
    forall p | p in pods
      ensures ReasonFor(p) == Unmanaged <==> AtWork(p) && !Controlled(p)
      ensures ReasonFor(p) == HasEmptyDir <==> AtWork(p) && Controlled(p) && HoldsEmptyDir(p)
    {
      ClassifiedIff(p);
    }
  }

  lemma SkippedIff(pod: Pod)
    ensures Skips(ReasonFor(pod)) <==> !AtWork(pod)
  {
    ClassifiedIff(pod);
  }

  lemma NothingLeftIff(cordoned: bool, pods: seq<Pod>)
    ensures var plan := PlanFor(cordoned, pods);
            plan.evictable == [] && plan.emptyDir == [] && plan.blocked == [] <==> forall p <- pods :: !AtWork(p)
  {
    RefusalLists(cordoned, pods);
    forall p | p in pods
      ensures ReasonFor(p) != WillEvict && ReasonFor(p) != HasEmptyDir && ReasonFor(p) != Unmanaged <==> !AtWork(p)
    {
      ClassifiedIff(p);
    }
  }

  /** What the check lists: one entry for a node that is not cordoned, one for a node that is ready, and the entries of
      the Pods that are at work, each as often as there are such Pods. */
  lemma BlockersAre(node: Node, pods: seq<Pod>)
    ensures var blockers := multiset(CheckFor(node, pods).blockers);
            && blockers == (if node.unschedulable then multiset{} else multiset{DrainPod(NO_POD, "", NotCordoned)})
                           + (if NodeReady(node) then multiset{DrainPod(NO_POD, "", StillReady)} else multiset{})
                           + multiset(Selected(pods, MovesOrBlocks))
  {
    MovedItems(pods);
    MovedOrBlockedItems(pods);
    var plan := PlanFor(node.unschedulable, pods);
    assert multiset(CheckFor(node, pods).blockers) ==
        (if node.unschedulable then multiset{} else multiset{DrainPod(NO_POD, "", NotCordoned)})
        + (if NodeReady(node) then multiset{DrainPod(NO_POD, "", StillReady)} else multiset{})
        + multiset(plan.evictable) + multiset(plan.emptyDir) + multiset(plan.blocked);
  }

  /** A node may be removed exactly when it is cordoned, not ready, and every Pod left on it is finished, static or of a
      DaemonSet. */
  lemma RemovableIff(node: Node, pods: seq<Pod>)
    ensures CheckFor(node, pods).canRemove <==>
              node.unschedulable && !NodeReady(node) && forall p <- pods :: !AtWork(p)
  {
    NothingLeftIff(node.unschedulable, pods);
    var plan := PlanFor(node.unschedulable, pods);
    assert |Blockers(node, plan)| == (if node.unschedulable then 0 else 1) + (if NodeReady(node) then 1 else 0)
                                     + |plan.evictable| + |plan.emptyDir| + |plan.blocked|;
  }
}
