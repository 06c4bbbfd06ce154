/** The operations on one node, as they change the Node object and send requests for Pods. */
module NodeControl {
  import opened Wrappers
  import opened NodeDrain

  datatype Request = Evict(key: Key) | ForceDelete(key: Key)

  /** How the API server answers one request. */
  datatype Answer = Accepts | BudgetSaysNo | Fails

  /** Which calls of one operation go through: the first and second node read, the Pod list, the node write. */
  datatype Calls = Calls(read: bool, list: bool, reread: bool, write: bool)

  datatype Outcome =
    | Refused(shown: Option<Plan>)
    | Carried(plan: Plan, through: seq<DrainPod>, left: seq<DrainPod>)

  /** What happens to one candidate: does its request go through, and which reason does its entry then carry? */
  datatype Verdict = Verdict(through: bool, reason: Reason)

  function EvictionVerdict(item: DrainPod, answer: Answer): Verdict {
    match answer
    case Accepts => Verdict(true, item.reason)
    case BudgetSaysNo => Verdict(false, BudgetForbids)
    case Fails => Verdict(false, EvictionFailed)
  }

  function DeletionVerdict(item: DrainPod, answer: Answer): Verdict {
    if answer == Accepts then Verdict(true, DeletionSubmitted) else Verdict(false, DeletionFailed)
  }

  /** The entries of the candidates whose request did (or did not) go through, in candidate order. */
  function Settled(items: seq<DrainPod>, answers: Key -> Answer, rule: (DrainPod, Answer) -> Verdict,
      through: bool): seq<DrainPod> {
    if items == [] then []
    else
      var last := items[|items| - 1];
      var verdict := rule(last, answers(last.key));
      Settled(items[..|items| - 1], answers, rule, through)
          + (if verdict.through == through then [last.(reason := verdict.reason)] else [])
  }

  function Keys(items: seq<DrainPod>): (keys: seq<Key>)
    ensures |keys| == |items|
  {
    seq(|items|, i requires 0 <= i < |items| => items[i].key)
  }

  lemma KeysLast(items: seq<DrainPod>, item: DrainPod)
    ensures Keys(items + [item]) == Keys(items) + [item.key]
  {
  }

  lemma SettledLast(items: seq<DrainPod>, answers: Key -> Answer, rule: (DrainPod, Answer) -> Verdict, through: bool)
    requires items != []
    ensures var before, last := items[..|items| - 1], items[|items| - 1];
            && Keys(items) == Keys(before) + [last.key]
            && Keys(Settled(items, answers, rule, through)) ==
                 Keys(Settled(before, answers, rule, through))
                     + (if rule(last, answers(last.key)).through == through then [last.key] else [])
  {
    var before, last := items[..|items| - 1], items[|items| - 1];
    var verdict := rule(last, answers(last.key));
    KeysLast(Settled(before, answers, rule, through), last.(reason := verdict.reason));
  }

  /** Every candidate is reported exactly once: either its request went through or it is reported as left. */
  lemma {:induction false} SettledIsPartition(items: seq<DrainPod>, answers: Key -> Answer,
      rule: (DrainPod, Answer) -> Verdict)
    ensures multiset(Keys(Settled(items, answers, rule, true))) + multiset(Keys(Settled(items, answers, rule, false)))
            == multiset(Keys(items))
  {
    if items != [] {
      SettledIsPartition(items[..|items| - 1], answers, rule);
      SettledLast(items, answers, rule, true);
      SettledLast(items, answers, rule, false);
    }
  }

  /** A candidate's request went through exactly when the API server accepted it, for both kinds of request. */
  lemma {:induction false} ThroughIffAccepted(items: seq<DrainPod>, answers: Key -> Answer, key: Key)
    ensures key in Keys(Settled(items, answers, EvictionVerdict, true)) <==>
              key in Keys(items) && answers(key) == Accepts
    ensures key in Keys(Settled(items, answers, DeletionVerdict, true)) <==>
              key in Keys(items) && answers(key) == Accepts
    ensures key in Keys(Settled(items, answers, EvictionVerdict, false)) <==>
              key in Keys(items) && answers(key) != Accepts
    ensures key in Keys(Settled(items, answers, DeletionVerdict, false)) <==>
              key in Keys(items) && answers(key) != Accepts
  {
    if items != [] {
      ThroughIffAccepted(items[..|items| - 1], answers, key);
      SettledLast(items, answers, EvictionVerdict, true);
      SettledLast(items, answers, DeletionVerdict, true);
      SettledLast(items, answers, EvictionVerdict, false);
      SettledLast(items, answers, DeletionVerdict, false);
    }
  }

  /** Why an eviction is still pending: the disruption budget, or any other error. */
  lemma {:induction false} PendingReasons(items: seq<DrainPod>, answers: Key -> Answer, item: DrainPod)
    requires item in Settled(items, answers, EvictionVerdict, false)
    ensures item.reason == BudgetForbids <==> answers(item.key) == BudgetSaysNo
    ensures item.reason == EvictionFailed <==> answers(item.key) == Fails
  {
    var before, last := items[..|items| - 1], items[|items| - 1];
    if item in Settled(before, answers, EvictionVerdict, false) {
      PendingReasons(before, answers, item);
    }
  }

  /** The whole effect of a drain that goes ahead: the requests sent are for the candidates, in order, and no others. */
  function Evictions(items: seq<DrainPod>): (r: seq<Request>)
    ensures |r| == |items| && forall i | 0 <= i < |items| :: r[i] == Evict(items[i].key)
  {
    seq(|items|, i requires 0 <= i < |items| => Evict(items[i].key))
  }

  function Deletions(items: seq<DrainPod>): (r: seq<Request>)
    ensures |r| == |items| && forall i | 0 <= i < |items| :: r[i] == ForceDelete(items[i].key)
  {
    seq(|items|, i requires 0 <= i < |items| => ForceDelete(items[i].key))
  }

  class NodeAdmin {
    const name: string
    var node: Option<Node>
    var pods: seq<Pod>
    var requests: seq<Request>

    constructor (name: string, node: Option<Node>, pods: seq<Pod>)
      ensures this.name == name && this.node == node && this.pods == pods && requests == []
    {
      this.name, this.node, this.pods, this.requests := name, node, pods, [];
    }

    method DrainPlan(calls: Calls) returns (r: Option<Plan>)
      ensures r == if calls.read && node.Some? && calls.list then Some(PlanFor(node.value.unschedulable, pods))
              else None
    {
      if !calls.read || node.None? || !calls.list {
        return None;
      }
      var plan := BuildPlan(node.value.unschedulable, pods);
      r := Some(plan);
    }

    /** What lets an ordinary drain go ahead, before its node write. */
    ghost predicate MayDrain(deleteEmptyDir: bool)
      reads this
    {
      AllControlled(pods) && (deleteEmptyDir || NoneLosesData(pods))
    }

    method Drain(deleteEmptyDir: bool, calls: Calls, answers: Key -> Answer, stamp: string) returns (r: Outcome)
      modifies this`node, this`requests
      ensures r.Carried? <==> old(node).Some? && calls == Calls(true, true, true, true) && old(MayDrain(deleteEmptyDir))
      ensures r.Refused? ==> node == old(node) && requests == old(requests)
      ensures r.Carried? ==>
                var plan := PlanFor(old(node).value.unschedulable, pods);
                && r == Carried(plan, Settled(Candidates(plan), answers, EvictionVerdict, true),
                    Settled(Candidates(plan), answers, EvictionVerdict, false))
                && node == Some(Drained(old(node).value, stamp))
                && requests == old(requests) + Evictions(Candidates(plan))
    {
      var built := DrainPlan(calls);
      if built.None? {
        return Refused(None);
      }
      var plan := built.value;
      RefusalIff(node.value.unschedulable, pods);
      if |plan.blocked| > 0 {
        return Refused(built);
      }
      if |plan.emptyDir| > 0 && !deleteEmptyDir {
        return Refused(built);
      }
      if !calls.reread || !calls.write {
        return Refused(None);
      }
      node := Some(Drained(node.value, stamp));
      var through, left := EvictAll(Candidates(plan), answers);
      r := Carried(plan, through, left);
    }

    method EvictAll(items: seq<DrainPod>, answers: Key -> Answer) returns (through: seq<DrainPod>, left: seq<DrainPod>)
      modifies this`requests
      ensures through == Settled(items, answers, EvictionVerdict, true)
      ensures left == Settled(items, answers, EvictionVerdict, false)
      ensures requests == old(requests) + Evictions(items)
    {
      through, left := [], [];
      for i := 0 to |items|
        invariant through == Settled(items[..i], answers, EvictionVerdict, true)
        invariant left == Settled(items[..i], answers, EvictionVerdict, false)
        invariant requests == old(requests) + Evictions(items[..i])
      {
        assert items[..i + 1][..i] == items[..i];
        var item := items[i];
        requests := requests + [Evict(item.key)];
        match answers(item.key) {
          case Accepts => through := through + [item];
          case BudgetSaysNo => left := left + [item.(reason := BudgetForbids)];
          case Fails => left := left + [item.(reason := EvictionFailed)];
        }
      }
      assert items[..|items|] == items;
    }

    /** What lets a forced drain go ahead, before its node write. */
    ghost predicate MayForce(acknowledged: bool, confirmed: string, deleteEmptyDir: bool, now: int)
      reads this
    {
      acknowledged && confirmed == name && node.Some?
      && "node-role.kubernetes.io/control-plane" !in node.value.labels
      && "node-role.kubernetes.io/master" !in node.value.labels && HealthOf(node.value.conditions, now) == FailedHealth
      && (deleteEmptyDir || NoneLosesData(pods))
    }

    method ForceDrain(acknowledged: bool, confirmed: string, deleteEmptyDir: bool, now: int, calls: Calls,
        answers: Key -> Answer, stamp: string)
      returns (r: Outcome)
      modifies this`node, this`requests
      ensures r.Carried? <==>
              calls == Calls(true, true, true, true)
              && old(MayForce(acknowledged, confirmed, deleteEmptyDir, now))
      ensures r.Refused? ==> node == old(node) && requests == old(requests)
      ensures r.Carried? ==>
                var plan := PlanFor(old(node).value.unschedulable, pods);
                && r == Carried(plan, Settled(Candidates(plan), answers, DeletionVerdict, true),
                    Settled(Candidates(plan), answers, DeletionVerdict, false))
                && node == Some(Drained(old(node).value, stamp))
                && requests == old(requests) + Deletions(Candidates(plan))
    {
      if !acknowledged || confirmed != name {
        return Refused(None);
      }
      if !calls.read || node.None? {
        return Refused(None);
      }
      var current := node.value;
      if IsControlPlane(current) {
        return Refused(None);
      }
      if HealthOf(current.conditions, now) != FailedHealth {
        return Refused(None);
      }
      var built := DrainPlan(calls.(read := calls.reread));
      if built.None? {
        return Refused(None);
      }
      var plan := built.value;
      RefusalIff(current.unschedulable, pods);
      if |plan.emptyDir| > 0 && !deleteEmptyDir {
        return Refused(built);
      }
      if !calls.write {
        return Refused(built);
      }
      node := Some(Drained(current, stamp));
      var through, left := DeleteAll(Candidates(plan), answers);
      r := Carried(plan, through, left);
    }

    method DeleteAll(items: seq<DrainPod>, answers: Key -> Answer) returns (through: seq<DrainPod>, left: seq<DrainPod>)
      modifies this`requests
      ensures through == Settled(items, answers, DeletionVerdict, true)
      ensures left == Settled(items, answers, DeletionVerdict, false)
      ensures requests == old(requests) + Deletions(items)
    {
      through, left := [], [];
      for i := 0 to |items|
        invariant through == Settled(items[..i], answers, DeletionVerdict, true)
        invariant left == Settled(items[..i], answers, DeletionVerdict, false)
        invariant requests == old(requests) + Deletions(items[..i])
      {
        assert items[..i + 1][..i] == items[..i];
        var item := items[i];
        requests := requests + [ForceDelete(item.key)];
        if answers(item.key) != Accepts {
          left := left + [item.(reason := DeletionFailed)];
        } else {
          through := through + [item.(reason := DeletionSubmitted)];
        }
      }
      assert items[..|items|] == items;
    }

    method RemovalCheck(calls: Calls) returns (r: Option<Check>)
      ensures r.Some? <==> calls.read && calls.reread && calls.list && node.Some?
      ensures r.Some? ==> r.value == CheckFor(node.value, pods)
      ensures r.Some? ==> (r.value.canRemove <==>
              node.value.unschedulable && !NodeReady(node.value)
              && forall p <- pods :: !AtWork(p))
    {
      if !calls.read || node.None? {
        return None;
      }
      var blockers: seq<DrainPod> := [];
      if !node.value.unschedulable {
        blockers := blockers + [DrainPod(NO_POD, "", NotCordoned)];
      }
      if NodeReady(node.value) {
        blockers := blockers + [DrainPod(NO_POD, "", StillReady)];
      }
      var built := DrainPlan(calls.(read := calls.reread));
      if built.None? {
        return None;
      }
      blockers := blockers + built.value.evictable;
      blockers := blockers + built.value.emptyDir;
      blockers := blockers + built.value.blocked;
      RemovableIff(node.value, pods);
      r := Some(Check(|blockers| == 0, blockers));
    }

    /** The Node object goes away only when it is cordoned, not ready, and carries nothing a drain would move or
        refuse. */
    method Delete(calls: Calls) returns (ok: bool)
      modifies this`node
      ensures ok <==> calls == Calls(true, true, true, true) && old(node).Some? && old(node).value.unschedulable
                      && !NodeReady(old(node).value) && forall p <- pods :: !AtWork(p)
      ensures node == if ok then None else old(node)
    {
      var check := RemovalCheck(calls);
      if check.None? || !check.value.canRemove || !calls.write {
        return false;
      }
      node := None;
      ok := true;
    }

    method Rejoin(calls: Calls) returns (ok: bool)
      modifies this`node
      ensures ok <==> calls.read && old(node).Some?
                      && (calls.write || (!old(node).value.unschedulable && MarkOf(old(node).value) == ""))
      ensures ok ==> node == Some(Rejoined(old(node).value)) && !node.value.unschedulable && MarkOf(node.value) == ""
      ensures !ok ==> node == old(node)
    {
      if !calls.read || node.None? {
        return false;
      }
      var current := node.value;
      if !current.unschedulable && MarkOf(current) == "" {
        return true;
      }
      if !calls.write {
        return false;
      }
      node := Some(current.(unschedulable := false, annotations := current.annotations - {DRAIN_MARK}));
      ok := true;
    }
  }

  // ---------- a forced drain leads to removal ----------

  /** Is there at most one Ready condition, as the API server reports for every node? */
  ghost predicate SingleReady(conditions: seq<Condition>) {
    forall i, j | 0 <= i < j < |conditions| :: conditions[i].kind == READY ==> conditions[j].kind != READY
  }

  lemma {:induction false} FailedNodeIsNotReady(conditions: seq<Condition>, now: int)
    requires HealthOf(conditions, now) == FailedHealth && SingleReady(conditions)
    ensures forall c <- conditions :: c.kind == READY ==> c.status == IsUnknown
  {
    var head, rest := conditions[0], conditions[1..];
    assert forall c :: c in conditions <==> c == head || c in rest by {
      assert conditions == [head] + rest;
    }
    if head.kind != READY {
      FailedNodeIsNotReady(rest, now);
    } else {
      assert forall c <- rest :: c.kind != READY;
    }
  }

  lemma {:induction false} SettledThroughAll(items: seq<DrainPod>, answers: Key -> Answer,
      rule: (DrainPod, Answer) -> Verdict)
    requires Settled(items, answers, rule, false) == []
    ensures Keys(Settled(items, answers, rule, true)) == Keys(items)
  {
    if items != [] {
      SettledThroughAll(items[..|items| - 1], answers, rule);
      SettledLast(items, answers, rule, true);
    }
  }

  lemma MovableIsCandidate(cordoned: bool, pods: seq<Pod>, pod: Pod)
    requires pod in pods && Moves(ReasonFor(pod))
    ensures pod.key in Keys(Candidates(PlanFor(cordoned, pods)))
  {
    var items := Candidates(PlanFor(cordoned, pods));
    SelectedIsExact(pods, Evicts, ItemFor(pod));
    SelectedIsExact(pods, Empties, ItemFor(pod));
    assert ItemFor(pod) in items;
    var i :| 0 <= i < |items| && items[i] == ItemFor(pod);
    assert Keys(items)[i] == pod.key;
  }

  /**
   * After a forced drain with nothing blocked and no failed delete, once the deleted Pods are gone and none was newly
   * scheduled, the removal check passes exactly when no Ready condition of the node is True.
   */
  lemma ForceDrainThenRemovableIff(node: Node, pods: seq<Pod>, later: seq<Pod>, answers: Key -> Answer, stamp: string)
    requires PlanFor(node.unschedulable, pods).blocked == []
    requires Settled(Candidates(PlanFor(node.unschedulable, pods)), answers, DeletionVerdict, false) == []
    requires forall p <- later :: p in pods
    requires forall p <- later :: p.key !in Keys(Settled(Candidates(PlanFor(node.unschedulable, pods)), answers,
             DeletionVerdict, true))
    ensures CheckFor(Drained(node, stamp), later).canRemove <==> !NodeReady(node)
  {
    var plan := PlanFor(node.unschedulable, pods);
    forall p | p in later
      ensures !AtWork(p)
    {
      SettledThroughAll(Candidates(plan), answers, DeletionVerdict);
      RefusalLists(node.unschedulable, pods);
      if Moves(ReasonFor(p)) {
        MovableIsCandidate(node.unschedulable, pods, p);
      }
      assert Every(ItemFor(p).reason);
      SkippedIff(p);
    }
    RemovableIff(Drained(node, stamp), later);
  }

  /** With a single Ready condition, the health that lets the forced drain start is enough for the removal check to
      pass. */
  lemma ForceDrainThenRemovable(node: Node, pods: seq<Pod>, later: seq<Pod>, answers: Key -> Answer, stamp: string,
      now: int)
    requires HealthOf(node.conditions, now) == FailedHealth && SingleReady(node.conditions)
    requires PlanFor(node.unschedulable, pods).blocked == []
    requires Settled(Candidates(PlanFor(node.unschedulable, pods)), answers, DeletionVerdict, false) == []
    requires forall p <- later :: p in pods
    requires forall p <- later :: p.key !in Keys(Settled(Candidates(PlanFor(node.unschedulable, pods)), answers,
             DeletionVerdict, true))
    ensures CheckFor(Drained(node, stamp), later) == Check(true, [])
  {
    FailedNodeIsNotReady(node.conditions, now);
    ForceDrainThenRemovableIff(node, pods, later, answers, stamp);
  }

  /** Two Ready conditions break the chain: the health takes the first one, the removal check any one. */
  lemma TwoReadyConditionsDisagree()
    ensures exists node: Node, now: int ::
              HealthOf(node.conditions, now) == FailedHealth && !SingleReady(node.conditions)
                  && !CheckFor(Drained(node, ""), []).canRemove
  {
    var silent := Condition(READY, IsUnknown, Some(0), None);
    var well := Condition(READY, IsTrue, Some(0), None);
    var node := Node(false, map[], {}, [silent, well]);
    assert HealthOf(node.conditions, 301) == FailedHealth;
    assert node.conditions[0].kind == READY && node.conditions[1].kind == READY;
    assert NodeReady(node);
    RemovableIff(Drained(node, ""), []);
    assert node.conditions == Drained(node, "").conditions;
  }
}
