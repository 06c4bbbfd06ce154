/** Capability grants of a Runtime: replacing them, checking one, and the folded status view. */
module Capabilities {
  const ANYWHERE := "*"

  datatype Grant = Grant(runtime: nat, capability: string, namespace: string, enabled: bool)

  /** Capabilities that only make sense for the whole cluster. */
  const CLUSTER_ONLY := [
    "cluster.read", "registry.read", "registry.verify", "registry.pull_check", "dns.read", "registry.proxy_diagnose",
    "alert.read", "monitoring.read", "maintenance.inspect", "maintenance.cleanup"]

  const NAMESPACED := ["workload.read", "workload.logs", "events.read", "storage.read", "deployment.scale"]

  const NEEDS_APPROVAL := ["deployment.scale", "registry.pull_check", "maintenance.cleanup"]

  predicate Known(capability: string) {
    capability in CLUSTER_ONLY || capability in NAMESPACED
  }

  predicate Alphanumeric(c: char) {
    'a' <= c <= 'z' || '0' <= c <= '9'
  }

  /** A DNS-1123 subdomain: labels of lower-case letters, digits and inner dashes, separated by dots. */
  predicate NamespaceValid(s: string) {
    && 0 < |s| <= 253
    && Alphanumeric(s[0]) && Alphanumeric(s[|s| - 1])
    && (forall i | 0 <= i < |s| :: Alphanumeric(s[i]) || s[i] == '-' || s[i] == '.')
    && (forall i | 0 < i < |s| - 1 :: s[i] == '.' ==> Alphanumeric(s[i - 1]) && Alphanumeric(s[i + 1]))
  }

  // ---------- the grammar of namespaces ----------

  predicate LabelValid(l: string) {
    && l != "" && Alphanumeric(l[0]) && Alphanumeric(l[|l| - 1])
    && forall i | 0 <= i < |l| :: Alphanumeric(l[i]) || l[i] == '-'
  }

  function Join(labels: seq<string>): string
    requires labels != []
  {
    if |labels| == 1 then labels[0] else labels[0] + "." + Join(labels[1..])
  }

  ghost predicate Joins(labels: seq<string>, s: string) {
    labels != [] && (forall l <- labels :: LabelValid(l)) && Join(labels) == s
  }

  /** The part of the check that does not look at the length. */
  predicate Shaped(s: string) {
    && s != "" && Alphanumeric(s[0]) && Alphanumeric(s[|s| - 1])
    && (forall i | 0 <= i < |s| :: Alphanumeric(s[i]) || s[i] == '-' || s[i] == '.')
    && (forall i | 0 < i < |s| - 1 :: s[i] == '.' ==> Alphanumeric(s[i - 1]) && Alphanumeric(s[i + 1]))
  }

  lemma {:induction false} JoinIsShaped(labels: seq<string>)
    requires labels != [] && forall l <- labels :: LabelValid(l)
    ensures Shaped(Join(labels))
  {
    assert LabelValid(labels[0]);
    if |labels| > 1 {
      JoinIsShaped(labels[1..]);
      ShapedConcat(labels[0], Join(labels[1..]));
    }
  }

  lemma ShapedConcat(l: string, rest: string)
    requires LabelValid(l) && Shaped(rest)
    ensures Shaped(l + "." + rest)
  {
    var s := l + "." + rest;
    assert forall i | 0 <= i < |l| :: s[i] == l[i];
    assert forall i | 0 <= i < |rest| :: s[|l| + 1 + i] == rest[i];
    forall i | 0 < i < |s| - 1 && s[i] == '.'
      ensures Alphanumeric(s[i - 1]) && Alphanumeric(s[i + 1])
    {
      if i > |l| {
        assert rest[i - |l| - 1] == '.';
        assert s[i - 1] == rest[i - |l| - 2] && s[i + 1] == rest[i - |l|];
      } else {
        assert i == |l|;
      }
    }
  }

  /** Where the first label ends. */
  function FirstDot(s: string): (k: nat)
    ensures k <= |s| && (forall i | 0 <= i < k :: s[i] != '.') && (k < |s| ==> s[k] == '.')
  {
    if s == "" || s[0] == '.' then 0 else 1 + FirstDot(s[1..])
  }

  lemma {:induction false} ShapedIsJoin(s: string) returns (labels: seq<string>)
    requires Shaped(s)
    ensures Joins(labels, s)
    decreases |s|
  {
    var k := FirstDot(s);
    if k == |s| {
      labels := [s];
    } else {
      var l, rest := s[..k], s[k + 1..];
      assert 0 < k < |s| - 1;
      assert LabelValid(l);
      RestIsShaped(s, k);
      var more := ShapedIsJoin(rest);
      labels := [l] + more;
      assert labels[1..] == more;
      assert s == l + "." + rest;
    }
  }

  lemma RestIsShaped(s: string, k: nat)
    requires Shaped(s) && 0 < k < |s| - 1 && s[k] == '.'
    ensures Shaped(s[k + 1..])
  {
    var rest := s[k + 1..];
    assert forall i | 0 <= i < |rest| :: rest[i] == s[k + 1 + i];
    forall i | 0 < i < |rest| - 1 && rest[i] == '.'
      ensures Alphanumeric(rest[i - 1]) && Alphanumeric(rest[i + 1])
    {
      assert s[k + 1 + i] == '.';
    }
  }

  /** A valid namespace is one to 253 characters of labels joined by dots. */
  lemma NamespaceValidIff(s: string)
    ensures NamespaceValid(s) <==> |s| <= 253 && exists labels: seq<string> :: Joins(labels, s)
  {
    if Shaped(s) {
      var labels := ShapedIsJoin(s);
    }
    if labels: seq<string> :| Joins(labels, s) {
      JoinIsShaped(labels);
    }
    assert NamespaceValid(s) <==> Shaped(s) && |s| <= 253;
  }

  predicate ValidGrant(g: Grant) {
    && Known(g.capability)
    && (g.namespace == ANYWHERE || NamespaceValid(g.namespace))
    && (g.capability in CLUSTER_ONLY ==> g.namespace == ANYWHERE)
  }

  lemma ValidGrantNamesSomething(g: Grant)
    requires ValidGrant(g)
    ensures g.namespace != "" && (g.namespace == ANYWHERE <==> !NamespaceValid(g.namespace))
  {
    assert !Alphanumeric(ANYWHERE[0]);
  }

  // ---------- the store ----------

  predicate SameKey(a: Grant, b: Grant) {
    a.runtime == b.runtime && a.capability == b.capability && a.namespace == b.namespace
  }

  /** The unique index on runtime, capability and namespace. */
  ghost predicate Unique(rows: seq<Grant>) {
    forall i, j | 0 <= i < j < |rows| :: !SameKey(rows[i], rows[j])
  }

  ghost predicate AllValid(rows: seq<Grant>) {
    forall g <- rows :: ValidGrant(g)
  }

  /** What a replacement demands of its argument. */
  ghost predicate Acceptable(runtime: nat, grants: seq<Grant>) {
    AllValid(grants) && Unique(grants) && forall g <- grants :: g.runtime == runtime
  }

  function Without(rows: seq<Grant>, runtime: nat): (kept: seq<Grant>)
    ensures forall g :: g in kept <==> g in rows && g.runtime != runtime
  {
    if rows == [] then []
    else
      var last := rows[|rows| - 1];
      assert forall g :: g in rows <==> g in rows[..|rows| - 1] || g == last by {
        assert rows == rows[..|rows| - 1] + [last];
      }
      Without(rows[..|rows| - 1], runtime) + if last.runtime != runtime then [last] else []
  }

  lemma {:induction false} WithoutIsUnique(rows: seq<Grant>, runtime: nat)
    requires Unique(rows)
    ensures Unique(Without(rows, runtime))
  {
    if rows != [] {
      var before, last := rows[..|rows| - 1], rows[|rows| - 1];
      WithoutIsUnique(before, runtime);
      forall i | 0 <= i < |Without(before, runtime)|
        ensures !SameKey(Without(before, runtime)[i], last)
      {
        assert Without(before, runtime)[i] in before;
        var k :| 0 <= k < |before| && before[k] == Without(before, runtime)[i];
        assert rows[k] == before[k];
      }
    }
  }

  ghost function Replaced(rows: seq<Grant>, runtime: nat, grants: seq<Grant>): seq<Grant> {
    if Acceptable(runtime, grants) then Without(rows, runtime) + grants else rows
  }

  datatype Replacement = Replacement(runtime: nat, grants: seq<Grant>)

  ghost function Exec(run: seq<Replacement>): seq<Grant> {
    if run == [] then [] else Replaced(Exec(run[..|run| - 1]), run[|run| - 1].runtime, run[|run| - 1].grants)
  }

  lemma ReplacedIsValid(rows: seq<Grant>, runtime: nat, grants: seq<Grant>)
    requires Unique(rows) && AllValid(rows)
    ensures Unique(Replaced(rows, runtime, grants)) && AllValid(Replaced(rows, runtime, grants))
  {
    var kept := Without(rows, runtime);
    WithoutIsUnique(rows, runtime);
    forall i, j | 0 <= i < |kept| && 0 <= j < |grants| && Acceptable(runtime, grants)
      ensures !SameKey(kept[i], grants[j])
    {
      assert kept[i] in kept && grants[j] in grants;
    }
  }

  lemma {:induction false} ReachableStoreIsValid(run: seq<Replacement>)
    ensures Unique(Exec(run)) && AllValid(Exec(run))
  {
    if run != [] {
      ReachableStoreIsValid(run[..|run| - 1]);
      ReplacedIsValid(Exec(run[..|run| - 1]), run[|run| - 1].runtime, run[|run| - 1].grants);
    }
  }

  class GrantStore {
    var rows: seq<Grant>

    ghost predicate Valid()
      reads this
    {
      Unique(rows) && AllValid(rows)
    }

    constructor ()
      ensures Valid() && rows == []
    {
      rows := [];
    }

    /** All or nothing: either the Runtime's grants are exactly the new ones, or nothing changed. */
    method Replace(runtime: nat, grants: seq<Grant>) returns (ok: bool)
      requires Valid()
      modifies this
      ensures Valid()
      ensures ok <==> Acceptable(runtime, grants)
      ensures rows == Replaced(old(rows), runtime, grants)
    {
      var work := Without(rows, runtime);
      WithoutIsUnique(rows, runtime);
      for i := 0 to |grants|
        invariant rows == old(rows) && work == Without(rows, runtime) + grants[..i]
        invariant Unique(work) && Acceptable(runtime, grants[..i])
      {
        var grant := grants[i];
        assert grants[..i + 1] == grants[..i] + [grant];
        if grant.runtime != runtime || !ValidGrant(grant) {
          assert grant in grants;
          return false;
        }
        if exists k :: 0 <= k < |work| && SameKey(work[k], grant) {
          var k :| 0 <= k < |work| && SameKey(work[k], grant);
          NotAcceptable(rows, runtime, grants, i, k);
          return false;
        }
        InsertKeepsUnique(rows, runtime, grants, i);
        work := work + [grant];
      }
      assert grants[..|grants|] == grants;
      rows := work;
      ok := true;
    }

    method HasCapability(runtime: nat, capability: string, namespace: string) returns (granted: bool)
      ensures granted <==> Granted(rows, runtime, capability, namespace)
      ensures granted <==> Known(capability) && exists g <- rows ::
                && g.runtime == runtime && g.capability == capability && g.enabled
                && (g.namespace == "*" || (namespace != "" && g.namespace == namespace))
    {
      if !Known(capability) {
        return false;
      }
      var count := 0;
      for i := 0 to |rows|
        invariant count > 0 <==> exists g <- rows[..i] :: Permits(g, runtime, capability, namespace)
        invariant count >= 0
      {
        assert rows[..i + 1] == rows[..i] + [rows[i]];
        if Permits(rows[i], runtime, capability, namespace) {
          count := count + 1;
        }
      }
      assert rows[..|rows|] == rows;
      granted := count > 0;
    }
  }

  /** A row that clashes with the grant being inserted is an earlier one of the same call, since the others are of
      other Runtimes. */
  lemma NotAcceptable(rows: seq<Grant>, runtime: nat, grants: seq<Grant>, i: nat, k: nat)
    requires i < |grants| && grants[i].runtime == runtime
    requires k < |Without(rows, runtime)| + i && SameKey((Without(rows, runtime) + grants[..i])[k], grants[i])
    ensures !Acceptable(runtime, grants)
  {
    var kept := Without(rows, runtime);
    if |kept| <= k {
      assert SameKey(grants[k - |kept|], grants[i]);
    }
  }

  lemma InsertKeepsUnique(rows: seq<Grant>, runtime: nat, grants: seq<Grant>, i: nat)
    requires i < |grants| && grants[i].runtime == runtime && ValidGrant(grants[i])
    requires Unique(Without(rows, runtime) + grants[..i]) && Acceptable(runtime, grants[..i])
    requires forall k | 0 <= k < |Without(rows, runtime)| + i ::
             !SameKey((Without(rows, runtime) + grants[..i])[k], grants[i])
    ensures Unique(Without(rows, runtime) + grants[..i] + [grants[i]]) && Acceptable(runtime, grants[..i + 1])
  {
    var kept := Without(rows, runtime);
    SnocIsUnique(kept + grants[..i], grants[i]);
    forall k | 0 <= k < i
      ensures !SameKey(grants[..i][k], grants[i])
    {
      assert grants[..i][k] == (kept + grants[..i])[|kept| + k];
    }
    SnocIsAcceptable(runtime, grants[..i], grants[i]);
    assert grants[..i + 1] == grants[..i] + [grants[i]];
  }

  lemma SnocIsUnique(rows: seq<Grant>, g: Grant)
    requires Unique(rows) && forall k | 0 <= k < |rows| :: !SameKey(rows[k], g)
    ensures Unique(rows + [g])
  {
  }

  lemma SnocIsAcceptable(runtime: nat, grants: seq<Grant>, g: Grant)
    requires Acceptable(runtime, grants) && g.runtime == runtime && ValidGrant(g)
    requires forall k | 0 <= k < |grants| :: !SameKey(grants[k], g)
    ensures Acceptable(runtime, grants + [g])
  {
    SnocIsUnique(grants, g);
  }

  // ---------- the check ----------

  predicate Permits(g: Grant, runtime: nat, capability: string, namespace: string) {
    && g.runtime == runtime && g.capability == capability && g.enabled
    && (g.namespace == ANYWHERE || (namespace != "" && g.namespace == namespace))
  }

  predicate Granted(rows: seq<Grant>, runtime: nat, capability: string, namespace: string) {
    Known(capability) && exists g <- rows :: Permits(g, runtime, capability, namespace)
  }

  /** In a store of valid grants a cluster-only capability is granted for every namespace or for none. */
  lemma ClusterOnlyIgnoresNamespace(rows: seq<Grant>, runtime: nat, capability: string, one: string, two: string)
    requires AllValid(rows) && capability in CLUSTER_ONLY
    ensures Granted(rows, runtime, capability, one) <==> Granted(rows, runtime, capability, two)
  {
    assert forall g <- rows :: Permits(g, runtime, capability, one) <==> Permits(g, runtime, capability, two);
  }

  /** Without validity this fails: a grant that slipped in for one namespace would permit there and nowhere else. */
  lemma InvalidGrantIsLocal()
    ensures exists rows: seq<Grant> ::
            Unique(rows) && Granted(rows, 1, CLUSTER_ONLY[0], "a")
            && !Granted(rows, 1, CLUSTER_ONLY[0], "b")
  {
    var rows := [Grant(1, CLUSTER_ONLY[0], "a", true)];
    assert Permits(rows[0], 1, CLUSTER_ONLY[0], "a");
    assert Granted(rows, 1, CLUSTER_ONLY[0], "a") && !Granted(rows, 1, CLUSTER_ONLY[0], "b");
  }

  // ---------- the status view ----------

  datatype View = View(enabled: bool, cluster: bool, namespaces: seq<string>, approvalRequired: bool)

  function Blank(capability: string): View {
    View(false, false, [], capability in NEEDS_APPROVAL)
  }

  /** One grant folded into the view of its capability. */
  function Taken(v: View, g: Grant): View {
    if !g.enabled then v
    else if g.namespace == ANYWHERE then v.(enabled := true, cluster := true, namespaces := [ANYWHERE])
    else if v.cluster then v.(enabled := true)
    else v.(enabled := true, namespaces := v.namespaces + [g.namespace])
  }

  /** The view of one capability after a list of grants. */
  function ViewOf(capability: string, grants: seq<Grant>): View {
    if grants == [] then Blank(capability)
    else
      var before, last := ViewOf(capability, grants[..|grants| - 1]), grants[|grants| - 1];
      if last.capability == capability then Taken(before, last) else before
  }

  method InitialViews() returns (data: map<string, View>)
    ensures forall c :: c in data <==> Known(c)
    ensures forall c <- data :: data[c] == Blank(c)
  {
    data := map[];
    var all := CLUSTER_ONLY + NAMESPACED;
    for i := 0 to |all|
      invariant forall c :: c in data <==> c in all[..i]
      invariant forall c <- data :: data[c] == Blank(c)
    {
      assert all[..i + 1] == all[..i] + [all[i]];
      data := data[all[i] := Blank(all[i])];
    }
    assert all[..|all|] == all;
  }

  method CapabilityStatus(grants: seq<Grant>) returns (data: map<string, View>)
    ensures forall c :: c in data <==> Known(c)
    ensures forall c <- data :: data[c] == ViewOf(c, grants)
  {
    data := InitialViews();
    for i := 0 to |grants|
      invariant forall c :: c in data <==> Known(c)
      invariant forall c <- data :: data[c] == ViewOf(c, grants[..i])
    {
      assert grants[..i + 1][..i] == grants[..i];
      var grant := grants[i];
      if grant.enabled && grant.capability in data {
        var status := data[grant.capability];
        status := status.(enabled := true);
        if grant.namespace == ANYWHERE {
          status := status.(cluster := true, namespaces := [ANYWHERE]);
        } else if !status.cluster {
          status := status.(namespaces := status.namespaces + [grant.namespace]);
        }
        data := data[grant.capability := status];
      }
    }
    assert grants[..|grants|] == grants;
  }

  predicate Enables(g: Grant, capability: string) {
    g.enabled && g.capability == capability
  }

  /** The namespaces for which a list enables the capability. */
  function Spaces(capability: string, grants: seq<Grant>): set<string> {
    set g <- grants | Enables(g, capability) :: g.namespace
  }

  lemma SpacesLast(capability: string, grants: seq<Grant>, last: Grant)
    ensures Spaces(capability, grants + [last]) ==
              Spaces(capability, grants) + if Enables(last, capability) then {last.namespace} else {}
  {
  }

  lemma {:induction false} ViewFacts(capability: string, grants: seq<Grant>)
    ensures var v, spaces := ViewOf(capability, grants), Spaces(capability, grants);
            && (v.enabled <==> spaces != {})
            && (v.cluster <==> ANYWHERE in spaces)
            && (v.cluster ==> v.namespaces == [ANYWHERE])
            && (!v.cluster ==> forall n :: n in v.namespaces <==> n in spaces)
  {
    if grants != [] {
      var before, last := grants[..|grants| - 1], grants[|grants| - 1];
      ViewFacts(capability, before);
      SpacesLast(capability, before, last);
      assert grants == before + [last];
    }
  }

  predicate Shows(v: View, namespace: string) {
    v.enabled && (ANYWHERE in v.namespaces || namespace in v.namespaces)
  }

  /** `grants` lists the grants of one Runtime, in any order. */
  ghost predicate Lists(grants: seq<Grant>, rows: seq<Grant>, runtime: nat) {
    forall g :: g in grants <==> g in rows && g.runtime == runtime
  }

  /** The view and the check agree: for every namespace in any store, and for the cluster-wide question in a store
      of valid grants. */
  lemma ViewAgreesWithCheck(grants: seq<Grant>, rows: seq<Grant>, runtime: nat, capability: string, namespace: string)
    requires Lists(grants, rows, runtime) && Known(capability)
    requires namespace == "" ==> AllValid(rows)
    ensures Shows(ViewOf(capability, grants), namespace) <==> Granted(rows, runtime, capability, namespace)
  {
    ViewFacts(capability, grants);
    var spaces := Spaces(capability, grants);
    if namespace == "" {
      forall g | g in grants
        ensures g.namespace != ""
      {
        ValidGrantNamesSomething(g);
      }
    }
    if Granted(rows, runtime, capability, namespace) {
      var g :| g in rows && Permits(g, runtime, capability, namespace);
      assert g.namespace in spaces;
    }
    if Shows(ViewOf(capability, grants), namespace) {
      var n :| n in spaces && (n == ANYWHERE || n == namespace);
      var g :| g in grants && Enables(g, capability) && g.namespace == n;
      assert Permits(g, runtime, capability, namespace);
    }
  }

  /** In every store reached through replacements, view and check agree on all questions, and cluster-only
      capabilities on all namespaces. */
  lemma ReachableViewAgrees(run: seq<Replacement>, grants: seq<Grant>, runtime: nat, capability: string,
      namespace: string, other: string)
    requires Lists(grants, Exec(run), runtime) && Known(capability)
    ensures Shows(ViewOf(capability, grants), namespace) <==> Granted(Exec(run), runtime, capability, namespace)
    ensures capability in CLUSTER_ONLY ==>
              (Shows(ViewOf(capability, grants), namespace) <==> Granted(Exec(run), runtime, capability, other))
  {
    ReachableStoreIsValid(run);
    ViewAgreesWithCheck(grants, Exec(run), runtime, capability, namespace);
    if capability in CLUSTER_ONLY {
      ClusterOnlyIgnoresNamespace(Exec(run), runtime, capability, namespace, other);
    }
  }

  /** The view does not depend on the order of the grants, except for the order in which it lists the namespaces. */
  lemma ViewIgnoresOrder(capability: string, one: seq<Grant>, two: seq<Grant>)
    requires forall g :: g in one <==> g in two
    ensures var v, w := ViewOf(capability, one), ViewOf(capability, two);
            v.enabled == w.enabled && v.cluster == w.cluster && v.approvalRequired == w.approvalRequired
            && forall n :: n in v.namespaces <==> n in w.namespaces
  {
    ViewFacts(capability, one);
    ViewFacts(capability, two);
    ApprovalIsFixed(capability, one);
    ApprovalIsFixed(capability, two);
    assert Spaces(capability, one) == Spaces(capability, two);
  }

  lemma {:induction false} ApprovalIsFixed(capability: string, grants: seq<Grant>)
    ensures ViewOf(capability, grants).approvalRequired <==>
              capability == "deployment.scale" || capability == "registry.pull_check"
                  || capability == "maintenance.cleanup"
  {
    if grants != [] {
      ApprovalIsFixed(capability, grants[..|grants| - 1]);
    }
  }
}
