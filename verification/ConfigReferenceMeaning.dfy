/** What a reference means: which fields of which workloads a scan reports, how often, and in which order. */
module ConfigReferenceMeaning {
  import opened Wrappers
  import opened ConfigReferences

  // ---------- the fields ----------

  predicate EnvFromUses(e: EnvFrom, kind: ResourceKind, name: string) {
    (kind == ConfigMap && e.configMap == Some(name)) || (kind == Secret && e.secret == Some(name))
  }

  predicate EnvUses(e: Env, kind: ResourceKind, name: string) {
    && e.valueFrom.Some?
    && ((kind == ConfigMap && e.valueFrom.value.configMapKey == Some(name))
        || (kind == Secret && e.valueFrom.value.secretKey == Some(name)))
  }

  predicate VolumeUses(v: Volume, kind: ResourceKind, name: string) {
    (kind == ConfigMap && v.configMap == Some(name)) || (kind == Secret && v.secret == Some(name))
  }

  /** The places of a list that use the resource. */
  function EnvFromPlaces(es: seq<EnvFrom>, kind: ResourceKind, name: string): set<nat> {
    set i: nat | i < |es| && EnvFromUses(es[i], kind, name)
  }

  function EnvPlaces(es: seq<Env>, kind: ResourceKind, name: string): set<nat> {
    set i: nat | i < |es| && EnvUses(es[i], kind, name)
  }

  function VolumePlaces(vs: seq<Volume>, kind: ResourceKind, name: string): set<nat> {
    set i: nat | i < |vs| && VolumeUses(vs[i], kind, name)
  }

  function ContainerUses(c: Container, kind: ResourceKind, name: string, t: RefType): nat {
    match t
    case FromEnvFrom => |EnvFromPlaces(c.envFrom, kind, name)|
    case FromEnv => |EnvPlaces(c.env, kind, name)|
    case FromVolume => 0
  }

  function ContainersUse(cs: seq<Container>, kind: ResourceKind, name: string, t: RefType): nat {
    if cs == [] then 0
    else ContainersUse(cs[..|cs| - 1], kind, name, t) + ContainerUses(cs[|cs| - 1], kind, name, t)
  }

  /** How many places of a Pod use the resource in one way. */
  function PodUses(spec: PodSpec, kind: ResourceKind, name: string, t: RefType): nat {
    ContainersUse(spec.containers, kind, name, t)
      + if t == FromVolume then |VolumePlaces(spec.volumes, kind, name)| else 0
  }

  /** How many places of the workloads of one name. */
  function WorkloadsUse(items: seq<Workload>, workload: string, kind: ResourceKind, name: string, t: RefType): nat {
    if items == [] then 0
    else
      var w := items[|items| - 1];
      WorkloadsUse(items[..|items| - 1], workload, kind, name, t)
        + if w.name == workload then PodUses(w.spec, kind, name, t) else 0
  }

  // ---------- what a Pod mentions ----------

  function Times(ms: seq<Mention>, name: string, t: RefType): nat {
    multiset(ms)[Mention(name, t)]
  }

  lemma TimesConcat(a: seq<Mention>, b: seq<Mention>, name: string, t: RefType)
    ensures Times(a + b, name, t) == Times(a, name, t) + Times(b, name, t)
  {
  }

  lemma TimesMentioned(n: Option<string>, as_: RefType, name: string, t: RefType)
    ensures Times(Mentioned(n, as_), name, t) == if n == Some(name) && as_ == t then 1 else 0
  {
  }

  lemma EnvFromPlacesLast(es: seq<EnvFrom>, kind: ResourceKind, name: string)
    requires es != []
    ensures |EnvFromPlaces(es, kind, name)| ==
              |EnvFromPlaces(es[..|es| - 1], kind, name)| + if EnvFromUses(es[|es| - 1], kind, name) then 1 else 0
  {
    var n := |es| - 1;
    var before := EnvFromPlaces(es[..n], kind, name);
    if EnvFromUses(es[n], kind, name) {
      assert EnvFromPlaces(es, kind, name) == before + {n};
    } else {
      assert EnvFromPlaces(es, kind, name) == before;
    }
  }

  lemma {:induction false} EnvFromsMention(es: seq<EnvFrom>, kind: ResourceKind, name: string, t: RefType)
    ensures Times(OfEnvFroms(es, kind), name, t) == if t == FromEnvFrom then |EnvFromPlaces(es, kind, name)| else 0
  {
    if es == [] {
      assert EnvFromPlaces(es, kind, name) == {};
    } else {
      var n := |es| - 1;
      EnvFromsMention(es[..n], kind, name, t);
      TimesConcat(OfEnvFroms(es[..n], kind), OfEnvFrom(es[n], kind), name, t);
      TimesMentioned(if kind.ConfigMap? then es[n].configMap else es[n].secret, FromEnvFrom, name, t);
      EnvFromPlacesLast(es, kind, name);
    }
  }

  lemma EnvMentions(e: Env, kind: ResourceKind, name: string, t: RefType)
    ensures Times(OfEnv(e, kind), name, t) == if t == FromEnv && EnvUses(e, kind, name) then 1 else 0
  {
    if e.valueFrom.Some? {
      var v := e.valueFrom.value;
      TimesMentioned(if kind.ConfigMap? then v.configMapKey else v.secretKey, FromEnv, name, t);
    }
  }

  lemma EnvPlacesLast(es: seq<Env>, kind: ResourceKind, name: string)
    requires es != []
    ensures |EnvPlaces(es, kind, name)| ==
              |EnvPlaces(es[..|es| - 1], kind, name)| + if EnvUses(es[|es| - 1], kind, name) then 1 else 0
  {
    var n := |es| - 1;
    var before := EnvPlaces(es[..n], kind, name);
    if EnvUses(es[n], kind, name) {
      assert EnvPlaces(es, kind, name) == before + {n};
    } else {
      assert EnvPlaces(es, kind, name) == before;
    }
  }

  lemma {:induction false} EnvsMention(es: seq<Env>, kind: ResourceKind, name: string, t: RefType)
    ensures Times(OfEnvs(es, kind), name, t) == if t == FromEnv then |EnvPlaces(es, kind, name)| else 0
  {
    if es == [] {
      assert EnvPlaces(es, kind, name) == {};
    } else {
      var n := |es| - 1;
      EnvsMention(es[..n], kind, name, t);
      TimesConcat(OfEnvs(es[..n], kind), OfEnv(es[n], kind), name, t);
      EnvMentions(es[n], kind, name, t);
      EnvPlacesLast(es, kind, name);
    }
  }

  lemma VolumePlacesLast(vs: seq<Volume>, kind: ResourceKind, name: string)
    requires vs != []
    ensures |VolumePlaces(vs, kind, name)| ==
              |VolumePlaces(vs[..|vs| - 1], kind, name)| + if VolumeUses(vs[|vs| - 1], kind, name) then 1 else 0
  {
    var n := |vs| - 1;
    var before := VolumePlaces(vs[..n], kind, name);
    if VolumeUses(vs[n], kind, name) {
      assert VolumePlaces(vs, kind, name) == before + {n};
    } else {
      assert VolumePlaces(vs, kind, name) == before;
    }
  }

  lemma {:induction false} VolumesMention(vs: seq<Volume>, kind: ResourceKind, name: string, t: RefType)
    ensures Times(OfVolumes(vs, kind), name, t) == if t == FromVolume then |VolumePlaces(vs, kind, name)| else 0
  {
    if vs == [] {
      assert VolumePlaces(vs, kind, name) == {};
    } else {
      var n := |vs| - 1;
      VolumesMention(vs[..n], kind, name, t);
      TimesConcat(OfVolumes(vs[..n], kind), OfVolume(vs[n], kind), name, t);
      TimesMentioned(if kind.ConfigMap? then vs[n].configMap else vs[n].secret, FromVolume, name, t);
      VolumePlacesLast(vs, kind, name);
    }
  }

  lemma ContainerMentions(c: Container, kind: ResourceKind, name: string, t: RefType)
    ensures Times(OfContainer(c, kind), name, t) == ContainerUses(c, kind, name, t)
  {
    EnvFromsMention(c.envFrom, kind, name, t);
    EnvsMention(c.env, kind, name, t);
    TimesConcat(OfEnvFroms(c.envFrom, kind), OfEnvs(c.env, kind), name, t);
  }

  lemma {:induction false} ContainersMention(cs: seq<Container>, kind: ResourceKind, name: string, t: RefType)
    ensures Times(OfContainers(cs, kind), name, t) == ContainersUse(cs, kind, name, t)
  {
    if cs != [] {
      var n := |cs| - 1;
      ContainersMention(cs[..n], kind, name, t);
      ContainerMentions(cs[n], kind, name, t);
      TimesConcat(OfContainers(cs[..n], kind), OfContainer(cs[n], kind), name, t);
    }
  }

  /** A Pod mentions a resource in one way as often as its fields use it in that way. */
  lemma PodMentions(spec: PodSpec, kind: ResourceKind, name: string, t: RefType)
    ensures Times(Mentions(spec, kind), name, t) == PodUses(spec, kind, name, t)
  {
    ContainersMention(spec.containers, kind, name, t);
    VolumesMention(spec.volumes, kind, name, t);
    TimesConcat(OfContainers(spec.containers, kind), OfVolumes(spec.volumes, kind), name, t);
  }

  // ---------- what a scan reports ----------

  lemma {:induction false} RefsAmongCount(ms: seq<Mention>, wk: WorkloadKind, workload: string, name: string,
      ref: WorkloadRef)
    ensures multiset(RefsAmong(ms, wk, workload, name))[ref] ==
              if ref.kind == wk && ref.name == workload then Times(ms, name, ref.refType) else 0
  {
    if ms != [] {
      var n := |ms| - 1;
      RefsAmongCount(ms[..n], wk, workload, name, ref);
      TimesConcat(ms[..n], [ms[n]], name, ref.refType);
      assert ms == ms[..n] + [ms[n]];
    }
  }

  lemma {:induction false} RefsInCount(items: seq<Workload>, wk: WorkloadKind, name: string, kind: ResourceKind,
      ref: WorkloadRef)
    ensures multiset(RefsIn(items, wk, name, kind))[ref] ==
              if ref.kind == wk then WorkloadsUse(items, ref.name, kind, name, ref.refType) else 0
  {
    if items != [] {
      var before, w := items[..|items| - 1], items[|items| - 1];
      RefsInCount(before, wk, name, kind, ref);
      RefsAmongCount(Mentions(w.spec, kind), wk, w.name, name, ref);
      PodMentions(w.spec, kind, name, ref.refType);
    }
  }

  /** A scan reports each reference exactly as often as fields of the listed workloads of that kind and name use the
      resource in that way. */
  lemma ScanCounts(c: Cluster, namespace: string, name: string, kind: ResourceKind, ref: WorkloadRef)
    ensures multiset(Scan(c, namespace, name, kind))[ref] ==
              WorkloadsUse(Listed(c, ref.kind, namespace), ref.name, kind, name, ref.refType)
  {
    RefsInCount(Listed(c, Deployment, namespace), Deployment, name, kind, ref);
    RefsInCount(Listed(c, StatefulSet, namespace), StatefulSet, name, kind, ref);
    RefsInCount(Listed(c, DaemonSet, namespace), DaemonSet, name, kind, ref);
  }

  // ---------- membership ----------

  /** Some field of the Pod uses the resource in this way. */
  ghost predicate Uses(spec: PodSpec, kind: ResourceKind, name: string, t: RefType) {
    match t
    case FromEnvFrom => exists c <- spec.containers :: exists e <- c.envFrom :: EnvFromUses(e, kind, name)
    case FromEnv => exists c <- spec.containers :: exists e <- c.env :: EnvUses(e, kind, name)
    case FromVolume => exists v <- spec.volumes :: VolumeUses(v, kind, name)
  }

  ghost predicate ContainerHas(c: Container, kind: ResourceKind, name: string, t: RefType) {
    match t
    case FromEnvFrom => exists e <- c.envFrom :: EnvFromUses(e, kind, name)
    case FromEnv => exists e <- c.env :: EnvUses(e, kind, name)
    case FromVolume => false
  }

  lemma NonEmptyIff(s: set<nat>)
    ensures |s| > 0 <==> exists i :: i in s
  {
    if s != {} {
      var i :| i in s;
    }
  }

  lemma ContainerUsesIff(c: Container, kind: ResourceKind, name: string, t: RefType)
    ensures ContainerUses(c, kind, name, t) > 0 <==> ContainerHas(c, kind, name, t)
  {
    match t
    case FromEnvFrom =>
      NonEmptyIff(EnvFromPlaces(c.envFrom, kind, name));
      if e :| e in c.envFrom && EnvFromUses(e, kind, name) {
        var i :| 0 <= i < |c.envFrom| && c.envFrom[i] == e;
        assert i in EnvFromPlaces(c.envFrom, kind, name);
      }
    case FromEnv =>
      NonEmptyIff(EnvPlaces(c.env, kind, name));
      if e :| e in c.env && EnvUses(e, kind, name) {
        var i :| 0 <= i < |c.env| && c.env[i] == e;
        assert i in EnvPlaces(c.env, kind, name);
      }
    case FromVolume =>
  }

  lemma {:induction false} ContainersUseIff(cs: seq<Container>, kind: ResourceKind, name: string, t: RefType)
    ensures ContainersUse(cs, kind, name, t) > 0 <==> exists c <- cs :: ContainerHas(c, kind, name, t)
  {
    if cs != [] {
      var before, last := cs[..|cs| - 1], cs[|cs| - 1];
      ContainersUseIff(before, kind, name, t);
      ContainerUsesIff(last, kind, name, t);
      assert forall c :: c in cs <==> c in before || c == last by {
        assert cs == before + [last];
      }
    }
  }

  lemma VolumeUsesIff(vs: seq<Volume>, kind: ResourceKind, name: string)
    ensures |VolumePlaces(vs, kind, name)| > 0 <==> exists v <- vs :: VolumeUses(v, kind, name)
  {
    NonEmptyIff(VolumePlaces(vs, kind, name));
    if v :| v in vs && VolumeUses(v, kind, name) {
      var i :| 0 <= i < |vs| && vs[i] == v;
      assert i in VolumePlaces(vs, kind, name);
    }
  }

  lemma PodUsesIff(spec: PodSpec, kind: ResourceKind, name: string, t: RefType)
    ensures PodUses(spec, kind, name, t) > 0 <==> Uses(spec, kind, name, t)
  {
    ContainersUseIff(spec.containers, kind, name, t);
    VolumeUsesIff(spec.volumes, kind, name);
  }

  lemma {:induction false} WorkloadsUseIff(items: seq<Workload>, workload: string, kind: ResourceKind, name: string,
      t: RefType)
    ensures WorkloadsUse(items, workload, kind, name, t) > 0 <==>
              exists w <- items :: w.name == workload && Uses(w.spec, kind, name, t)
  {
    if items != [] {
      var before, last := items[..|items| - 1], items[|items| - 1];
      WorkloadsUseIff(before, workload, kind, name, t);
      PodUsesIff(last.spec, kind, name, t);
      assert forall w :: w in items <==> w in before || w == last by {
        assert items == before + [last];
      }
    }
  }

  lemma {:induction false} InNamespaceIff(items: seq<Workload>, namespace: string, w: Workload)
    ensures w in InNamespace(items, namespace) <==> w in items && w.namespace == namespace
  {
    if items != [] {
      InNamespaceIff(items[..|items| - 1], namespace, w);
      assert items == items[..|items| - 1] + [items[|items| - 1]];
    }
  }

  /** The workloads of one kind that a list of a namespace shows. */
  predicate Shown(c: Cluster, wk: WorkloadKind, namespace: string, w: Workload) {
    && (wk, namespace) !in c.unreadable
    && wk in c.workloads && w in c.workloads[wk] && (namespace == "" || w.namespace == namespace)
  }

  lemma ListedIff(c: Cluster, wk: WorkloadKind, namespace: string, w: Workload)
    ensures w in Listed(c, wk, namespace) <==> Shown(c, wk, namespace, w)
  {
    if wk in c.workloads {
      InNamespaceIff(c.workloads[wk], namespace, w);
    }
  }

  lemma Counted(refs: seq<WorkloadRef>, ref: WorkloadRef)
    ensures ref in refs <==> multiset(refs)[ref] > 0
  {
  }

  /** A scan reports a reference exactly when some workload of that kind and name, in that namespace, has an envFrom
      entry, an environment value or a volume, as the reference says, that names the resource. */
  lemma ScanIff(c: Cluster, namespace: string, name: string, kind: ResourceKind, ref: WorkloadRef)
    ensures ref in Scan(c, namespace, name, kind) <==>
              exists w: Workload ::
                Shown(c, ref.kind, namespace, w) && w.name == ref.name && Uses(w.spec, kind, name, ref.refType)
  {
    ScanCounts(c, namespace, name, kind, ref);
    Counted(Scan(c, namespace, name, kind), ref);
    WorkloadsUseIff(Listed(c, ref.kind, namespace), ref.name, kind, name, ref.refType);
    forall w: Workload
      ensures w in Listed(c, ref.kind, namespace) <==> Shown(c, ref.kind, namespace, w)
    {
      ListedIff(c, ref.kind, namespace, w);
    }
  }

  // ---------- order ----------

  function Rank(wk: WorkloadKind): nat {
    match wk
    case Deployment => 0
    case StatefulSet => 1
    case DaemonSet => 2
  }

  lemma {:induction false} RefsInKind(items: seq<Workload>, wk: WorkloadKind, name: string, kind: ResourceKind, i: nat)
    requires i < |RefsIn(items, wk, name, kind)|
    ensures RefsIn(items, wk, name, kind)[i].kind == wk
  {
    var ref := RefsIn(items, wk, name, kind)[i];
    Counted(RefsIn(items, wk, name, kind), ref);
    RefsInCount(items, wk, name, kind, ref);
  }

  /** Deployments come first, then StatefulSets, then DaemonSets. */
  lemma ScanIsOrdered(c: Cluster, namespace: string, name: string, kind: ResourceKind, i: nat, j: nat)
    requires i < j < |Scan(c, namespace, name, kind)|
    ensures Rank(Scan(c, namespace, name, kind)[i].kind) <= Rank(Scan(c, namespace, name, kind)[j].kind)
  {
    var d := RefsIn(Listed(c, Deployment, namespace), Deployment, name, kind);
    var s := RefsIn(Listed(c, StatefulSet, namespace), StatefulSet, name, kind);
    var e := RefsIn(Listed(c, DaemonSet, namespace), DaemonSet, name, kind);
    forall k: nat | k < |d| ensures d[k].kind == Deployment {
      RefsInKind(Listed(c, Deployment, namespace), Deployment, name, kind, k);
    }
    forall k: nat | k < |s| ensures s[k].kind == StatefulSet {
      RefsInKind(Listed(c, StatefulSet, namespace), StatefulSet, name, kind, k);
    }
    forall k: nat | k < |e| ensures e[k].kind == DaemonSet {
      RefsInKind(Listed(c, DaemonSet, namespace), DaemonSet, name, kind, k);
    }
    OrderedConcat(d, s, e, i, j);
  }

  lemma OrderedConcat(d: seq<WorkloadRef>, s: seq<WorkloadRef>, e: seq<WorkloadRef>, i: nat, j: nat)
    requires (forall k | 0 <= k < |d| :: d[k].kind == Deployment)
             && (forall k | 0 <= k < |s| :: s[k].kind == StatefulSet)
    requires (forall k | 0 <= k < |e| :: e[k].kind == DaemonSet) && i < j < |d + s + e|
    ensures Rank((d + s + e)[i].kind) <= Rank((d + s + e)[j].kind)
  {
  }
}
