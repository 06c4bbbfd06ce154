/** The loops that build the reference index and the loops that scan for one resource. */
module ConfigReferenceIndex {
  import opened Wrappers
  import opened ConfigReferences

  lemma AppendMentioned(refs: Refs, namespace: string, wk: WorkloadKind, workload: string, name: Option<string>,
      t: RefType)
    ensures AllAppended(refs, namespace, wk, workload, Mentioned(name, t)) ==
            if name.Some? then Appended(refs, namespace, wk, workload, Mention(name.value, t)) else refs
  {
    if name.Some? {
      assert Mentioned(name, t)[..0] == [];
    }
  }

  lemma FindMentioned(wk: WorkloadKind, workload: string, wanted: string, name: Option<string>, t: RefType)
    ensures RefsAmong(Mentioned(name, t), wk, workload, wanted) ==
              if name == Some(wanted) then [WorkloadRef(wk, workload, t)] else []
  {
    if name.Some? {
      assert Mentioned(name, t)[..0] == [];
    }
  }

  lemma AppendContainers(refs: Refs, namespace: string, wk: WorkloadKind, workload: string, cs: seq<Container>, i: nat,
      kind: ResourceKind)
    requires i < |cs|
    ensures AllAppended(refs, namespace, wk, workload, OfContainers(cs[..i + 1], kind)) ==
            AllAppended(AllAppended(refs, namespace, wk, workload, OfContainers(cs[..i], kind)), namespace, wk,
                workload, OfContainer(cs[i], kind))
  {
    assert cs[..i + 1][..i] == cs[..i];
    AllAppendedConcat(refs, namespace, wk, workload, OfContainers(cs[..i], kind), OfContainer(cs[i], kind));
  }

  /** The shared map that the index is built into. */
  class ReferenceIndex {
    var refs: Refs

    constructor ()
      ensures refs == map[]
    {
      refs := map[];
    }

    method Append(namespace: string, wk: WorkloadKind, workload: string, name: string, refType: RefType)
      modifies this
      ensures refs == Appended(old(refs), namespace, wk, workload, Mention(name, refType))
    {
      if name == "" {
        return;
      }
      var key := Key(namespace, name);
      refs := refs[key := (if key in refs then refs[key] else []) + [WorkloadRef(wk, workload, refType)]];
    }

    method AppendOptional(namespace: string, wk: WorkloadKind, workload: string, name: Option<string>, refType: RefType)
      modifies this
      ensures refs == AllAppended(old(refs), namespace, wk, workload, Mentioned(name, refType))
    {
      AppendMentioned(refs, namespace, wk, workload, name, refType);
      if name.Some? {
        Append(namespace, wk, workload, name.value, refType);
      }
    }

    method IndexEnvFroms(namespace: string, wk: WorkloadKind, workload: string, es: seq<EnvFrom>, kind: ResourceKind)
      modifies this
      ensures refs == AllAppended(old(refs), namespace, wk, workload, OfEnvFroms(es, kind))
    {
      for i := 0 to |es|
        invariant refs == AllAppended(old(refs), namespace, wk, workload, OfEnvFroms(es[..i], kind))
      {
        assert es[..i + 1][..i] == es[..i];
        AllAppendedConcat(old(refs), namespace, wk, workload, OfEnvFroms(es[..i], kind), OfEnvFrom(es[i], kind));
        AppendOptional(namespace, wk, workload, if kind.ConfigMap? then es[i].configMap else es[i].secret, FromEnvFrom);
      }
      assert es[..|es|] == es;
    }

    method IndexEnvs(namespace: string, wk: WorkloadKind, workload: string, es: seq<Env>, kind: ResourceKind)
      modifies this
      ensures refs == AllAppended(old(refs), namespace, wk, workload, OfEnvs(es, kind))
    {
      for i := 0 to |es|
        invariant refs == AllAppended(old(refs), namespace, wk, workload, OfEnvs(es[..i], kind))
      {
        assert es[..i + 1][..i] == es[..i];
        AllAppendedConcat(old(refs), namespace, wk, workload, OfEnvs(es[..i], kind), OfEnv(es[i], kind));
        IndexEnv(namespace, wk, workload, es[i], kind);
      }
      assert es[..|es|] == es;
    }

    method IndexEnv(namespace: string, wk: WorkloadKind, workload: string, e: Env, kind: ResourceKind)
      modifies this
      ensures refs == AllAppended(old(refs), namespace, wk, workload, OfEnv(e, kind))
    {
      if e.valueFrom.None? {
        return;
      }
      var v := e.valueFrom.value;
      AppendOptional(namespace, wk, workload, if kind.ConfigMap? then v.configMapKey else v.secretKey, FromEnv);
    }

    method IndexVolumes(namespace: string, wk: WorkloadKind, workload: string, vs: seq<Volume>, kind: ResourceKind)
      modifies this
      ensures refs == AllAppended(old(refs), namespace, wk, workload, OfVolumes(vs, kind))
    {
      for i := 0 to |vs|
        invariant refs == AllAppended(old(refs), namespace, wk, workload, OfVolumes(vs[..i], kind))
      {
        assert vs[..i + 1][..i] == vs[..i];
        AllAppendedConcat(old(refs), namespace, wk, workload, OfVolumes(vs[..i], kind), OfVolume(vs[i], kind));
        AppendOptional(namespace, wk, workload, if kind.ConfigMap? then vs[i].configMap else vs[i].secret, FromVolume);
      }
      assert vs[..|vs|] == vs;
    }

    method IndexContainer(namespace: string, wk: WorkloadKind, workload: string, c: Container, kind: ResourceKind)
      modifies this
      ensures refs == AllAppended(old(refs), namespace, wk, workload, OfContainer(c, kind))
    {
      AllAppendedConcat(refs, namespace, wk, workload, OfEnvFroms(c.envFrom, kind), OfEnvs(c.env, kind));
      IndexEnvFroms(namespace, wk, workload, c.envFrom, kind);
      IndexEnvs(namespace, wk, workload, c.env, kind);
    }

    method IndexContainers(namespace: string, wk: WorkloadKind, workload: string, cs: seq<Container>,
        kind: ResourceKind)
      modifies this
      ensures refs == AllAppended(old(refs), namespace, wk, workload, OfContainers(cs, kind))
    {
      for i := 0 to |cs|
        invariant refs == AllAppended(old(refs), namespace, wk, workload, OfContainers(cs[..i], kind))
      {
        AppendContainers(old(refs), namespace, wk, workload, cs, i, kind);
        IndexContainer(namespace, wk, workload, cs[i], kind);
      }
      assert cs[..|cs|] == cs;
    }

    /** `indexWorkloadConfigRefs`: the workload's mentions are appended in order, each under its own resource. */
    method IndexWorkload(namespace: string, workload: string, wk: WorkloadKind, spec: PodSpec, kind: ResourceKind)
      modifies this
      ensures refs == AllAppended(old(refs), namespace, wk, workload, Mentions(spec, kind))
    {
      AllAppendedConcat(refs, namespace, wk, workload, OfContainers(spec.containers, kind),
          OfVolumes(spec.volumes, kind));
      IndexContainers(namespace, wk, workload, spec.containers, kind);
      IndexVolumes(namespace, wk, workload, spec.volumes, kind);
    }

    method IndexItems(items: seq<Workload>, wk: WorkloadKind, kind: ResourceKind)
      modifies this
      ensures refs == Indexed(old(refs), items, wk, kind)
    {
      for i := 0 to |items|
        invariant refs == Indexed(old(refs), items[..i], wk, kind)
      {
        assert items[..i + 1][..i] == items[..i];
        IndexWorkload(items[i].namespace, items[i].name, wk, items[i].spec, kind);
      }
      assert items[..|items|] == items;
    }

    /** `buildConfigReferenceIndex`. */
    method Build(c: Cluster, namespaces: seq<string>, kind: ResourceKind)
      requires refs == map[]
      modifies this
      ensures refs == Index(c, namespaces, kind)
    {
      for i := 0 to |namespaces|
        invariant refs == Index(c, namespaces[..i], kind)
      {
        assert namespaces[..i + 1][..i] == namespaces[..i];
        IndexItems(Listed(c, Deployment, namespaces[i]), Deployment, kind);
        IndexItems(Listed(c, StatefulSet, namespaces[i]), StatefulSet, kind);
        IndexItems(Listed(c, DaemonSet, namespaces[i]), DaemonSet, kind);
      }
      assert namespaces[..|namespaces|] == namespaces;
    }
  }

  /** Some item of `n` comes before every item of `m`. */
  ghost predicate SeenBefore(items: seq<Key>, n: string, m: string) {
    exists k | 0 <= k < |items| :: items[k].namespace == n && forall l | 0 <= l <= k :: items[l].namespace != m
  }

  /** `referenceNamespacesFromConfigMaps` and its twin: each namespace of the list once, in order of first
      appearance. */
  method ReferenceNamespaces(items: seq<Key>) returns (namespaces: seq<string>)
    ensures Distinct(namespaces)
    ensures forall i | 0 <= i < |items| :: items[i].namespace in namespaces
    ensures forall n <- namespaces :: exists i | 0 <= i < |items| :: items[i].namespace == n
    ensures forall i, j | 0 <= i < j < |namespaces| :: SeenBefore(items, namespaces[i], namespaces[j])
  {
    namespaces := [];
    var seen: set<string> := {};
    for i := 0 to |items|
      invariant Distinct(namespaces)
      invariant forall n :: n in seen <==> n in namespaces
      invariant forall k | 0 <= k < i :: items[k].namespace in seen
      invariant forall n <- namespaces :: exists k | 0 <= k < i :: items[k].namespace == n
      invariant forall p, q | 0 <= p < q < |namespaces| :: SeenBefore(items, namespaces[p], namespaces[q])
    {
      ghost var before := namespaces;
      if items[i].namespace !in seen {
        seen := seen + {items[i].namespace};
        namespaces := namespaces + [items[i].namespace];
        forall p | 0 <= p < |before|
          ensures SeenBefore(items, before[p], items[i].namespace)
        {
          assert before[p] in before;
          var k :| 0 <= k < i && items[k].namespace == before[p];
          assert forall l | 0 <= l <= k :: items[l].namespace != items[i].namespace;
        }
      }
    }
  }

  /** `findConfigRefs` for one kind of workload. */
  method FindRefsIn(items: seq<Workload>, wk: WorkloadKind, name: string, kind: ResourceKind)
      returns (refs: seq<WorkloadRef>)
    ensures refs == RefsIn(items, wk, name, kind)
  {
    refs := [];
    for i := 0 to |items|
      invariant refs == RefsIn(items[..i], wk, name, kind)
    {
      assert items[..i + 1][..i] == items[..i];
      var more := FindRefsInWorkload(items[i], wk, name, kind);
      refs := refs + more;
    }
    assert items[..|items|] == items;
  }

  method FindInEnvFroms(es: seq<EnvFrom>, wk: WorkloadKind, workload: string, name: string, kind: ResourceKind)
    returns (refs: seq<WorkloadRef>)
    ensures refs == RefsAmong(OfEnvFroms(es, kind), wk, workload, name)
  {
    refs := [];
    for i := 0 to |es|
      invariant refs == RefsAmong(OfEnvFroms(es[..i], kind), wk, workload, name)
    {
      assert es[..i + 1][..i] == es[..i];
      RefsAmongConcat(OfEnvFroms(es[..i], kind), OfEnvFrom(es[i], kind), wk, workload, name);
      FindMentioned(wk, workload, name, if kind.ConfigMap? then es[i].configMap else es[i].secret, FromEnvFrom);
      if kind.ConfigMap? && es[i].configMap == Some(name) {
        refs := refs + [WorkloadRef(wk, workload, FromEnvFrom)];
      }
      if kind.Secret? && es[i].secret == Some(name) {
        refs := refs + [WorkloadRef(wk, workload, FromEnvFrom)];
      }
    }
    assert es[..|es|] == es;
  }

  method FindInEnvs(es: seq<Env>, wk: WorkloadKind, workload: string, name: string, kind: ResourceKind)
    returns (refs: seq<WorkloadRef>)
    ensures refs == RefsAmong(OfEnvs(es, kind), wk, workload, name)
  {
    refs := [];
    for i := 0 to |es|
      invariant refs == RefsAmong(OfEnvs(es[..i], kind), wk, workload, name)
    {
      assert es[..i + 1][..i] == es[..i];
      RefsAmongConcat(OfEnvs(es[..i], kind), OfEnv(es[i], kind), wk, workload, name);
      if es[i].valueFrom.Some? {
        var v := es[i].valueFrom.value;
        FindMentioned(wk, workload, name, if kind.ConfigMap? then v.configMapKey else v.secretKey, FromEnv);
        if kind.ConfigMap? && v.configMapKey == Some(name) {
          refs := refs + [WorkloadRef(wk, workload, FromEnv)];
        }
        if kind.Secret? && v.secretKey == Some(name) {
          refs := refs + [WorkloadRef(wk, workload, FromEnv)];
        }
      }
    }
    assert es[..|es|] == es;
  }

  method FindInVolumes(vs: seq<Volume>, wk: WorkloadKind, workload: string, name: string, kind: ResourceKind)
    returns (refs: seq<WorkloadRef>)
    ensures refs == RefsAmong(OfVolumes(vs, kind), wk, workload, name)
  {
    refs := [];
    for i := 0 to |vs|
      invariant refs == RefsAmong(OfVolumes(vs[..i], kind), wk, workload, name)
    {
      assert vs[..i + 1][..i] == vs[..i];
      RefsAmongConcat(OfVolumes(vs[..i], kind), OfVolume(vs[i], kind), wk, workload, name);
      FindMentioned(wk, workload, name, if kind.ConfigMap? then vs[i].configMap else vs[i].secret, FromVolume);
      if kind.ConfigMap? && vs[i].configMap == Some(name) {
        refs := refs + [WorkloadRef(wk, workload, FromVolume)];
      }
      if kind.Secret? && vs[i].secret == Some(name) {
        refs := refs + [WorkloadRef(wk, workload, FromVolume)];
      }
    }
    assert vs[..|vs|] == vs;
  }

  method FindInContainer(c: Container, wk: WorkloadKind, workload: string, name: string, kind: ResourceKind)
      returns (refs: seq<WorkloadRef>)
    ensures refs == RefsAmong(OfContainer(c, kind), wk, workload, name)
  {
    RefsAmongConcat(OfEnvFroms(c.envFrom, kind), OfEnvs(c.env, kind), wk, workload, name);
    var fromSources := FindInEnvFroms(c.envFrom, wk, workload, name, kind);
    var fromValues := FindInEnvs(c.env, wk, workload, name, kind);
    refs := fromSources + fromValues;
  }

  lemma FindContainers(wk: WorkloadKind, workload: string, name: string, cs: seq<Container>, i: nat, kind: ResourceKind)
    requires i < |cs|
    ensures RefsAmong(OfContainers(cs[..i + 1], kind), wk, workload, name) ==
            RefsAmong(OfContainers(cs[..i], kind), wk, workload, name)
                + RefsAmong(OfContainer(cs[i], kind), wk, workload, name)
  {
    assert cs[..i + 1][..i] == cs[..i];
    RefsAmongConcat(OfContainers(cs[..i], kind), OfContainer(cs[i], kind), wk, workload, name);
  }

  method FindInContainers(cs: seq<Container>, wk: WorkloadKind, workload: string, name: string, kind: ResourceKind)
      returns (refs: seq<WorkloadRef>)
    ensures refs == RefsAmong(OfContainers(cs, kind), wk, workload, name)
  {
    refs := [];
    for i := 0 to |cs|
      invariant refs == RefsAmong(OfContainers(cs[..i], kind), wk, workload, name)
    {
      FindContainers(wk, workload, name, cs, i, kind);
      var found := FindInContainer(cs[i], wk, workload, name, kind);
      refs := refs + found;
    }
    assert cs[..|cs|] == cs;
  }

  method FindRefsInWorkload(w: Workload, wk: WorkloadKind, name: string, kind: ResourceKind)
      returns (refs: seq<WorkloadRef>)
    ensures refs == RefsAmong(Mentions(w.spec, kind), wk, w.name, name)
  {
    RefsAmongConcat(OfContainers(w.spec.containers, kind), OfVolumes(w.spec.volumes, kind), wk, w.name, name);
    refs := FindInContainers(w.spec.containers, wk, w.name, name, kind);
    var fromVolumes := FindInVolumes(w.spec.volumes, wk, w.name, name, kind);
    refs := refs + fromVolumes;
  }

  method FindConfigRefs(c: Cluster, namespace: string, name: string, kind: ResourceKind)
      returns (refs: seq<WorkloadRef>)
    ensures refs == Scan(c, namespace, name, kind)
  {
    var deployments := FindRefsIn(Listed(c, Deployment, namespace), Deployment, name, kind);
    var statefulSets := FindRefsIn(Listed(c, StatefulSet, namespace), StatefulSet, name, kind);
    var daemonSets := FindRefsIn(Listed(c, DaemonSet, namespace), DaemonSet, name, kind);
    refs := deployments + statefulSets + daemonSets;
  }

  /** The inventory page: every resource's users, from one index, are what its own detail page would scan for. */
  method ListUsedBy(c: Cluster, items: seq<Key>, kind: ResourceKind) returns (usedBy: seq<seq<WorkloadRef>>)
    ensures |usedBy| == |items|
    ensures (forall i | 0 <= i < |items| :: items[i].namespace != "") ==>
              forall i | 0 <= i < |items| ::
                usedBy[i] == if items[i].name == "" then [] else Scan(c, items[i].namespace, items[i].name, kind)
  {
    var namespaces := ReferenceNamespaces(items);
    var index := new ReferenceIndex();
    index.Build(c, namespaces, kind);
    var refs := index.refs;
    usedBy := [];
    for i := 0 to |items|
      invariant |usedBy| == i
      invariant refs == Index(c, namespaces, kind)
      invariant forall k | 0 <= k < i :: usedBy[k] == Lookup(refs, items[k])
    {
      usedBy := usedBy + [Lookup(refs, items[i])];
    }
    if forall i | 0 <= i < |items| :: items[i].namespace != "" {
      forall i | 0 <= i < |items|
        ensures usedBy[i] == if items[i].name == "" then [] else Scan(c, items[i].namespace, items[i].name, kind)
      {
        if items[i].name == "" {
          EmptyNameIsNeverIndexed(c, namespaces, kind, items[i].namespace);
        } else {
          IndexAgreesWithScan(c, namespaces, kind, items[i]);
        }
      }
    }
  }
}
