/** Which workloads use a ConfigMap or Secret: one scan per resource, and an index built once per namespace. */
module ConfigReferences {
  import opened Wrappers

  datatype ResourceKind = ConfigMap | Secret

  datatype RefType = FromEnvFrom | FromEnv | FromVolume

  datatype EnvFrom = EnvFrom(configMap: Option<string>, secret: Option<string>)

  datatype ValueFrom = ValueFrom(configMapKey: Option<string>, secretKey: Option<string>)

  datatype Env = Env(valueFrom: Option<ValueFrom>)

  datatype Container = Container(envFrom: seq<EnvFrom>, env: seq<Env>)

  datatype Volume = Volume(configMap: Option<string>, secret: Option<string>)

  datatype PodSpec = PodSpec(containers: seq<Container>, volumes: seq<Volume>)

  datatype WorkloadKind = Deployment | StatefulSet | DaemonSet

  datatype Workload = Workload(namespace: string, name: string, spec: PodSpec)

  datatype WorkloadRef = WorkloadRef(kind: WorkloadKind, name: string, refType: RefType)

  datatype Key = Key(namespace: string, name: string)

  /** `unreadable` are the lists the API server refuses. */
  datatype Cluster = Cluster(workloads: map<WorkloadKind, seq<Workload>>, unreadable: set<(WorkloadKind, string)>)

  // ---------- what a Pod mentions, in the order the code looks ----------

  datatype Mention = Mention(name: string, refType: RefType)

  function Mentioned(name: Option<string>, refType: RefType): seq<Mention> {
    if name.Some? then [Mention(name.value, refType)] else []
  }

  function OfEnvFrom(e: EnvFrom, kind: ResourceKind): seq<Mention> {
    Mentioned(if kind.ConfigMap? then e.configMap else e.secret, FromEnvFrom)
  }

  function OfEnv(e: Env, kind: ResourceKind): seq<Mention> {
    if e.valueFrom.None? then []
    else Mentioned(if kind.ConfigMap? then e.valueFrom.value.configMapKey else e.valueFrom.value.secretKey, FromEnv)
  }

  function OfVolume(v: Volume, kind: ResourceKind): seq<Mention> {
    Mentioned(if kind.ConfigMap? then v.configMap else v.secret, FromVolume)
  }

  function OfEnvFroms(es: seq<EnvFrom>, kind: ResourceKind): seq<Mention> {
    if es == [] then [] else OfEnvFroms(es[..|es| - 1], kind) + OfEnvFrom(es[|es| - 1], kind)
  }

  function OfEnvs(es: seq<Env>, kind: ResourceKind): seq<Mention> {
    if es == [] then [] else OfEnvs(es[..|es| - 1], kind) + OfEnv(es[|es| - 1], kind)
  }

  function OfVolumes(vs: seq<Volume>, kind: ResourceKind): seq<Mention> {
    if vs == [] then [] else OfVolumes(vs[..|vs| - 1], kind) + OfVolume(vs[|vs| - 1], kind)
  }

  function OfContainer(c: Container, kind: ResourceKind): seq<Mention> {
    OfEnvFroms(c.envFrom, kind) + OfEnvs(c.env, kind)
  }

  function OfContainers(cs: seq<Container>, kind: ResourceKind): seq<Mention> {
    if cs == [] then [] else OfContainers(cs[..|cs| - 1], kind) + OfContainer(cs[|cs| - 1], kind)
  }

  function Mentions(spec: PodSpec, kind: ResourceKind): seq<Mention> {
    OfContainers(spec.containers, kind) + OfVolumes(spec.volumes, kind)
  }

  // ---------- the scan for one resource ----------

  function RefsAmong(ms: seq<Mention>, wk: WorkloadKind, workload: string, name: string): seq<WorkloadRef> {
    if ms == [] then []
    else
      var last := ms[|ms| - 1];
      RefsAmong(ms[..|ms| - 1], wk, workload, name)
          + (if last.name == name then [WorkloadRef(wk, workload, last.refType)] else [])
  }

  function RefsIn(items: seq<Workload>, wk: WorkloadKind, name: string, kind: ResourceKind): seq<WorkloadRef> {
    if items == [] then []
    else
      var w := items[|items| - 1];
      RefsIn(items[..|items| - 1], wk, name, kind) + RefsAmong(Mentions(w.spec, kind), wk, w.name, name)
  }

  function InNamespace(items: seq<Workload>, namespace: string): seq<Workload> {
    if items == [] then []
    else
      var w := items[|items| - 1];
      InNamespace(items[..|items| - 1], namespace) + (if w.namespace == namespace then [w] else [])
  }

  /** The list call: all namespaces for the empty name, otherwise one; an error reads as nothing. */
  function Listed(c: Cluster, wk: WorkloadKind, namespace: string): seq<Workload> {
    if (wk, namespace) in c.unreadable || wk !in c.workloads then []
    else if namespace == "" then c.workloads[wk]
    else InNamespace(c.workloads[wk], namespace)
  }

  function Scan(c: Cluster, namespace: string, name: string, kind: ResourceKind): seq<WorkloadRef> {
    RefsIn(Listed(c, Deployment, namespace), Deployment, name, kind)
    + RefsIn(Listed(c, StatefulSet, namespace), StatefulSet, name, kind)
    + RefsIn(Listed(c, DaemonSet, namespace), DaemonSet, name, kind)
  }

  lemma {:induction false} RefsAmongConcat(a: seq<Mention>, b: seq<Mention>, wk: WorkloadKind, workload: string,
      name: string)
    ensures RefsAmong(a + b, wk, workload, name) == RefsAmong(a, wk, workload, name) + RefsAmong(b, wk, workload, name)
  {
    if b == [] {
      assert a + b == a;
    } else {
      assert (a + b)[..|a + b| - 1] == a + b[..|b| - 1];
      RefsAmongConcat(a, b[..|b| - 1], wk, workload, name);
    }
  }

  // ---------- the index ----------

  type Refs = map<Key, seq<WorkloadRef>>

  function Lookup(refs: Refs, key: Key): seq<WorkloadRef> {
    if key in refs then refs[key] else []
  }

  function Appended(refs: Refs, namespace: string, wk: WorkloadKind, workload: string, m: Mention): Refs {
    if m.name == "" then refs
    else
      var key := Key(namespace, m.name);
      refs[key := Lookup(refs, key) + [WorkloadRef(wk, workload, m.refType)]]
  }

  function AllAppended(refs: Refs, namespace: string, wk: WorkloadKind, workload: string, ms: seq<Mention>): Refs {
    if ms == [] then refs
    else Appended(AllAppended(refs, namespace, wk, workload, ms[..|ms| - 1]), namespace, wk, workload, ms[|ms| - 1])
  }

  function Indexed(refs: Refs, items: seq<Workload>, wk: WorkloadKind, kind: ResourceKind): Refs {
    if items == [] then refs
    else
      var w := items[|items| - 1];
      AllAppended(Indexed(refs, items[..|items| - 1], wk, kind), w.namespace, wk, w.name, Mentions(w.spec, kind))
  }

  function NamespaceIndexed(refs: Refs, c: Cluster, namespace: string, kind: ResourceKind): Refs {
    Indexed(Indexed(Indexed(refs,
      Listed(c, Deployment, namespace), Deployment, kind),
      Listed(c, StatefulSet, namespace), StatefulSet, kind),
      Listed(c, DaemonSet, namespace), DaemonSet, kind)
  }

  function Index(c: Cluster, namespaces: seq<string>, kind: ResourceKind): Refs {
    if namespaces == [] then map[]
    else NamespaceIndexed(Index(c, namespaces[..|namespaces| - 1], kind), c, namespaces[|namespaces| - 1], kind)
  }

  lemma {:induction false} AllAppendedConcat(refs: Refs, namespace: string, wk: WorkloadKind, workload: string,
      a: seq<Mention>, b: seq<Mention>)
    ensures AllAppended(refs, namespace, wk, workload, a + b)
            == AllAppended(AllAppended(refs, namespace, wk, workload, a), namespace, wk, workload, b)
  {
    if b == [] {
      assert a + b == a;
    } else {
      assert (a + b)[..|a + b| - 1] == a + b[..|b| - 1];
      AllAppendedConcat(refs, namespace, wk, workload, a, b[..|b| - 1]);
    }
  }

  lemma {:induction false} LookupAllAppended(refs: Refs, namespace: string, wk: WorkloadKind, workload: string,
      ms: seq<Mention>, key: Key)
    ensures Lookup(AllAppended(refs, namespace, wk, workload, ms), key) ==
            Lookup(refs, key) + (if key.namespace == namespace && key.name != ""
                then RefsAmong(ms, wk, workload, key.name) else [])
  {
    if ms != [] {
      LookupAllAppended(refs, namespace, wk, workload, ms[..|ms| - 1], key);
    }
  }

  lemma InNamespaceSnoc(items: seq<Workload>, w: Workload, namespace: string)
    ensures InNamespace(items + [w], namespace) == InNamespace(items, namespace)
            + (if w.namespace == namespace then [w] else [])
  {
    assert (items + [w])[..|items|] == items;
  }

  lemma RefsInSnoc(items: seq<Workload>, w: Workload, wk: WorkloadKind, name: string, kind: ResourceKind)
    ensures RefsIn(items + [w], wk, name, kind) == RefsIn(items, wk, name, kind)
            + RefsAmong(Mentions(w.spec, kind), wk, w.name, name)
  {
    assert (items + [w])[..|items|] == items;
  }

  lemma {:induction false} LookupIndexed(refs: Refs, items: seq<Workload>, wk: WorkloadKind, kind: ResourceKind,
      key: Key)
    requires key.name != ""
    ensures Lookup(Indexed(refs, items, wk, kind), key) ==
            Lookup(refs, key) + RefsIn(InNamespace(items, key.namespace), wk, key.name, kind)
  {
    if items != [] {
      var w, before := items[|items| - 1], items[..|items| - 1];
      var kept := InNamespace(before, key.namespace);
      var ms := Mentions(w.spec, kind);
      LookupIndexed(refs, before, wk, kind, key);
      LookupAllAppended(Indexed(refs, before, wk, kind), w.namespace, wk, w.name, ms, key);
      if w.namespace == key.namespace {
        RefsInSnoc(kept, w, wk, key.name, kind);
        Regroup(Lookup(refs, key), RefsIn(kept, wk, key.name, kind), RefsAmong(ms, wk, w.name, key.name));
        assert InNamespace(items, key.namespace) == kept + [w];
      } else {
        assert InNamespace(items, key.namespace) == kept;
      }
    }
  }

  lemma Regroup(a: seq<WorkloadRef>, b: seq<WorkloadRef>, c: seq<WorkloadRef>)
    ensures (a + b) + c == a + (b + c)
  {
  }

  lemma {:induction false} InNamespaceTwice(items: seq<Workload>, namespace: string, again: string)
    ensures InNamespace(InNamespace(items, namespace), again) ==
              if again == namespace then InNamespace(items, namespace) else []
  {
    if items != [] {
      var w, before := items[|items| - 1], items[..|items| - 1];
      InNamespaceTwice(before, namespace, again);
      if w.namespace == namespace {
        InNamespaceSnoc(InNamespace(before, namespace), w, again);
      } else {
        assert InNamespace(items, namespace) == InNamespace(before, namespace);
      }
    }
  }

  /** A list for one namespace adds to that namespace's entries exactly what a scan of it finds, and nothing
      elsewhere. */
  lemma LookupListed(refs: Refs, c: Cluster, namespace: string, wk: WorkloadKind, kind: ResourceKind, key: Key)
    requires key.name != "" && namespace != ""
    ensures Lookup(Indexed(refs, Listed(c, wk, namespace), wk, kind), key) ==
            Lookup(refs, key) + (if key.namespace == namespace
                then RefsIn(Listed(c, wk, namespace), wk, key.name, kind) else [])
  {
    LookupIndexed(refs, Listed(c, wk, namespace), wk, kind, key);
    if wk in c.workloads {
      InNamespaceTwice(c.workloads[wk], namespace, key.namespace);
    }
  }

  lemma LookupNamespaceIndexed(refs: Refs, c: Cluster, namespace: string, kind: ResourceKind, key: Key)
    requires key.name != "" && namespace != ""
    ensures Lookup(NamespaceIndexed(refs, c, namespace, kind), key) ==
            Lookup(refs, key) + (if key.namespace == namespace then Scan(c, namespace, key.name, kind) else [])
  {
    var d := Indexed(refs, Listed(c, Deployment, namespace), Deployment, kind);
    var s := Indexed(d, Listed(c, StatefulSet, namespace), StatefulSet, kind);
    LookupListed(refs, c, namespace, Deployment, kind, key);
    LookupListed(d, c, namespace, StatefulSet, kind, key);
    LookupListed(s, c, namespace, DaemonSet, kind, key);
    if key.namespace == namespace {
      ScanConcat(Lookup(refs, key), RefsIn(Listed(c, Deployment, namespace), Deployment, key.name, kind),
                 RefsIn(Listed(c, StatefulSet, namespace), StatefulSet, key.name, kind),
                 RefsIn(Listed(c, DaemonSet, namespace), DaemonSet, key.name, kind));
    }
  }

  lemma ScanConcat(a: seq<WorkloadRef>, d: seq<WorkloadRef>, s: seq<WorkloadRef>, e: seq<WorkloadRef>)
    ensures ((a + d) + s) + e == a + (d + s + e)
  {
  }

  ghost predicate Distinct(namespaces: seq<string>) {
    forall i, j | 0 <= i < j < |namespaces| :: namespaces[i] != namespaces[j]
  }

  lemma DistinctPrefix(namespaces: seq<string>, x: string)
    requires namespaces != [] && Distinct(namespaces) && "" !in namespaces
    ensures var before, last := namespaces[..|namespaces| - 1], namespaces[|namespaces| - 1];
            && Distinct(before) && "" !in before && last != "" && last !in before
            && (x in namespaces <==> x in before || x == last)
  {
    assert namespaces == namespaces[..|namespaces| - 1] + [namespaces[|namespaces| - 1]];
  }

  lemma IndexGrows(c: Cluster, before: seq<string>, last: string, kind: ResourceKind, key: Key, found: seq<WorkloadRef>)
    requires last != "" && key.name != "" && last !in before && found == Scan(c, key.namespace, key.name, kind)
    requires Lookup(Index(c, before, kind), key) == if key.namespace in before then found else []
    ensures Lookup(NamespaceIndexed(Index(c, before, kind), c, last, kind), key)
            == if key.namespace in before || key.namespace == last then found else []
  {
    LookupNamespaceIndexed(Index(c, before, kind), c, last, kind, key);
    AppendNothing(found);
  }

  lemma AppendNothing(a: seq<WorkloadRef>)
    ensures a + [] == a && [] + a == a
  {
  }

  /** The index answers every resource of every indexed namespace with exactly the references, in exactly the order,
      that a scan for that one resource returns; it holds nothing about other namespaces. */
  lemma {:induction false} IndexAgreesWithScan(c: Cluster, namespaces: seq<string>, kind: ResourceKind, key: Key)
    requires Distinct(namespaces) && "" !in namespaces && key.name != ""
    ensures Lookup(Index(c, namespaces, kind), key) ==
            if key.namespace in namespaces then Scan(c, key.namespace, key.name, kind) else []
  {
    if namespaces != [] {
      var before, last := namespaces[..|namespaces| - 1], namespaces[|namespaces| - 1];
      DistinctPrefix(namespaces, key.namespace);
      IndexAgreesWithScan(c, before, kind, key);
      IndexGrows(c, before, last, kind, key, Scan(c, key.namespace, key.name, kind));
    }
  }

  /** A namespace listed twice would be counted twice. */
  lemma RepeatedNamespaceCountsTwice(c: Cluster, namespace: string, kind: ResourceKind, name: string)
    requires namespace != "" && name != ""
    ensures Lookup(Index(c, [namespace, namespace], kind), Key(namespace, name)) ==
            Scan(c, namespace, name, kind) + Scan(c, namespace, name, kind)
  {
    var key := Key(namespace, name);
    IndexAgreesWithScan(c, [namespace], kind, key);
    assert [namespace, namespace][..1] == [namespace];
    LookupNamespaceIndexed(Index(c, [namespace], kind), c, namespace, kind, key);
  }

  lemma {:induction false} EmptyNameHasNoEntry(refs: Refs, items: seq<Workload>, wk: WorkloadKind, kind: ResourceKind,
      namespace: string)
    ensures Lookup(Indexed(refs, items, wk, kind), Key(namespace, "")) == Lookup(refs, Key(namespace, ""))
  {
    if items != [] {
      var w, before := items[|items| - 1], items[..|items| - 1];
      EmptyNameHasNoEntry(refs, before, wk, kind, namespace);
      LookupAllAppended(Indexed(refs, before, wk, kind), w.namespace, wk, w.name, Mentions(w.spec, kind),
          Key(namespace, ""));
    }
  }

  /** The empty name is the one name the two can differ on: the index never files it, the scan may match it. */
  lemma {:induction false} EmptyNameIsNeverIndexed(c: Cluster, namespaces: seq<string>, kind: ResourceKind,
      namespace: string)
    ensures Lookup(Index(c, namespaces, kind), Key(namespace, "")) == []
  {
    if namespaces != [] {
      var before, last := namespaces[..|namespaces| - 1], namespaces[|namespaces| - 1];
      EmptyNameIsNeverIndexed(c, before, kind, namespace);
      var r := Index(c, before, kind);
      var d := Indexed(r, Listed(c, Deployment, last), Deployment, kind);
      var s := Indexed(d, Listed(c, StatefulSet, last), StatefulSet, kind);
      EmptyNameHasNoEntry(r, Listed(c, Deployment, last), Deployment, kind, namespace);
      EmptyNameHasNoEntry(d, Listed(c, StatefulSet, last), StatefulSet, kind, namespace);
      EmptyNameHasNoEntry(s, Listed(c, DaemonSet, last), DaemonSet, kind, namespace);
    }
  }
}
