/** Persistent volume claims: the environment label, and the summaries built claim by claim or for a whole list at
    once. */
module VolumeClaims {
  import opened Wrappers
  import opened Decimal

  const MANAGED_BY := "app.kubernetes.io/managed-by"
  const MANAGER := "cylism-manager"
  const ENVIRONMENT := "cylism.io/environment"
  const INFRASTRUCTURE := "cylism.io/infrastructure"
  const PREFIX := "environment-"
  const HOSTNAME := "kubernetes.io/hostname"
  const WAIT_FOR_CONSUMER := "WaitForFirstConsumer"

  type Labels = map<string, string>

  function Label(labels: Labels, key: string): string {
    if key in labels then labels[key] else ""
  }

  // ---------- the environment label ----------

  function EnvironmentLabelValue(environment: nat): string {
    PREFIX + PrintNat(environment)
  }

  function LabelsFor(environment: nat): Labels {
    if environment != 0 then map[MANAGED_BY := MANAGER, ENVIRONMENT := EnvironmentLabelValue(environment)]
    else map[MANAGED_BY := MANAGER]
  }

  function TrimPrefix(s: string): string {
    if PREFIX <= s then s[|PREFIX|..] else s
  }

  /** Is the claim managed, and by which environment? Anything unreadable counts as environment 0. */
  function ManagedEnvironment(labels: Labels): (r: (bool, nat))
    ensures r.1 <= MAX_UINT64 && (!r.0 ==> r.1 == 0)
  {
    if Label(labels, MANAGED_BY) != MANAGER then (false, 0)
    else
      var text := Label(labels, ENVIRONMENT);
      var value := TrimPrefix(text);
      if value == "" || value == text then (true, 0)
      else
        match ParseUint64(value)
        case Some(id) => (true, id)
        case None => (true, 0)
  }

  predicate IsManagedBy(labels: Labels, environment: nat) {
    var (managed, id) := ManagedEnvironment(labels);
    managed && (id == environment || id == 0)
  }

  /** Printing the label and parsing it back gives the environment, for every 64-bit id. */
  lemma LabelRoundTrip(environment: nat)
    requires environment <= MAX_UINT64
    ensures ManagedEnvironment(LabelsFor(environment)) == (true, environment)
  {
    if environment != 0 {
      var text := EnvironmentLabelValue(environment);
      assert Label(LabelsFor(environment), ENVIRONMENT) == text;
      assert TrimPrefix(text) == PrintNat(environment);
      assert |TrimPrefix(text)| < |text|;
      PrintParseUint64(environment);
    }
  }

  /** A claim made for an environment is managed by it and no other; one made for environment 0 is managed by all. */
  lemma CreatedClaimIsManagedByIff(made: nat, environment: nat)
    requires made <= MAX_UINT64
    ensures IsManagedBy(LabelsFor(made), environment) <==> made == environment || made == 0
  {
    LabelRoundTrip(made);
  }

  /** Whatever the labels, a claim is managed by no environment, by exactly one, or by all of them. */
  lemma NoneOneOrAll(labels: Labels, one: nat, two: nat)
    requires IsManagedBy(labels, one) && IsManagedBy(labels, two) && one != two
    ensures forall environment :: IsManagedBy(labels, environment)
  {
  }

  /** The text names an environment: the prefix and a number that fits and is not zero. */
  ghost predicate NamesEnvironment(text: string) {
    exists d: string :: text == PREFIX + d && d != "" && AllDigits(d) && 0 < ValueOf(d) <= MAX_UINT64
  }

  lemma ReadsZeroIff(labels: Labels)
    requires Label(labels, MANAGED_BY) == MANAGER
    ensures ManagedEnvironment(labels).1 == 0 <==> !NamesEnvironment(Label(labels, ENVIRONMENT))
  {
    var text := Label(labels, ENVIRONMENT);
    var value := TrimPrefix(text);
    if NamesEnvironment(text) {
      var d :| text == PREFIX + d && d != "" && AllDigits(d) && 0 < ValueOf(d) <= MAX_UINT64;
      assert value == d && |value| < |text|;
    }
    if PREFIX <= text {
      assert text == PREFIX + value;
    }
  }

  /** A claim is managed by every environment exactly when it is managed and its label does not name one: the label is
      missing, has another prefix, is not a number, is zero, or does not fit 64 bits. */
  lemma ManagedByAllIff(labels: Labels)
    ensures (forall environment: nat | environment <= MAX_UINT64 :: IsManagedBy(labels, environment))
            <==> Label(labels, MANAGED_BY) == MANAGER && !NamesEnvironment(Label(labels, ENVIRONMENT))
  {
    if Label(labels, MANAGED_BY) == MANAGER {
      ReadsZeroIff(labels);
    }
    assert (forall e: nat | e <= MAX_UINT64 :: IsManagedBy(labels, e)) ==>
        IsManagedBy(labels, 0)
        && IsManagedBy(labels, 1);
  }

  /** A label past the 64-bit range does not fit any environment, so the claim falls to all of them. */
  lemma OverflowFallsToAll(environment: nat, id: nat)
    requires id > MAX_UINT64
    ensures IsManagedBy(map[MANAGED_BY := MANAGER, ENVIRONMENT := EnvironmentLabelValue(id)], environment)
  {
    var text := EnvironmentLabelValue(id);
    assert TrimPrefix(text) == PrintNat(id);
    PrintedValue(id);
  }

  // ---------- the resources ----------

  datatype Quantity = Quantity(zero: bool, text: string)

  datatype Claim = Claim(
    name: string, namespace: string, labels: Labels, phase: string, className: Option<string>, volumeName: string,
    capacity: Quantity, requested: Quantity, accessModes: seq<string>, created: string)

  datatype StorageClass = StorageClass(name: string, bindingMode: Option<string>)

  datatype Requirement = Requirement(key: string, isIn: bool, values: seq<string>)

  datatype Volume = Volume(name: string, reclaimPolicy: string, affinity: seq<seq<Requirement>>,
      hostPath: Option<string>, localPath: Option<string>)

  datatype Info = Info(
    name: string, namespace: string, managed: bool, environment: nat, ownerType: string, owner: string, readOnly: bool,
    phase: string, storage: string, className: string, volumeName: string, accessModes: seq<string>,
    boundNode: string, localPath: string, isLocal: bool, reclaimPolicy: string, waits: bool, created: string)

  datatype Cluster = Cluster(classes: seq<StorageClass>, volumes: seq<Volume>)

  predicate IsSpace(c: char) {
    '\t' <= c <= '\r' || c == ' ' || c == '\U{85}' || c == '\U{A0}' || c == '\U{1680}' || '\U{2000}' <= c <= '\U{200A}'
    || c == '\U{2028}' || c == '\U{2029}' || c == '\U{202F}' || c == '\U{205F}' || c == '\U{3000}'
  }

  predicate NotBlank(s: string) {
    exists i | 0 <= i < |s| :: !IsSpace(s[i])
  }

  function OrEmpty(s: Option<string>): string {
    if s.Some? then s.value else ""
  }

  function InfrastructureOwner(claim: Claim): string {
    var text := Label(claim.labels, INFRASTRUCTURE);
    if Label(claim.labels, MANAGED_BY) != MANAGER then ""
    else if claim.namespace == "cylism-system" && claim.name == "cylism-oci-registry-data" then "oci-registry"
    else if text in ["alertmanager", "victoria-metrics", "loki", "agent-runtime"] then text
    else ""
  }

  function HostIn(term: seq<Requirement>): Option<string> {
    if term == [] then None
    else if term[0].key == HOSTNAME && term[0].isIn && |term[0].values| == 1 then Some(term[0].values[0])
    else HostIn(term[1..])
  }

  /** The single host of the first requirement that names one. */
  function NodeName(affinity: seq<seq<Requirement>>): string {
    if affinity == [] then ""
    else
      match HostIn(affinity[0])
      case Some(host) => host
      case None => NodeName(affinity[1..])
  }

  function LocalPath(volume: Volume): (string, bool) {
    if volume.hostPath.Some? && NotBlank(volume.hostPath.value) then (volume.hostPath.value, true)
    else if volume.localPath.Some? && NotBlank(volume.localPath.value) then (volume.localPath.value, true)
    else ("", false)
  }

  /** The summary of a claim with the class and the volume found for it, if any. */
  function InfoFrom(claim: Claim, class_: Option<StorageClass>, volume: Option<Volume>): Info {
    var (managed, environment) := ManagedEnvironment(claim.labels);
    var owner := InfrastructureOwner(claim);
    var (path, local) := if volume.Some? then LocalPath(volume.value) else ("", false);
    Info(
      claim.name, claim.namespace, managed, environment,
      if owner != "" then "infrastructure" else if managed then "application" else "external", owner, owner != "",
      claim.phase, if !claim.capacity.zero then claim.capacity.text else claim.requested.text,
      OrEmpty(claim.className), claim.volumeName, claim.accessModes,
      if volume.Some? then NodeName(volume.value.affinity) else "", path, local,
      if volume.Some? then volume.value.reclaimPolicy else "",
      class_.Some? && class_.value.bindingMode == Some(WAIT_FOR_CONSUMER), claim.created)
  }

  // ---------- what a summary says ----------

  predicate NamesHost(r: Requirement) {
    r.key == HOSTNAME && r.isIn && |r.values| == 1
  }

  lemma {:induction false} HostInIff(term: seq<Requirement>, host: string)
    ensures HostIn(term) == Some(host) <==>
              exists k | 0 <= k < |term| ::
                NamesHost(term[k]) && term[k].values[0] == host && forall j | 0 <= j < k :: !NamesHost(term[j])
    ensures HostIn(term).None? <==> forall k | 0 <= k < |term| :: !NamesHost(term[k])
  {
    if term != [] && !NamesHost(term[0]) {
      var rest := term[1..];
      HostInIff(rest, host);
      assert forall k | 0 <= k < |rest| :: rest[k] == term[k + 1];
      if HostIn(term) == Some(host) {
        var k :| 0 <= k < |rest| && NamesHost(rest[k]) && rest[k].values[0] == host
                 && forall j | 0 <= j < k :: !NamesHost(rest[j]);
        assert NamesHost(term[k + 1]);
        assert forall j | 0 < j < k + 1 :: term[j] == rest[j - 1];
      }
      if k :| 0 <= k < |term| && NamesHost(term[k]) && term[k].values[0] == host
              && forall j | 0 <= j < k :: !NamesHost(term[j]) {
        assert NamesHost(rest[k - 1]);
      }
    }
  }

  /** The node of a volume is the one named by the first requirement, of the first term, that names exactly one. */
  lemma {:induction false} NodeNameIs(affinity: seq<seq<Requirement>>, i: nat, k: nat)
    requires i < |affinity| && k < |affinity[i]| && NamesHost(affinity[i][k])
    requires forall j | 0 <= j < k :: !NamesHost(affinity[i][j])
    requires forall h, j | 0 <= h < i && 0 <= j < |affinity[h]| :: !NamesHost(affinity[h][j])
    ensures NodeName(affinity) == affinity[i][k].values[0]
  {
    if i == 0 {
      HostInIff(affinity[0], affinity[0][k].values[0]);
    } else {
      HostInIff(affinity[0], "");
      NodeNameIs(affinity[1..], i - 1, k);
    }
  }

  /** A volume that names no node this way is bound to none. */
  lemma {:induction false} NodeNameIsEmpty(affinity: seq<seq<Requirement>>)
    requires forall h, j | 0 <= h < |affinity| && 0 <= j < |affinity[h]| :: !NamesHost(affinity[h][j])
    ensures NodeName(affinity) == ""
  {
    if affinity != [] {
      HostInIff(affinity[0], "");
      NodeNameIsEmpty(affinity[1..]);
    }
  }

  /** The owner of a claim: a component of the platform, an application, or somebody else; components' claims are
      read-only. */
  lemma OwnerIff(claim: Claim, class_: Option<StorageClass>, volume: Option<Volume>)
    ensures var info := InfoFrom(claim, class_, volume);
            var managed := Label(claim.labels, MANAGED_BY) == MANAGER;
            var registry := claim.namespace == "cylism-system" && claim.name == "cylism-oci-registry-data";
            var component := Label(claim.labels, INFRASTRUCTURE);
            var named := component == "alertmanager" || component == "victoria-metrics" || component == "loki"
                         || component == "agent-runtime";
            && info.managed == managed
            && (info.ownerType == "infrastructure" <==> managed && (registry || named))
            && (info.ownerType == "application" <==> managed && !registry && !named)
            && (info.ownerType == "external" <==> !managed)
            && (info.readOnly <==> info.ownerType == "infrastructure")
            && info.owner ==
                 (if !managed then "" else if registry then "oci-registry" else if named then component else "")
  {
  }

  /** The size shown is the one granted, unless that is still zero; and a claim waits exactly if its class is found and
      binds on first use. */
  lemma SizeAndBindingIff(claim: Claim, class_: Option<StorageClass>, volume: Option<Volume>)
    ensures var info := InfoFrom(claim, class_, volume);
            && info.storage == (if claim.capacity.zero then claim.requested.text else claim.capacity.text)
            && (info.waits <==>
                  exists c: StorageClass :: class_ == Some(c) && c.bindingMode == Some("WaitForFirstConsumer"))
            && info.name == claim.name && info.namespace == claim.namespace && info.phase == claim.phase
            && info.volumeName == claim.volumeName && info.accessModes == claim.accessModes
            && info.created == claim.created
                && info.className == (if claim.className.Some? then claim.className.value else "")
  {
    if class_.Some? {
      assert class_ == Some(class_.value);
    }
  }

  /** Without a volume nothing is known of node and path; with one, a host path that is not blank wins over a local
      one. */
  lemma VolumeFields(claim: Claim, class_: Option<StorageClass>, volume: Option<Volume>)
    ensures var info := InfoFrom(claim, class_, volume);
            match volume
            case None => info.boundNode == "" && info.localPath == "" && !info.isLocal && info.reclaimPolicy == ""
            case Some(v) =>
              && info.reclaimPolicy == v.reclaimPolicy && info.boundNode == NodeName(v.affinity)
              && (info.isLocal <==>
                    || (v.hostPath.Some? && NotBlank(v.hostPath.value))
                    || (v.localPath.Some? && NotBlank(v.localPath.value)))
              && (v.hostPath.Some? && NotBlank(v.hostPath.value) ==> info.localPath == v.hostPath.value)
              && (!(v.hostPath.Some? && NotBlank(v.hostPath.value)) && info.isLocal
                  ==> Some(info.localPath) == v.localPath)
  {
  }

  // ---------- lookups ----------

  function FindClass(classes: seq<StorageClass>, name: string): (r: Option<StorageClass>)
    ensures r.Some? ==> r.value in classes && r.value.name == name
    ensures r.None? ==> forall c <- classes :: c.name != name
  {
    if classes == [] then None
    else
      var last := classes[|classes| - 1];
      if last.name == name then Some(last) else FindClass(classes[..|classes| - 1], name)
  }

  function FindVolume(volumes: seq<Volume>, name: string): (r: Option<Volume>)
    ensures r.Some? ==> r.value in volumes && r.value.name == name
    ensures r.None? ==> forall v <- volumes :: v.name != name
  {
    if volumes == [] then None
    else
      var last := volumes[|volumes| - 1];
      if last.name == name then Some(last) else FindVolume(volumes[..|volumes| - 1], name)
  }

  /** The API server gives every object a name. */
  ghost predicate Named(cluster: Cluster) {
    (forall c <- cluster.classes :: c.name != "") && forall v <- cluster.volumes :: v.name != ""
  }

  /** What a read of a missing object leaves in the caller's hand: nothing, or an empty object beside the error. */
  datatype Missing = Nothing | EmptyObject

  /** The class a claim's own reads find: none is read for an empty name. */
  function ReadClass(cluster: Cluster, name: string, missing: Missing): Option<StorageClass> {
    var found := FindClass(cluster.classes, name);
    if name == "" then None
    else if found.None? && missing == EmptyObject then Some(StorageClass("", None))
    else found
  }

  function ReadVolume(cluster: Cluster, name: string, missing: Missing): Option<Volume> {
    var found := FindVolume(cluster.volumes, name);
    if name == "" then None
    else if found.None? && missing == EmptyObject then Some(Volume("", "", [], None, None))
    else found
  }

  function PointInfoOf(cluster: Cluster, claim: Claim, missing: Missing): Info {
    InfoFrom(claim, ReadClass(cluster, OrEmpty(claim.className), missing),
        ReadVolume(cluster, claim.volumeName, missing))
  }

  function ListedInfoOf(cluster: Cluster, claim: Claim): Info {
    InfoFrom(claim, FindClass(cluster.classes, OrEmpty(claim.className)), FindVolume(cluster.volumes, claim.volumeName))
  }

  /** A claim's summary is the same from point reads and from listings, also where its class or volume is missing. */
  lemma PointEqualsListed(cluster: Cluster, claim: Claim, missing: Missing)
    requires Named(cluster)
    ensures PointInfoOf(cluster, claim, missing) == ListedInfoOf(cluster, claim)
  {
    assert FindClass(cluster.classes, "") == None && FindVolume(cluster.volumes, "") == None;
    assert LocalPath(Volume("", "", [], None, None)) == ("", false);
  }

  /** The names matter: with an unnamed class the listing would find it for a claim that names none. */
  lemma UnnamedClassDisagrees(claim: Claim)
    requires claim.className == None
    ensures var cluster := Cluster([StorageClass("", Some(WAIT_FOR_CONSUMER))], []);
            PointInfoOf(cluster, claim, Nothing) != ListedInfoOf(cluster, claim)
  {
    var cluster := Cluster([StorageClass("", Some(WAIT_FOR_CONSUMER))], []);
    assert ListedInfoOf(cluster, claim).waits && !PointInfoOf(cluster, claim, Nothing).waits;
  }

  /** The summary of one claim from point reads; each flag tells whether that read, if made, works or finds nothing. */
  method PointInfo(cluster: Cluster, claim: Claim, missing: Missing, classRead: bool, volumeRead: bool)
      returns (r: Option<Info>)
    ensures r == if (OrEmpty(claim.className) == "" || classRead) && (claim.volumeName == "" || volumeRead)
                 then Some(PointInfoOf(cluster, claim, missing)) else None
  {
    var class_: Option<StorageClass> := None;
    var name := OrEmpty(claim.className);
    if name != "" {
      if !classRead {
        return None;
      }
      class_ := ReadClass(cluster, name, missing);
    }
    var volume: Option<Volume> := None;
    if claim.volumeName != "" {
      if !volumeRead {
        return None;
      }
      volume := ReadVolume(cluster, claim.volumeName, missing);
    }
    r := Some(InfoFrom(claim, class_, volume));
  }

  method ClassesByName(classes: seq<StorageClass>) returns (index: map<string, StorageClass>)
    ensures forall name :: FindClass(classes, name) == if name in index then Some(index[name]) else None
  {
    index := map[];
    for i := 0 to |classes|
      invariant forall name :: FindClass(classes[..i], name) == if name in index then Some(index[name]) else None
    {
      assert classes[..i + 1][..i] == classes[..i];
      index := index[classes[i].name := classes[i]];
    }
    assert classes[..|classes|] == classes;
  }

  method VolumesByName(volumes: seq<Volume>) returns (index: map<string, Volume>)
    ensures forall name :: FindVolume(volumes, name) == if name in index then Some(index[name]) else None
  {
    index := map[];
    for i := 0 to |volumes|
      invariant forall name :: FindVolume(volumes[..i], name) == if name in index then Some(index[name]) else None
    {
      assert volumes[..i + 1][..i] == volumes[..i];
      index := index[volumes[i].name := volumes[i]];
    }
    assert volumes[..|volumes|] == volumes;
  }

  /** The summaries of a list of claims from two listings: one by one and in order what the point reads give. */
  method BatchInfos(cluster: Cluster, claims: seq<Claim>, classList: bool, volumeList: bool)
      returns (r: Option<seq<Info>>)
    ensures r.Some? <==> claims == [] || (classList && volumeList)
    ensures r.Some? ==> |r.value| == |claims| && forall i | 0 <= i < |claims| ::
            r.value[i] == ListedInfoOf(cluster, claims[i])
    ensures r.Some? && Named(cluster) ==> forall i, missing | 0 <= i < |claims| ::
            r.value[i] == PointInfoOf(cluster, claims[i], missing)
  {
    if |claims| == 0 {
      return Some([]);
    }
    if !classList {
      return None;
    }
    var classes := ClassesByName(cluster.classes);
    if !volumeList {
      return None;
    }
    var volumes := VolumesByName(cluster.volumes);
    var infos := [];
    for i := 0 to |claims|
      invariant |infos| == i
      invariant forall k | 0 <= k < i :: infos[k] == ListedInfoOf(cluster, claims[k])
    {
      var name := OrEmpty(claims[i].className);
      var class_ := if name in classes then Some(classes[name]) else None;
      var volume := if claims[i].volumeName in volumes then Some(volumes[claims[i].volumeName]) else None;
      infos := infos + [InfoFrom(claims[i], class_, volume)];
    }
    forall i, missing | 0 <= i < |claims| && Named(cluster)
      ensures infos[i] == PointInfoOf(cluster, claims[i], missing)
    {
      PointEqualsListed(cluster, claims[i], missing);
    }
    r := Some(infos);
  }
}
