/** The metrics store's settings, as they are read back from its Deployment and rendered into a new one. */
module MetricsConfig {
  import opened Wrappers
  import opened Decimal

  datatype Source = HostPath(path: string) | Claim(claimName: string) | OtherSource

  datatype Volume = Volume(name: string, source: Source)

  datatype Container = Container(name: string, args: seq<string>)

  /** `hostname` is the node selector's host entry, empty when there is none. */
  datatype Deployment = Deployment(replicas: int, hostname: string, volumes: seq<Volume>, containers: seq<Container>)

  datatype Config = Config(nodeName: string, storage: string, dataPath: string, retentionDays: int)

  const CLAIM_NAME := "cylism-victoria-metrics-data"
  const RETENTION_FLAG := "-retentionPeriod="
  const DATA_ARG := "-storageDataPath=" + "/storage"
  const SCRAPE_ARG := "-promscrape.config=" + "/etc/victoriametrics/scrape.yml"

  // ---------- reading ----------

  /** The first volume that decides where the data is. */
  function StorageOf(volumes: seq<Volume>): Source {
    if volumes == [] then OtherSource
    else if volumes[0].name == "storage" && !volumes[0].source.OtherSource? then volumes[0].source
    else StorageOf(volumes[1..])
  }

  function TrimDays(s: string): string {
    if s != "" && s[|s| - 1] == 'd' then s[..|s| - 1] else s
  }

  function RetentionArg(arg: string, days: int): int {
    if RETENTION_FLAG <= arg then AtoiValue(TrimDays(arg[|RETENTION_FLAG|..])) else days
  }

  function RetentionArgs(args: seq<string>, days: int): int {
    if args == [] then days else RetentionArg(args[|args| - 1], RetentionArgs(args[..|args| - 1], days))
  }

  /** The last retention flag of any container of that name wins. */
  function RetentionOf(containers: seq<Container>): int {
    if containers == [] then 0
    else
      var last := containers[|containers| - 1];
      var days := RetentionOf(containers[..|containers| - 1]);
      if last.name == "victoria-metrics" then RetentionArgs(last.args, days) else days
  }

  function ConfigOf(d: Deployment): Config {
    match StorageOf(d.volumes)
    case HostPath(path) => Config(d.hostname, "", path, RetentionOf(d.containers))
    case Claim(_) => Config(d.hostname, "managed", "", RetentionOf(d.containers))
    case OtherSource => Config(d.hostname, "", "", RetentionOf(d.containers))
  }

  predicate Recognized(c: Config) {
    c.nodeName != "" && (c.dataPath != "" || c.storage != "")
  }

  predicate KnownStorage(v: Volume) {
    v.name == "storage" && !v.source.OtherSource?
  }

  /** The data is where the first volume of that name and of a known kind says. */
  lemma {:induction false} StorageIff(volumes: seq<Volume>, source: Source)
    requires !source.OtherSource?
    ensures StorageOf(volumes) == source <==>
              exists i | 0 <= i < |volumes| ::
                && KnownStorage(volumes[i]) && volumes[i].source == source
                && forall j | 0 <= j < i :: !KnownStorage(volumes[j])
  {
    if volumes != [] && !KnownStorage(volumes[0]) {
      var rest := volumes[1..];
      StorageIff(rest, source);
      if StorageOf(rest) == source {
        var i :| 0 <= i < |rest| && KnownStorage(rest[i]) && rest[i].source == source
                 && forall j | 0 <= j < i :: !KnownStorage(rest[j]);
        assert volumes[i + 1] == rest[i];
        assert forall j | 0 < j < i + 1 :: volumes[j] == rest[j - 1];
      }
      if i :| 0 <= i < |volumes| && KnownStorage(volumes[i]) && volumes[i].source == source
              && forall j | 0 <= j < i :: !KnownStorage(volumes[j]) {
        assert rest[i - 1] == volumes[i];
        assert forall j | 0 <= j < i - 1 :: rest[j] == volumes[j + 1];
      }
    }
  }

  /** All the arguments of the containers of the store, in order. */
  function StoreArgs(containers: seq<Container>): seq<string> {
    if containers == [] then []
    else
      var last := containers[|containers| - 1];
      StoreArgs(containers[..|containers| - 1]) + if last.name == "victoria-metrics" then last.args else []
  }

  lemma {:induction false} RetentionArgsConcat(a: seq<string>, b: seq<string>, days: int)
    ensures RetentionArgs(a + b, days) == RetentionArgs(b, RetentionArgs(a, days))
  {
    if b == [] {
      assert a + b == a;
    } else {
      assert (a + b)[..|a + b| - 1] == a + b[..|b| - 1];
      RetentionArgsConcat(a, b[..|b| - 1], days);
    }
  }

  lemma {:induction false} RetentionOfArgs(containers: seq<Container>)
    ensures RetentionOf(containers) == RetentionArgs(StoreArgs(containers), 0)
  {
    if containers != [] {
      var before, last := containers[..|containers| - 1], containers[|containers| - 1];
      RetentionOfArgs(before);
      if last.name == "victoria-metrics" {
        RetentionArgsConcat(StoreArgs(before), last.args, 0);
      } else {
        assert StoreArgs(containers) == StoreArgs(before);
      }
    }
  }

  lemma {:induction false} NoLaterFlag(args: seq<string>, i: nat, days: int)
    requires i < |args| && RETENTION_FLAG <= args[i]
    requires forall j | i < j < |args| :: !(RETENTION_FLAG <= args[j])
    ensures RetentionArgs(args, days) == AtoiValue(TrimDays(args[i][|RETENTION_FLAG|..]))
  {
    if i < |args| - 1 {
      NoLaterFlag(args[..|args| - 1], i, days);
    }
  }

  /** The retention is the number of days in the last retention flag of any container of the store. */
  lemma LastFlagWins(containers: seq<Container>, i: nat)
    requires i < |StoreArgs(containers)| && RETENTION_FLAG <= StoreArgs(containers)[i]
    requires forall j | i < j < |StoreArgs(containers)| :: !(RETENTION_FLAG <= StoreArgs(containers)[j])
    ensures RetentionOf(containers) == AtoiValue(TrimDays(StoreArgs(containers)[i][|RETENTION_FLAG|..]))
  {
    RetentionOfArgs(containers);
    NoLaterFlag(StoreArgs(containers), i, 0);
  }

  method ReadStorage(volumes: seq<Volume>) returns (source: Source)
    ensures source == StorageOf(volumes)
  {
    var i := 0;
    assert volumes[0..] == volumes;
    while i < |volumes|
      invariant 0 <= i <= |volumes|
      invariant StorageOf(volumes) == StorageOf(volumes[i..])
    {
      if volumes[i].name == "storage" && !volumes[i].source.OtherSource? {
        return volumes[i].source;
      }
      assert volumes[i..][1..] == volumes[i + 1..];
      i := i + 1;
    }
    return OtherSource;
  }

  method ReadRetention(containers: seq<Container>) returns (days: int)
    ensures days == RetentionOf(containers)
  {
    days := 0;
    var c := 0;
    while c < |containers|
      invariant 0 <= c <= |containers|
      invariant days == RetentionOf(containers[..c])
    {
      assert containers[..c + 1][..c] == containers[..c];
      if containers[c].name == "victoria-metrics" {
        var args, a := containers[c].args, 0;
        while a < |args|
          invariant 0 <= a <= |args|
          invariant days == RetentionArgs(args[..a], RetentionOf(containers[..c]))
        {
          assert args[..a + 1][..a] == args[..a];
          if RETENTION_FLAG <= args[a] {
            days := AtoiValue(TrimDays(args[a][|RETENTION_FLAG|..]));
          }
          a := a + 1;
        }
        assert args[..a] == args;
      }
      c := c + 1;
    }
    assert containers[..c] == containers;
  }

  /** The reader: the first deciding volume, then every argument of every matching container. */
  method ReadConfig(d: Deployment) returns (config: Config, recognized: bool)
    ensures config == ConfigOf(d)
    ensures recognized == Recognized(config)
    ensures recognized <==> d.hostname != "" && (config.dataPath != "" || config.storage == "managed")
  {
    var source := ReadStorage(d.volumes);
    var days := ReadRetention(d.containers);
    config := Config(
      d.hostname,
      if source.Claim? then "managed" else "",
      if source.HostPath? then source.path else "",
      days);
    recognized := config.nodeName != "" && (config.dataPath != "" || config.storage != "");
  }

  // ---------- rendering ----------

  function Rendered(c: Config): Deployment {
    Deployment(
      1,
      c.nodeName,
      [Volume("storage", if c.dataPath != "" then HostPath(c.dataPath) else Claim(CLAIM_NAME)),
       Volume("scrape-config", OtherSource)],
      [Container("victoria-metrics",
         [DATA_ARG, RETENTION_FLAG + Itoa(c.retentionDays) + "d", SCRAPE_ARG])])
  }

  lemma RetentionFlagRoundTrip(days: int, otherwise: int)
    requires MIN_INT64 <= days <= MAX_INT64
    ensures RetentionArg(RETENTION_FLAG + Itoa(days) + "d", otherwise) == days
  {
    var arg := RETENTION_FLAG + Itoa(days) + "d";
    assert arg[|RETENTION_FLAG|..] == Itoa(days) + "d";
    assert (Itoa(days) + "d")[..|Itoa(days)|] == Itoa(days);
    ItoaAtoi(days);
  }

  lemma RenderedArgsRetention(flag: string, days: int)
    requires RETENTION_FLAG <= flag && RetentionArg(flag, 0) == days
    ensures RetentionArgs([DATA_ARG, flag, SCRAPE_ARG], 0) == days
  {
    var args := [DATA_ARG, flag, SCRAPE_ARG];
    assert args[..2] == [DATA_ARG, flag] && [DATA_ARG, flag][..1] == [DATA_ARG] && [DATA_ARG][..0] == [];
    assert RETENTION_FLAG[1] == 'r' && DATA_ARG[1] == 's' && SCRAPE_ARG[1] == 'p';
    assert !(RETENTION_FLAG <= DATA_ARG) && !(RETENTION_FLAG <= SCRAPE_ARG);
  }

  /** Reading a rendered Deployment gives the settings back, for every retention an `int` can hold. */
  lemma RenderRoundTrip(c: Config)
    requires MIN_INT64 <= c.retentionDays <= MAX_INT64
    requires c.storage == if c.dataPath == "" then "managed" else ""
    ensures ConfigOf(Rendered(c)) == c
  {
    var d := Rendered(c);
    var flag := RETENTION_FLAG + Itoa(c.retentionDays) + "d";
    RetentionFlagRoundTrip(c.retentionDays, 0);
    assert RETENTION_FLAG <= flag;
    RenderedArgsRetention(flag, c.retentionDays);
    assert d.containers[..0] == [] && d.containers[0].args == [DATA_ARG, flag, SCRAPE_ARG];
    assert RetentionOf(d.containers) == RetentionArgs(d.containers[0].args, 0);
    assert StorageOf(d.volumes) == d.volumes[0].source;
  }

  lemma {:induction false} RetentionArgsInRange(args: seq<string>, days: int)
    requires MIN_INT64 <= days <= MAX_INT64
    ensures MIN_INT64 <= RetentionArgs(args, days) <= MAX_INT64
  {
    if args != [] {
      RetentionArgsInRange(args[..|args| - 1], days);
    }
  }

  lemma {:induction false} RetentionInRange(containers: seq<Container>)
    ensures MIN_INT64 <= RetentionOf(containers) <= MAX_INT64
  {
    if containers != [] {
      RetentionInRange(containers[..|containers| - 1]);
      RetentionArgsInRange(containers[|containers| - 1].args, RetentionOf(containers[..|containers| - 1]));
    }
  }

  /** The Deployment that moves the data onto the claim. */
  function OnClaim(d: Deployment): Deployment {
    Rendered(ConfigOf(d).(dataPath := "", storage := "managed"))
  }

  /** Moving any Deployment onto the claim keeps its node and its retention, as this program reads them. */
  lemma OnClaimKeepsSettings(d: Deployment)
    ensures ConfigOf(OnClaim(d)) == ConfigOf(d).(dataPath := "", storage := "managed")
    ensures OnClaim(d).replicas == 1
    ensures StorageOf(OnClaim(d).volumes) == Claim(CLAIM_NAME)
  {
    RetentionInRange(d.containers);
    RenderRoundTrip(ConfigOf(d).(dataPath := "", storage := "managed"));
  }
}
