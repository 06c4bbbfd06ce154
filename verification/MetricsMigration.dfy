/** Moving the metrics store from a host directory to a claim: start, the copy job, and the reconciliation that
    cuts over or restores, with a failure or a crash possible at every API call. */
module MetricsMigration {
  import opened Wrappers
  import opened MetricsConfig

  type Files = map<string, string>

  /** A directory of a node. */
  datatype Directory = Directory(node: string, path: string)

  /** What a directory or a claim holds; nothing if it does not exist yet. */
  function FilesAt(hosts: map<Directory, Files>, directory: Directory): Files {
    if directory in hosts then hosts[directory] else map[]
  }

  function FilesIn(claims: map<string, Files>, name: string): Files {
    if name in claims then claims[name] else map[]
  }

  // ---------- the copy job ----------

  datatype ConditionKind = Complete | Failure | OtherCondition

  datatype Condition = Condition(kind: ConditionKind, holds: bool)

  /** What the job mounts, and `delivered`, the source files it has extracted into its target claim so far. */
  datatype Job = Job(
    source: Directory, target: string, succeeded: nat, failed: nat, conditions: seq<Condition>, delivered: set<string>)

  predicate HasCondition(job: Job, kind: ConditionKind) {
    exists i | 0 <= i < |job.conditions| :: job.conditions[i] == Condition(kind, true)
  }

  predicate JobSucceeded(job: Job) {
    job.succeeded > 0 || HasCondition(job, Complete)
  }

  predicate JobFailed(job: Job) {
    job.failed > 0 || HasCondition(job, Failure)
  }

  predicate JobRunning(job: Job) {
    !JobSucceeded(job) && !JobFailed(job)
  }

  /** The job that is created for a store with these settings. */
  function NewJob(c: Config): Job {
    Job(Directory(c.nodeName, c.dataPath), CLAIM_NAME, 0, 0, [], {})
  }

  /** What extracting part of the source leaves in the target. */
  function Extracted(target: Files, source: Files, paths: set<string>): Files {
    target + map p | p in paths && p in source :: source[p]
  }

  /** The last part of the job's command: both sides hold the same number of files. */
  predicate CountsMatch(source: Files, target: Files) {
    |source| == |target|
  }

  function Finished(job: Job, passed: bool, byCondition: bool): Job {
    if byCondition then job.(conditions := job.conditions + [Condition(if passed then Complete else Failure, true)])
    else if passed then job.(succeeded := 1)
    else job.(failed := 1)
  }

  // ---------- the system ----------

  /** All claims and all directories by their names. `truth` is what a reader of the metrics store must see; `copied`
      records that some job passed. */
  datatype State = State(
    deployment: Deployment,
    job: Option<Job>,
    claims: map<string, Files>,
    hosts: map<Directory, Files>,
    nodeReady: bool,
    truth: Files,
    copied: bool)

  predicate OnHost(d: Deployment) {
    Recognized(ConfigOf(d)) && ConfigOf(d).dataPath != ""
  }

  /** What the running store reads: the files of whatever its Deployment mounts, on the node it runs on. */
  function Mounted(s: State): Files {
    match StorageOf(s.deployment.volumes)
    case HostPath(path) => FilesAt(s.hosts, Directory(s.deployment.hostname, path))
    case Claim(name) => FilesIn(s.claims, name)
    case OtherSource => map[]
  }

  /** What can happen at one API call: it works, it fails without effect, or the platform dies there. */
  datatype Call = Works | Errors | Dies

  datatype StatusCalls = StatusCalls(getDeployment: Call, getJob: Call, restore: Call, getAgain: Call, upsert: Call,
      deleteJob: Call)

  datatype StartCalls = StartCalls(
    getDeployment: Call, getNode: Call, getJob: Call, deleteJob: Call, namespace: Call, claim: Call,
    scaleDown: Call, createJob: Call, scaleUp: Call, status: StatusCalls)

  const FLAWLESS := StatusCalls(Works, Works, Works, Works, Works, Works)

  function Scaled(s: State, replicas: int): State {
    s.(deployment := s.deployment.(replicas := replicas))
  }

  /** No file is written, and a store that is on a claim at most gets its replicas set. */
  predicate WritesNoFiles(s: State, z: State) {
    && z.claims == s.claims && z.hosts == s.hosts && z.truth == s.truth
    && (!OnHost(s.deployment) ==> z.deployment == s.deployment.(replicas := z.deployment.replicas))
  }

  /** `reconcileVictoriaMetricsMigration`. */
  function Reconciled(s: State, f: StatusCalls): (z: State)
    ensures WritesNoFiles(s, z)
  {
    if !f.getJob.Works? || s.job.None? then s
    else if JobFailed(s.job.value) then (if f.restore.Works? then Scaled(s, 1) else s)
    else if !JobSucceeded(s.job.value) || !f.getAgain.Works? then s
    else if !OnHost(s.deployment) || !f.upsert.Works? then s
    else
      var cut := s.(deployment := OnClaim(s.deployment));
      if f.deleteJob.Works? then cut.(job := None) else cut
  }

  /** Every answer of the component reads its status, and reading the status reconciles. */
  function Status(s: State, f: StatusCalls): (z: State)
    ensures WritesNoFiles(s, z)
  {
    if f.getDeployment.Works? then Reconciled(s, f) else s
  }

  function After(call: Call, s: State, f: StatusCalls, next: State): State {
    match call
    case Works => next
    case Errors => Status(s, f)
    case Dies => s
  }

  /** What keeps a start from preparing: a refusal or an error, a crash, or nothing. A failed job is deleted last. */
  function Obstacle(s: State, storageValid: bool, f: StartCalls): Call {
    if !storageValid then Errors
    else if !f.getDeployment.Works? then f.getDeployment
    else if !OnHost(s.deployment) then Errors
    else if !f.getNode.Works? then f.getNode
    else if !s.nodeReady then Errors
    else if !f.getJob.Works? then f.getJob
    else if s.job.None? then Works
    else if !JobFailed(s.job.value) then Errors
    else f.deleteJob
  }

  /** `startVictoriaMetricsHostPathMigration`. */
  function Started(s: State, storageValid: bool, f: StartCalls): (z: State)
    ensures OnHost(s.deployment) || WritesNoFiles(s, z)
    ensures z.hosts == s.hosts && z.truth == s.truth && (z.claims == s.claims || z.claims == WithClaim(s).claims)
  {
    After(Obstacle(s, storageValid, f), s, f.status, Prepared(s.(job := None), ConfigOf(s.deployment), f))
  }

  function WithClaim(s: State): State {
    if CLAIM_NAME in s.claims then s else s.(claims := s.claims[CLAIM_NAME := map[]])
  }

  function Prepared(s: State, config: Config, f: StartCalls): (z: State)
    ensures z.hosts == s.hosts && z.truth == s.truth && (z.claims == s.claims || z.claims == WithClaim(s).claims)
  {
    After(if f.namespace.Works? then f.claim else f.namespace, s, f.status, Stopped(WithClaim(s), config, f))
  }

  function Stopped(s: State, config: Config, f: StartCalls): (z: State)
    ensures z.hosts == s.hosts && z.truth == s.truth && z.claims == s.claims
  {
    After(f.scaleDown, s, f.status, Launched(Scaled(s, 0), config, f))
  }

  function Launched(s: State, config: Config, f: StartCalls): (z: State)
    ensures z.hosts == s.hosts && z.truth == s.truth && z.claims == s.claims
  {
    match f.createJob
    case Works => Status(s.(job := Some(NewJob(config))), f.status)
    case Errors => After(f.scaleUp, s, f.status, Status(Scaled(s, 1), f.status))
    case Dies => s
  }

  datatype Action =
    | Start(storageValid: bool, calls: StartCalls)
    | ReadStatus(statusCalls: StatusCalls)
    | Copy(paths: set<string>)
    | Finish(passed: bool, byCondition: bool)
    | Serve(files: Files)
    | NodeChange(ready: bool)

  /** The running job extracts part of the directory it mounts into the claim it mounts. */
  function Copied(s: State, paths: set<string>): State {
    if s.job.Some? && JobRunning(s.job.value) then
      var job := s.job.value;
      var source := FilesAt(s.hosts, job.source);
      s.(claims := s.claims[job.target := Extracted(FilesIn(s.claims, job.target), source, paths)],
         job := Some(job.(delivered := job.delivered + paths * source.Keys)))
    else
      s
  }

  /** The job ends: it can fail at any time, and pass only if the two file counts agree. */
  function Ended(s: State, passed: bool, byCondition: bool): State {
    if s.job.Some? && JobRunning(s.job.value)
       && (passed ==> CountsMatch(FilesAt(s.hosts, s.job.value.source), FilesIn(s.claims, s.job.value.target)))
    then s.(job := Some(Finished(s.job.value, passed, byCondition)), copied := s.copied || passed)
    else s
  }

  /** A running metrics store rewrites whatever it has mounted. */
  function Served(s: State, files: Files): State {
    if s.deployment.replicas < 1 then s
    else
      match StorageOf(s.deployment.volumes)
      case HostPath(path) => s.(hosts := s.hosts[Directory(s.deployment.hostname, path) := files], truth := files)
      case Claim(name) => s.(claims := s.claims[name := files], truth := files)
      case OtherSource => s
  }

  function Step(s: State, a: Action): State {
    match a
    case Start(valid, calls) => Started(s, valid, calls)
    case ReadStatus(calls) => Status(s, calls)
    case Copy(paths) => Copied(s, paths)
    case Finish(passed, byCondition) => Ended(s, passed, byCondition)
    case Serve(files) => Served(s, files)
    case NodeChange(ready) => s.(nodeReady := ready)
  }

  function Exec(s: State, run: seq<Action>): State {
    if run == [] then s else Step(Exec(s, run[..|run| - 1]), run[|run| - 1])
  }

  /** A metrics store on a host directory that has never been migrated. The claims may hold anything. */
  predicate Initial(s: State) {
    && OnHost(s.deployment)
    && s.job.None?
    && Mounted(s) == s.truth
    && !s.copied
  }

  // ---------- the component as it is called ----------

  class MetricsStore {
    var deployment: Deployment
    var job: Option<Job>
    var claims: map<string, Files>
    ghost var rest: State

    /** The whole system, of which the component changes the Deployment, the Job and the claims. */
    ghost function View(): State
      reads this
    {
      rest.(deployment := deployment, job := job, claims := claims)
    }

    constructor (s: State)
      ensures View() == s
    {
      deployment, job, claims, rest := s.deployment, s.job, s.claims, s;
    }

    method Scale(replicas: int, call: Call) returns (done: bool)
      modifies this`deployment
      ensures done == call.Works?
      ensures deployment == if done then old(deployment).(replicas := replicas) else old(deployment)
    {
      done := call.Works?;
      if done {
        deployment := deployment.(replicas := replicas);
      }
    }

    method Reconcile(f: StatusCalls)
      modifies this`deployment, this`job
      ensures View() == Reconciled(old(View()), f)
    {
      if !f.getJob.Works? || job.None? {
        return;
      }
      if JobFailed(job.value) {
        var _ := Scale(1, f.restore);
        return;
      }
      if !JobSucceeded(job.value) || !f.getAgain.Works? {
        return;
      }
      var config, recognized := ReadConfig(deployment);
      if !recognized || config.dataPath == "" {
        return;
      }
      if !f.upsert.Works? {
        return;
      }
      deployment := Rendered(config.(dataPath := "", storage := "managed"));
      if f.deleteJob.Works? {
        job := None;
      }
    }

    method ReportStatus(f: StatusCalls)
      modifies this`deployment, this`job
      ensures View() == Status(old(View()), f)
    {
      if f.getDeployment.Works? {
        Reconcile(f);
      }
    }

    /** An API call that did not work: an error is answered with the status, a crash with nothing. */
    method GiveUp(call: Call, f: StatusCalls)
      requires !call.Works?
      modifies this`deployment, this`job
      ensures View() == After(call, old(View()), f, old(View()))
    {
      if call.Errors? {
        ReportStatus(f);
      }
    }

    method StartMigration(storageValid: bool, nodeReady: bool, f: StartCalls)
      requires nodeReady == rest.nodeReady
      modifies this`deployment, this`job, this`claims
      ensures View() == Started(old(View()), storageValid, f)
    {
      if !storageValid {
        ReportStatus(f.status);
        return;
      }
      if !f.getDeployment.Works? {
        GiveUp(f.getDeployment, f.status);
        return;
      }
      var config, recognized := ReadConfig(deployment);
      if !recognized || config.dataPath == "" {
        ReportStatus(f.status);
        return;
      }
      if !f.getNode.Works? {
        GiveUp(f.getNode, f.status);
        return;
      }
      if !nodeReady {
        ReportStatus(f.status);
        return;
      }
      if !f.getJob.Works? {
        GiveUp(f.getJob, f.status);
        return;
      }
      if job.Some? {
        if !JobFailed(job.value) {
          ReportStatus(f.status);
          return;
        }
        if !f.deleteJob.Works? {
          GiveUp(f.deleteJob, f.status);
          return;
        }
        job := None;
      }
      Prepare(config, f);
    }

    method Prepare(config: Config, f: StartCalls)
      modifies this`deployment, this`job, this`claims
      ensures View() == Prepared(old(View()), config, f)
    {
      if !f.namespace.Works? {
        GiveUp(f.namespace, f.status);
        return;
      }
      if !f.claim.Works? {
        GiveUp(f.claim, f.status);
        return;
      }
      if CLAIM_NAME !in claims {
        claims := claims[CLAIM_NAME := map[]];
      }
      if !f.scaleDown.Works? {
        GiveUp(f.scaleDown, f.status);
        return;
      }
      var _ := Scale(0, f.scaleDown);
      Launch(config, f);
    }

    method Launch(config: Config, f: StartCalls)
      modifies this`deployment, this`job
      ensures View() == Launched(old(View()), config, f)
    {
      if f.createJob.Works? {
        job := Some(NewJob(config));
        ReportStatus(f.status);
      } else if f.createJob.Errors? {
        if !f.scaleUp.Works? {
          GiveUp(f.scaleUp, f.status);
          return;
        }
        var _ := Scale(1, f.scaleUp);
        ReportStatus(f.status);
      }
    }
  }
}
