/** What a migration keeps, over every serialized run of starts, status reads, copies, job ends and writes. */
module MetricsMigrationSafety {
  import opened Wrappers
  import opened Decimal
  import opened MetricsConfig
  import opened MetricsMigration

  // ---------- the copy ----------

  lemma SubsetOfEqualSize(a: set<string>, b: set<string>)
    requires a <= b && |a| == |b|
    ensures a == b
  {
    assert |b - a| == |b| - |a|;
  }

  ghost predicate Agrees(source: Files, target: Files, paths: set<string>) {
    forall p <- paths :: p in source && p in target && target[p] == source[p]
  }

  lemma SameCountAndAgreement(source: Files, target: Files)
    requires Agrees(source, target, source.Keys) && CountsMatch(source, target)
    ensures target == source
  {
    SubsetOfEqualSize(source.Keys, target.Keys);
  }

  /** A job that passes its count test over any leftovers made the target equal to the source exactly when every
      source file it failed to deliver was already there unchanged; delivering every file is enough. */
  lemma PassedCopyIsExact(source: Files, leftovers: Files, paths: set<string>)
    requires CountsMatch(source, Extracted(leftovers, source, paths))
    ensures Extracted(leftovers, source, paths) == source <==> Agrees(source, leftovers, source.Keys - paths)
    ensures source.Keys <= paths ==> Extracted(leftovers, source, paths) == source
  {
    var target := Extracted(leftovers, source, paths);
    if Agrees(source, leftovers, source.Keys - paths) {
      SameCountAndAgreement(source, target);
    }
    if target == source {
      forall p <- source.Keys - paths ensures p in leftovers && leftovers[p] == source[p] {
        assert target[p] == source[p];
      }
    }
  }

  lemma {:induction false} SubsetOfSize(a: set<string>, size: nat) returns (b: set<string>)
    requires size <= |a|
    ensures b <= a && |b| == size
  {
    if size == |a| {
      b := a;
    } else {
      var x :| x in a;
      b := SubsetOfSize(a - {x}, size);
    }
  }

  /** The files only the claim has, and those only the source has. */
  function Extra(source: Files, leftovers: Files): set<string> {
    leftovers.Keys - source.Keys
  }

  function Lacking(source: Files, leftovers: Files): set<string> {
    source.Keys - leftovers.Keys
  }

  ghost predicate SharedUnchanged(source: Files, leftovers: Files) {
    forall p <- leftovers :: p in source ==> leftovers[p] == source[p]
  }

  /** Whatever part of the source the job delivers, passing the count test means the copy is exact. */
  ghost predicate TestIsSound(source: Files, leftovers: Files) {
    forall paths: set<string> ::
      CountsMatch(source, Extracted(leftovers, source, paths)) ==> Extracted(leftovers, source, paths) == source
  }

  lemma CountOfExtracted(source: Files, leftovers: Files, paths: set<string>)
    ensures |Extracted(leftovers, source, paths)| == |leftovers| + |paths * Lacking(source, leftovers)|
  {
    var keys := Extracted(leftovers, source, paths).Keys;
    assert keys == leftovers.Keys + paths * Lacking(source, leftovers);
    assert |keys| == |leftovers.Keys| + |paths * Lacking(source, leftovers)|;
  }

  lemma CountsMatchIff(source: Files, leftovers: Files, paths: set<string>)
    ensures CountsMatch(source, Extracted(leftovers, source, paths)) <==>
              |paths * Lacking(source, leftovers)| + |Extra(source, leftovers)| == |Lacking(source, leftovers)|
  {
    CountOfExtracted(source, leftovers, paths);
    SplitCount(source.Keys, leftovers.Keys);
    SplitCount(leftovers.Keys, source.Keys);
    assert source.Keys * leftovers.Keys == leftovers.Keys * source.Keys;
  }

  lemma SplitCount(a: set<string>, b: set<string>)
    ensures |a| == |a - b| + |a * b|
  {
    assert a == (a - b) + a * b;
  }

  /** An unlucky part: as many new files as make up the count, and no shared one. */
  lemma UnluckyPart(source: Files, leftovers: Files)
    requires TestIsSound(source, leftovers) && |Extra(source, leftovers)| <= |Lacking(source, leftovers)|
    ensures Extra(source, leftovers) == {} && SharedUnchanged(source, leftovers)
  {
    var lacking, extra := Lacking(source, leftovers), Extra(source, leftovers);
    var paths := SubsetOfSize(lacking, |lacking| - |extra|);
    assert paths * lacking == paths;
    CountsMatchIff(source, leftovers, paths);
    var target := Extracted(leftovers, source, paths);
    assert target == source;
    forall p | p in leftovers
      ensures p in source && leftovers[p] == source[p]
    {
      assert p in target && target[p] == leftovers[p];
    }
  }

  lemma NothingExtra(source: Files, leftovers: Files, paths: set<string>)
    requires Extra(source, leftovers) == {} && SharedUnchanged(source, leftovers)
    requires CountsMatch(source, Extracted(leftovers, source, paths))
    ensures Extracted(leftovers, source, paths) == source
  {
    var lacking := Lacking(source, leftovers);
    CountsMatchIff(source, leftovers, paths);
    SubsetOfEqualSize(paths * lacking, lacking);
    assert forall p <- source :: p in leftovers || p in paths * lacking;
    PassedCopyIsExact(source, leftovers, paths);
  }

  /** What an operator can check before a migration: the count test can be trusted exactly when the claim holds more
      files of its own than it lacks, in which case no job passes, or none of its own and every other one unchanged. */
  lemma TestIsSoundIff(source: Files, leftovers: Files)
    ensures TestIsSound(source, leftovers) <==>
              || |Extra(source, leftovers)| > |Lacking(source, leftovers)|
              || (Extra(source, leftovers) == {} && SharedUnchanged(source, leftovers))
  {
    if TestIsSound(source, leftovers) && |Extra(source, leftovers)| <= |Lacking(source, leftovers)| {
      UnluckyPart(source, leftovers);
    }
    forall paths: set<string> | CountsMatch(source, Extracted(leftovers, source, paths))
        && !TestIsSound(source, leftovers)
      ensures Extra(source, leftovers) == {} && SharedUnchanged(source, leftovers)
              ==> Extracted(leftovers, source, paths) == source
      ensures |Extra(source, leftovers)| <= |Lacking(source, leftovers)|
    {
      CountsMatchIff(source, leftovers, paths);
      if Extra(source, leftovers) == {} && SharedUnchanged(source, leftovers) {
        NothingExtra(source, leftovers, paths);
      }
    }
  }

  /** In particular on an empty claim. */
  lemma EmptyClaimIsSound(source: Files)
    ensures TestIsSound(source, map[])
  {
    TestIsSoundIff(source, map[]);
  }

  /** The archiver's own exit code is not looked at: a skipped file goes unnoticed when a leftover makes up the
      count. */
  lemma SkippedFileCanPass()
    ensures exists source: Files, leftovers: Files, paths: set<string> ::
              var target := Extracted(leftovers, source, paths);
              CountsMatch(source, target) && target != source
  {
    var source: Files := map["index" := "new"];
    var leftovers: Files := map["index" := "old"];
    var target := Extracted(leftovers, source, {});
    assert target == leftovers && target["index"] != source["index"];
    assert CountsMatch(source, target) && target != source;
  }

  // ---------- the invariant ----------

  /** Relative to the settings `base` the store had before any migration. */
  ghost predicate Inv(s: State, base: Config) {
    && base.dataPath != "" && base.nodeName != "" && base.storage == ""
    && (ConfigOf(s.deployment) == base || CutOver(s, base))
    && (s.job.Some? ==>
          && s.job.value.source == Directory(base.nodeName, base.dataPath) && s.job.value.target == CLAIM_NAME
          && !(JobSucceeded(s.job.value) && JobFailed(s.job.value))
          && (JobSucceeded(s.job.value) ==> s.copied)
          && (OnHost(s.deployment) && !JobFailed(s.job.value) ==> s.deployment.replicas == 0)
          && (!OnHost(s.deployment) ==> JobSucceeded(s.job.value)))
  }

  /** The store runs on the claim the job copied into, with its node and retention, and some job has passed. */
  predicate CutOver(s: State, base: Config) {
    && ConfigOf(s.deployment) == base.(dataPath := "", storage := "managed")
    && StorageOf(s.deployment.volumes) == Claim(CLAIM_NAME)
    && s.copied && s.deployment.replicas == 1
  }

  function SourceOf(s: State): Files
    requires s.job.Some?
  {
    FilesAt(s.hosts, s.job.value.source)
  }

  function TargetOf(s: State): Files
    requires s.job.Some?
  {
    FilesIn(s.claims, s.job.value.target)
  }

  /** What the store has mounted is what a reader must see, and a passed copy that is not yet in use is exact. */
  ghost predicate DataInv(s: State) {
    && Mounted(s) == s.truth
    && (s.job.Some? && OnHost(s.deployment) && !JobFailed(s.job.value) ==>
          && Agrees(SourceOf(s), TargetOf(s), s.job.value.delivered)
          && (JobSucceeded(s.job.value) ==> TargetOf(s) == SourceOf(s)))
  }

  lemma ReconcileKeepsInv(s: State, base: Config, f: StatusCalls)
    requires Inv(s, base)
    ensures Inv(Reconciled(s, f), base)
    ensures DataInv(s) ==> DataInv(Reconciled(s, f))
  {
    OnClaimKeepsSettings(s.deployment);
  }

  lemma ScaleKeepsInv(s: State, base: Config, replicas: int)
    requires Inv(s, base) && OnHost(s.deployment) && s.job.None?
    ensures Inv(Scaled(s, replicas), base) && OnHost(Scaled(s, replicas).deployment)
    ensures DataInv(s) ==> DataInv(Scaled(s, replicas))
  {
  }

  lemma StatusKeepsInv(s: State, base: Config, f: StatusCalls)
    requires Inv(s, base)
    ensures Inv(Status(s, f), base)
    ensures DataInv(s) ==> DataInv(Status(s, f))
  {
    ReconcileKeepsInv(s, base, f);
  }

  lemma LaunchKeepsInv(s: State, base: Config, f: StartCalls)
    requires Inv(s, base) && OnHost(s.deployment) && s.job.None? && s.deployment.replicas == 0
    ensures Inv(Launched(s, base, f), base)
    ensures DataInv(s) ==> DataInv(Launched(s, base, f))
  {
    ScaleKeepsInv(s, base, 1);
    StatusKeepsInv(Scaled(s, 1), base, f.status);
    StatusKeepsInv(s, base, f.status);
    var launched := s.(job := Some(NewJob(base)));
    assert JobRunning(NewJob(base));
    StatusKeepsInv(launched, base, f.status);
  }

  lemma StopKeepsInv(s: State, base: Config, f: StartCalls)
    requires Inv(s, base) && OnHost(s.deployment) && s.job.None?
    ensures Inv(Stopped(s, base, f), base)
    ensures DataInv(s) ==> DataInv(Stopped(s, base, f))
  {
    StatusKeepsInv(s, base, f.status);
    ScaleKeepsInv(s, base, 0);
    LaunchKeepsInv(Scaled(s, 0), base, f);
  }

  lemma ClaimKeepsInv(s: State, base: Config)
    requires Inv(s, base) && OnHost(s.deployment) && s.job.None?
    ensures Inv(WithClaim(s), base)
    ensures DataInv(s) ==> DataInv(WithClaim(s))
  {
  }

  lemma PrepareKeepsInv(s: State, base: Config, f: StartCalls)
    requires Inv(s, base) && OnHost(s.deployment) && s.job.None?
    ensures Inv(Prepared(s, base, f), base)
    ensures DataInv(s) ==> DataInv(Prepared(s, base, f))
  {
    StatusKeepsInv(s, base, f.status);
    ClaimKeepsInv(s, base);
    StopKeepsInv(WithClaim(s), base, f);
  }

  lemma ForgetKeepsInv(s: State, base: Config)
    requires Inv(s, base) && OnHost(s.deployment)
    ensures Inv(s.(job := None), base)
    ensures DataInv(s) ==> DataInv(s.(job := None))
  {
  }

  lemma StartKeepsInv(s: State, base: Config, valid: bool, f: StartCalls)
    requires Inv(s, base)
    ensures Inv(Started(s, valid, f), base)
    ensures DataInv(s) ==> DataInv(Started(s, valid, f))
  {
    StatusKeepsInv(s, base, f.status);
    if Obstacle(s, valid, f).Works? {
      ForgetKeepsInv(s, base);
      PrepareKeepsInv(s.(job := None), base, f);
    }
  }

  lemma FinishedJob(job: Job, passed: bool, byCondition: bool)
    requires JobRunning(job)
    ensures var done := Finished(job, passed, byCondition);
            JobSucceeded(done) == passed && JobFailed(done) == !passed && done.delivered == job.delivered
  {
    var done := Finished(job, passed, byCondition);
    if byCondition {
      assert done.conditions[|job.conditions|] == Condition(if passed then Complete else Failure, true);
    }
  }

  lemma EndKeepsInv(s: State, base: Config, passed: bool, byCondition: bool)
    requires Inv(s, base)
    ensures Inv(Ended(s, passed, byCondition), base)
    ensures DataInv(s) && Complies(s, Finish(passed, byCondition)) ==> DataInv(Ended(s, passed, byCondition))
  {
    if s.job.Some? && JobRunning(s.job.value) {
      FinishedJob(s.job.value, passed, byCondition);
      if DataInv(s) && Complies(s, Finish(passed, byCondition)) {
        EndKeepsData(s, passed, byCondition);
      }
    }
  }

  lemma EndKeepsData(s: State, passed: bool, byCondition: bool)
    requires s.job.Some? && JobRunning(s.job.value) && DataInv(s) && Complies(s, Finish(passed, byCondition))
    ensures DataInv(Ended(s, passed, byCondition))
  {
    FinishedJob(s.job.value, passed, byCondition);
    if OnHost(s.deployment) && passed && CountsMatch(SourceOf(s), TargetOf(s)) {
      SameCountAndAgreement(SourceOf(s), TargetOf(s));
    }
  }

  lemma CopyKeepsInv(s: State, base: Config, paths: set<string>)
    requires Inv(s, base)
    ensures Inv(Copied(s, paths), base)
    ensures DataInv(s) ==> DataInv(Copied(s, paths))
  {
    if s.job.Some? && JobRunning(s.job.value) {
      var job := s.job.value;
      assert JobRunning(job.(delivered := job.delivered + paths * SourceOf(s).Keys));
    }
  }

  /** A job that passes has delivered every file of its source. */
  predicate Complies(s: State, a: Action) {
    a.Finish? && a.passed && s.job.Some? && JobRunning(s.job.value) ==> SourceOf(s).Keys <= s.job.value.delivered
  }

  ghost predicate RunComplies(s: State, run: seq<Action>) {
    forall i | 0 <= i < |run| :: Complies(Exec(s, run[..i]), run[i])
  }

  lemma StepKeepsInv(s: State, base: Config, a: Action)
    requires Inv(s, base)
    ensures Inv(Step(s, a), base)
    ensures DataInv(s) && Complies(s, a) ==> DataInv(Step(s, a))
  {
    match a
    case Start(valid, calls) => StartKeepsInv(s, base, valid, calls);
    case ReadStatus(calls) => StatusKeepsInv(s, base, calls);
    case Copy(paths) => CopyKeepsInv(s, base, paths);
    case Finish(passed, byCondition) => EndKeepsInv(s, base, passed, byCondition);
    case Serve(files) => ServeKeepsInv(s, base, files);
    case NodeChange(_) =>
  }

  lemma ServeKeepsInv(s: State, base: Config, files: Files)
    requires Inv(s, base)
    ensures Inv(Served(s, files), base)
    ensures DataInv(s) ==> DataInv(Served(s, files))
  {
  }

  lemma {:induction false} RunKeepsInv(s: State, base: Config, run: seq<Action>)
    requires Inv(s, base)
    ensures Inv(Exec(s, run), base)
  {
    if run != [] {
      RunKeepsInv(s, base, run[..|run| - 1]);
      StepKeepsInv(Exec(s, run[..|run| - 1]), base, run[|run| - 1]);
    }
  }

  lemma {:induction false} RunKeepsData(s: State, base: Config, run: seq<Action>)
    requires Inv(s, base) && DataInv(s) && RunComplies(s, run)
    ensures DataInv(Exec(s, run))
  {
    if run != [] {
      var before := run[..|run| - 1];
      assert forall i | 0 <= i < |before| :: before[..i] == run[..i] && before[i] == run[i];
      RunKeepsData(s, base, before);
      RunKeepsInv(s, base, before);
      StepKeepsInv(Exec(s, before), base, run[|run| - 1]);
    }
  }

  // ---------- the guarantees ----------

  /** In every run: the store is on a claim only if some job passed its test, and then on the claim the job copied into;
      while a job is unfinished nothing runs; the node and the retention never change, nor does the directory until the
      cutover. */
  lemma MigrationIsSafe(s: State, run: seq<Action>)
    requires Initial(s)
    ensures var z := Exec(s, run);
            && (!OnHost(z.deployment) ==>
                  z.copied && z.deployment.replicas == 1 && StorageOf(z.deployment.volumes) == Claim(CLAIM_NAME))
            && (z.job.Some? ==> z.job.value.target == CLAIM_NAME)
            && (z.job.Some? && JobRunning(z.job.value) ==> OnHost(z.deployment) && z.deployment.replicas == 0)
            && ConfigOf(z.deployment).nodeName == ConfigOf(s.deployment).nodeName
            && ConfigOf(z.deployment).retentionDays == ConfigOf(s.deployment).retentionDays
            && (OnHost(z.deployment) ==> ConfigOf(z.deployment) == ConfigOf(s.deployment))
  {
    RunKeepsInv(s, ConfigOf(s.deployment), run);
  }

  /** If every job that passes has delivered its whole source, no run ever loses or resurrects data: what the store has
      mounted is always exactly what it last wrote, across failed attempts, crashes and the cutover. */
  lemma MigrationLosesNothing(s: State, run: seq<Action>)
    requires Initial(s) && RunComplies(s, run)
    ensures Mounted(Exec(s, run)) == Exec(s, run).truth
  {
    RunKeepsData(s, ConfigOf(s.deployment), run);
  }

  // ---------- what a start does ----------

  /** A job has passed or failed by its counters or by a condition that holds. */
  lemma JobStateIff(job: Job)
    ensures JobSucceeded(job) <==> job.succeeded > 0 || Condition(Complete, true) in job.conditions
    ensures JobFailed(job) <==> job.failed > 0 || Condition(Failure, true) in job.conditions
  {
  }

  /** While a copy is running, and after one that passed, a start is refused whatever its calls do: job, claims and
      directories stay, and so do the replicas of a running copy. */
  lemma StartIsRefused(s: State, storageValid: bool, f: StartCalls)
    requires s.job.Some? && !JobFailed(s.job.value)
    ensures var z := Started(s, storageValid, f);
            && z.claims == s.claims && z.hosts == s.hosts && (z == s || z == Status(s, f.status))
            && (JobRunning(s.job.value) ==> z == s)
  {
  }

  /** When every call works, a start launches the copy exactly when the storage is valid, the store is on a directory,
      its node is ready and no copy is running or waiting to be cut over; otherwise it only reads the status. */
  lemma StartLaunchesIff(s: State, storageValid: bool, f: StartCalls)
    requires Undisturbed(f) && f.deleteJob.Works?
    ensures var z := Started(s, storageValid, f);
            var config := ConfigOf(s.deployment);
            if storageValid && config.nodeName != "" && config.dataPath != "" && s.nodeReady
               && (s.job.None? || JobFailed(s.job.value))
            then z == Scaled(WithClaim(s).(job := Some(NewJob(config))), 0)
            else z == Status(s, f.status)
  {
    assert JobRunning(NewJob(ConfigOf(s.deployment)));
  }

  // ---------- what is left alone ----------

  /** Only the claim of the store and, while the store runs on it, its directory are ever written. */
  ghost predicate LeavesOthers(s: State, z: State, base: Config) {
    && (forall name | name != CLAIM_NAME :: FilesIn(z.claims, name) == FilesIn(s.claims, name))
    && (forall d | d != Directory(base.nodeName, base.dataPath) :: FilesAt(z.hosts, d) == FilesAt(s.hosts, d))
  }

  lemma StepLeavesOthers(s: State, base: Config, a: Action)
    requires Inv(s, base)
    ensures LeavesOthers(s, Step(s, a), base)
    ensures !a.Serve? || !OnHost(s.deployment) ==> Step(s, a).hosts == s.hosts
  {
    match a
    case Start(valid, calls) => assert Step(s, a) == Started(s, valid, calls);
    case ReadStatus(calls) => assert WritesNoFiles(s, Status(s, calls));
    case Copy(paths) => CopyLeavesOthers(s, base, paths);
    case Finish(_, _) =>
    case Serve(files) => ServeLeavesOthers(s, base, files);
    case NodeChange(_) =>
  }

  lemma CopyLeavesOthers(s: State, base: Config, paths: set<string>)
    requires s.job.Some? ==> s.job.value.target == CLAIM_NAME
    ensures LeavesOthers(s, Copied(s, paths), base) && Copied(s, paths).hosts == s.hosts
  {
  }

  lemma ServeLeavesOthers(s: State, base: Config, files: Files)
    requires Inv(s, base)
    ensures LeavesOthers(s, Served(s, files), base)
    ensures !OnHost(s.deployment) ==> Served(s, files).hosts == s.hosts
  {
  }

  /** In every run no other claim and no other directory changes. */
  lemma {:induction false} MigrationLeavesOthers(s: State, run: seq<Action>)
    requires Initial(s)
    ensures LeavesOthers(s, Exec(s, run), ConfigOf(s.deployment))
  {
    if run != [] {
      var before := run[..|run| - 1];
      MigrationLeavesOthers(s, before);
      RunKeepsInv(s, ConfigOf(s.deployment), before);
      StepLeavesOthers(Exec(s, before), ConfigOf(s.deployment), run[|run| - 1]);
    }
  }

  /** Once the store is on the claim its old directory is kept as it is: nothing in any continuation changes it. */
  lemma {:induction false} SourceIsPreserved(s: State, base: Config, run: seq<Action>)
    requires Inv(s, base) && !OnHost(s.deployment)
    ensures Exec(s, run).hosts == s.hosts && !OnHost(Exec(s, run).deployment)
  {
    if run != [] {
      var before := run[..|run| - 1];
      SourceIsPreserved(s, base, before);
      RunKeepsInv(s, base, before);
      StepLeavesOthers(Exec(s, before), base, run[|run| - 1]);
      StaysOnClaim(Exec(s, before), run[|run| - 1]);
    }
  }

  lemma StaysOnClaim(s: State, a: Action)
    requires !OnHost(s.deployment)
    ensures !OnHost(Step(s, a).deployment)
  {
    if a.Start? || a.ReadStatus? {
      assert WritesNoFiles(s, Step(s, a));
    } else {
      assert Step(s, a).deployment == s.deployment;
    }
  }

  lemma ReconcileIsIdempotent(s: State)
    ensures Reconciled(Reconciled(s, FLAWLESS), FLAWLESS) == Reconciled(s, FLAWLESS)
  {
    OnClaimKeepsSettings(s.deployment);
  }

  /** One flawless status read after a job has finished leaves one replica: on the claim, with the job gone, if the
      job passed, on the untouched directory if it failed. */
  lemma StatusSettlesFinishedJob(s: State, run: seq<Action>)
    requires Initial(s)
    requires var z := Exec(s, run); z.job.Some? && !JobRunning(z.job.value)
    ensures var z := Exec(s, run); var settled := Status(z, FLAWLESS);
            && settled.deployment.replicas == 1
            && ConfigOf(settled.deployment).nodeName == ConfigOf(s.deployment).nodeName
            && ConfigOf(settled.deployment).retentionDays == ConfigOf(s.deployment).retentionDays
            && (JobFailed(z.job.value) ==> ConfigOf(settled.deployment) == ConfigOf(s.deployment))
            && (JobSucceeded(z.job.value) ==>
                !OnHost(settled.deployment)
                && (OnHost(z.deployment) ==> settled.job.None?))
            && settled.hosts == z.hosts && settled.claims == z.claims
  {
    RunKeepsInv(s, ConfigOf(s.deployment), run);
    OnClaimKeepsSettings(Exec(s, run).deployment);
  }

  /** The store is stopped and no status read will ever start it again. */
  predicate Stranded(s: State) {
    OnHost(s.deployment) && s.deployment.replicas == 0 && s.job.None?
  }

  function StatusReads(calls: seq<StatusCalls>): seq<Action> {
    if calls == [] then [] else StatusReads(calls[..|calls| - 1]) + [ReadStatus(calls[|calls| - 1])]
  }

  lemma {:induction false} StrandedStays(s: State, calls: seq<StatusCalls>)
    requires Stranded(s)
    ensures Exec(s, StatusReads(calls)) == s
  {
    if calls != [] {
      var run := StatusReads(calls);
      assert run[..|run| - 1] == StatusReads(calls[..|calls| - 1]);
      StrandedStays(s, calls[..|calls| - 1]);
    }
  }

  /** A crash between stopping the store and creating the job strands it, although reconciliation is there so that
      a restart does not. */
  lemma CrashBeforeJobStrands(s: State, f: StartCalls)
    requires Initial(s) && s.nodeReady
    requires Undisturbed(f.(createJob := Works)) && f.createJob.Dies?
    ensures Stranded(Started(s, true, f))
  {
  }

  /** The start gets past its checks, and past the deletion of a failed job, if there is one. */
  predicate PassesChecks(s: State, storageValid: bool, f: StartCalls) {
    && storageValid && f.getDeployment.Works? && OnHost(s.deployment)
    && f.getNode.Works? && s.nodeReady && f.getJob.Works?
    && (s.job.Some? ==> JobFailed(s.job.value) && f.deleteJob.Works?)
  }

  predicate Prepares(f: StartCalls) {
    f.namespace.Works? && f.claim.Works? && f.scaleDown.Works?
  }

  lemma PreparedStrandsIff(s: State, config: Config, f: StartCalls)
    requires OnHost(s.deployment) && s.job.None?
    ensures Stranded(Prepared(s, config, f)) <==>
              if Prepares(f) then f.createJob.Dies? || (f.createJob.Errors? && !f.scaleUp.Works?)
              else s.deployment.replicas == 0
  {
    if f.namespace.Works? && f.claim.Works? {
      StoppedStrandsIff(WithClaim(s), config, f);
    } else {
      StatusWithoutJob(s, f.status);
    }
  }

  lemma StatusWithoutJob(s: State, f: StatusCalls)
    requires s.job.None?
    ensures Status(s, f) == s
  {
  }

  lemma StoppedStrandsIff(s: State, config: Config, f: StartCalls)
    requires OnHost(s.deployment) && s.job.None?
    ensures Stranded(Stopped(s, config, f)) <==>
              if f.scaleDown.Works? then f.createJob.Dies? || (f.createJob.Errors? && !f.scaleUp.Works?)
              else s.deployment.replicas == 0
  {
    StatusWithoutJob(s, f.status);
    StatusWithoutJob(Scaled(s, 0), f.status);
    StatusWithoutJob(Scaled(s, 1), f.status);
    assert JobRunning(NewJob(config));
  }

  lemma StatusDoesNotStrand(s: State, base: Config, f: StatusCalls)
    requires Inv(s, base) && !Stranded(s)
    ensures !Stranded(Status(s, f))
  {
    OnClaimKeepsSettings(s.deployment);
  }

  /** In every run, exactly when a start strands the store: it stopped the store and then neither created the job nor
      brought the store back; or it deleted a failed job that had left the store stopped and then got stuck. */
  lemma StartStrandsIff(s: State, run: seq<Action>, storageValid: bool, f: StartCalls)
    requires Initial(s) && !Stranded(Exec(s, run))
    ensures var z := Exec(s, run);
            Stranded(Started(z, storageValid, f)) <==>
              && PassesChecks(z, storageValid, f)
              && (if Prepares(f) then f.createJob.Dies? || (f.createJob.Errors? && !f.scaleUp.Works?)
                  else z.deployment.replicas == 0)
  {
    var z := Exec(s, run);
    RunKeepsInv(s, ConfigOf(s.deployment), run);
    StatusDoesNotStrand(z, ConfigOf(s.deployment), f.status);
    assert PassesChecks(z, storageValid, f) <==> Obstacle(z, storageValid, f).Works?;
    if PassesChecks(z, storageValid, f) {
      PreparedStrandsIff(z.(job := None), ConfigOf(z.deployment), f);
    }
  }

  /** Exactly when a status read brings a stopped store back: when there is a finished job to act on. */
  lemma StatusRestartsIff(s: State, run: seq<Action>)
    requires Initial(s)
    requires Exec(s, run).deployment.replicas == 0
    ensures var z := Exec(s, run);
            Status(z, FLAWLESS).deployment.replicas == 1 <==> z.job.Some? && !JobRunning(z.job.value)
  {
    RunKeepsInv(s, ConfigOf(s.deployment), run);
    OnClaimKeepsSettings(Exec(s, run).deployment);
  }

  /** Re-installing a store on its directory, with whatever retention, renders it with one replica and does not look
      for a copy job. */
  function Reinstalled(s: State, days: int): State {
    s.(deployment := Rendered(ConfigOf(s.deployment).(retentionDays := days)))
  }

  /** A re-installation keeps the invariant exactly when there is no job, or only a failed one. */
  lemma ReinstallKeepsInvIff(s: State, run: seq<Action>, days: int)
    requires Initial(s) && OnHost(Exec(s, run).deployment)
    requires MIN_INT64 <= days <= MAX_INT64
    ensures var z := Exec(s, run);
            Inv(Reinstalled(z, days), ConfigOf(s.deployment).(retentionDays := days))
            <==> z.job.None? || JobFailed(z.job.value)
  {
    RunKeepsInv(s, ConfigOf(s.deployment), run);
    RenderRoundTrip(ConfigOf(s.deployment).(retentionDays := days));
  }

  predicate Undisturbed(f: StartCalls) {
    && f.getDeployment.Works? && f.getNode.Works? && f.getJob.Works? && f.namespace.Works? && f.claim.Works?
    && f.scaleDown.Works? && f.createJob.Works?
  }

  lemma UndisturbedStart(s: State, f: StartCalls)
    requires Initial(s) && s.nodeReady && Undisturbed(f)
    ensures Started(s, true, f) == Scaled(WithClaim(s).(job := Some(NewJob(ConfigOf(s.deployment)))), 0)
  {
    assert JobRunning(NewJob(ConfigOf(s.deployment)));
  }

  lemma PassedJobCutsOver(s: State, exact: Files)
    requires OnHost(s.deployment) && s.job.Some? && JobRunning(s.job.value) && s.job.value.target == CLAIM_NAME
    requires TargetOf(s) == exact && CountsMatch(SourceOf(s), exact)
    ensures var z := Status(Ended(s, true, false), FLAWLESS);
            !OnHost(z.deployment) && z.truth == s.truth && Mounted(z) == exact
  {
    FinishedJob(s.job.value, true, false);
    OnClaimKeepsSettings(s.deployment);
  }

  lemma WholeCopy(s: State, f: StartCalls, copying: State)
    requires Initial(s) && s.nodeReady && CLAIM_NAME !in s.claims && Undisturbed(f)
    requires copying == Copied(Started(s, true, f), Mounted(s).Keys)
    ensures copying.job.Some? && JobRunning(copying.job.value) && copying.job.value.target == CLAIM_NAME
    ensures TargetOf(copying) == Mounted(s)
    ensures copying.job.value.source == Directory(ConfigOf(s.deployment).nodeName, ConfigOf(s.deployment).dataPath)
    ensures ConfigOf(copying.deployment) == ConfigOf(s.deployment)
  {
    UndisturbedStart(s, f);
    assert Extracted(map[], Mounted(s), Mounted(s).Keys) == Mounted(s);
    assert JobRunning(NewJob(ConfigOf(s.deployment)));
  }

  lemma ReinstalledServes(s: State, days: int, files: Files, z: State)
    requires OnHost(s.deployment) && MIN_INT64 <= days <= MAX_INT64
    requires s.job.Some?
    requires s.job.value.source == Directory(ConfigOf(s.deployment).nodeName, ConfigOf(s.deployment).dataPath)
    requires z == Served(Reinstalled(s, days), files)
    ensures OnHost(z.deployment) && z.truth == files && z.job == s.job && z.claims == s.claims
    ensures z.job.Some? && SourceOf(z) == files
  {
    RenderRoundTrip(ConfigOf(s.deployment).(retentionDays := days));
  }

  /** The whole copy, then a re-installation, then anything the restarted store writes without changing the number
      of files: the job passes, the cutover happens, and what was written is gone. */
  lemma ReinstallDuringCopyLosesData(s: State, f: StartCalls, days: int, files: Files)
    requires Initial(s) && s.nodeReady && CLAIM_NAME !in s.claims && Undisturbed(f)
    requires MIN_INT64 <= days <= MAX_INT64
    requires files != Mounted(s) && |files| == |Mounted(s)|
    ensures var copying := Copied(Started(s, true, f), Mounted(s).Keys);
            var serving := Served(Reinstalled(copying, days), files);
            var z := Status(Ended(serving, true, false), FLAWLESS);
            !OnHost(z.deployment) && z.truth == files && Mounted(z) == Mounted(s) != z.truth
  {
    var copying := Copied(Started(s, true, f), Mounted(s).Keys);
    WholeCopy(s, f, copying);
    var serving := Served(Reinstalled(copying, days), files);
    ReinstalledServes(copying, days, files, serving);
    PassedJobCutsOver(serving, Mounted(s));
  }
}
