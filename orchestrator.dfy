/**
  The `__main__` block of app/app.py: run the enabled jobs in declaration
  order, then the S3 upload, then retention, then the Prometheus block. Only
  `AssertionError` is caught around a job and `run_job` never raises it, so the
  first failing job ends the whole run; an upload failure is not caught either.
  The Prometheus block catches everything.

  Everything the outside world decides is an `Environment`: whether the backup
  root is a directory, the run directory's timestamp name, the outcome of each
  job's commands, the `glob` matches and upload outcomes, the listing of the
  backup root and whether the push reaches the gateway. A run produces a trace
  of the side effects it performs, in order.
 */
module Orchestrator {
  import opened Text
  import opened DumpJob
  import opened Retention
  import opened Upload
  import opened Metrics

  /** The `database` section. */
  datatype DatabaseConfig = DatabaseConfig(host: string, db: string, user: string, password: string)

  /** One entry of `backup.jobs`; `compression_with_pigz` may be absent. */
  datatype JobEntry = JobEntry(
    name: string,
    dumpType: string,
    compression: bool,
    compressionWithPigz: Option<bool>,
    enabled: bool)

  /** The `backup` section; `dump_bin` and `keep_local_backups` may be absent. */
  datatype BackupConfig = BackupConfig(
    outputDir: string,
    dumpBin: Option<string>,
    jobs: seq<JobEntry>,
    keepLocalBackups: Option<int>)

  /** The configuration file; the `aws` and `prometheus` sections may be absent. */
  datatype AppConfig = AppConfig(
    database: DatabaseConfig,
    backup: BackupConfig,
    aws: Option<AwsConfig>,
    prometheus: Option<PromConfig>)

  /** What the outside world decides during one run. */
  datatype Environment = Environment(
    backupRootIsDir: bool,       // `os.path.isdir(backup_dir)`
    runName: string,             // the `%Y-%m-%d_%H%M%S` timestamp of the run
    jobSteps: seq<JobSteps>,     // one per declared job
    sqlMatches: seq<string>,     // `glob(f"{backup_dir}/*.sql")`
    gzMatches: seq<string>,      // `glob(f"{backup_dir}/*.gz")`
    uploadSucceeds: seq<bool>,   // one per file to transfer
    uploadDurationMs: nat,
    rootListing: seq<Entry>,     // the backup root as retention sees it
    pushDelivered: bool)

  /** The environment has one outcome per declared job and one per file to upload. */
  predicate Fits(c: AppConfig, env: Environment) {
    |env.jobSteps| == |c.backup.jobs| && |env.uploadSucceeds| == |env.sqlMatches| + |env.gzMatches|
  }

  /** A side effect of the run. */
  datatype Event =
    | Exec(command: string)                               // a shell command of `run_job`
    | UploadCall(file: string, bucket: string, key: string) // `transfer.upload_file`
    | Remove(path: string)                                // `shutil.rmtree`
    | Push(host: string, job: string, registry: Registry)  // `push_to_gateway`

  /** The exception that ends a run early. */
  datatype Abort =
    | BackupRootMissing                          // the `assert os.path.isdir(backup_dir)`
    | JobRaised(job: string, error: JobResult)   // from `run_job`
    | UploadRaised(durationMs: nat)              // from `upload_to_aws`

  datatype Ending = Completed | Aborted(cause: Abort)

  /** The trace of a run, how it ended, and the stats it collected. */
  datatype Report = Report(
    trace: seq<Event>,
    ending: Ending,
    jobStats: seq<JobStats>,
    uploadStats: seq<UploadStats>,
    metrics: Option<MetricsOutcome>)

  /** The run directory: the timestamp name under the backup root. */
  function RunDir(c: AppConfig, env: Environment): string {
    PathJoin(c.backup.outputDir, env.runName)
  }

  /** The job record built for `run_job`, with the source's defaults for absent keys. */
  function JobConfigFor(db: DatabaseConfig, backup: BackupConfig, runDir: string, job: JobEntry): (r: JobConfig)
    ensures backup.dumpBin.None? ==> r.dumpBin == "pg_dump"
    ensures backup.dumpBin.Some? ==> r.dumpBin == backup.dumpBin.value
    ensures job.compressionWithPigz.None? ==> !r.compressionWithPigz
    ensures job.compressionWithPigz.Some? ==> r.compressionWithPigz == job.compressionWithPigz.value
    ensures r.name == job.name && r.dumpType == job.dumpType && r.compression == job.compression
    ensures r.outputDir == runDir
    ensures r.host == db.host && r.db == db.db && r.user == db.user && r.password == db.password
  {
    JobConfig(
      name := job.name,
      outputDir := runDir,
      dumpBin := if backup.dumpBin.Some? then backup.dumpBin.value else "pg_dump",
      host := db.host,
      db := db.db,
      user := db.user,
      password := db.password,
      dumpType := job.dumpType,
      compression := job.compression,
      compressionWithPigz := if job.compressionWithPigz.Some? then job.compressionWithPigz.value else false)
  }

  function ExecEvents(commands: seq<string>): (r: seq<Event>)
    ensures |r| == |commands| && forall i :: 0 <= i < |r| ==> r[i] == Exec(commands[i])
  {
    seq(|commands|, i requires 0 <= i < |commands| => Exec(commands[i]))
  }

  function UploadEvents(bucket: string, calls: seq<Transfer>): (r: seq<Event>)
    ensures |r| == |calls|
    ensures forall i :: 0 <= i < |r| ==> r[i] == UploadCall(calls[i].file, bucket, calls[i].key)
  {
    seq(|calls|, i requires 0 <= i < |calls| => UploadCall(calls[i].file, bucket, calls[i].key))
  }

  function RemoveEvents(paths: seq<string>): (r: seq<Event>)
    ensures |r| == |paths| && forall i :: 0 <= i < |r| ==> r[i] == Remove(paths[i])
  {
    seq(|paths|, i requires 0 <= i < |paths| => Remove(paths[i]))
  }

  /** Whether `run_job` returns stats for the job. */
  predicate JobSucceeds(db: DatabaseConfig, backup: BackupConfig, runDir: string, job: JobEntry, steps: JobSteps) {
    RunJob(JobConfigFor(db, backup, runDir, job), steps).result.Succeeded?
  }

  /** The jobs loop: its commands, the stats it appended and the exception that escaped it, if any. */
  datatype JobsOutcome = JobsOutcome(events: seq<Event>, stats: seq<JobStats>, raised: Option<Abort>)

  /** The `for job in backup_conf["jobs"]` loop, stopping at the first job that raises. */
  function RunJobs(db: DatabaseConfig, backup: BackupConfig, runDir: string,
                   jobs: seq<JobEntry>, steps: seq<JobSteps>): (r: JobsOutcome)
    requires |steps| == |jobs|
    ensures forall e :: e in r.events ==> e.Exec?
    ensures r.raised.Some? ==> r.raised.value.JobRaised?
    decreases |jobs|
  {
    if jobs == [] then JobsOutcome([], [], None)
    else
      if !jobs[0].enabled then RunJobs(db, backup, runDir, jobs[1..], steps[1..])
      else
        var run := RunJob(JobConfigFor(db, backup, runDir, jobs[0]), steps[0]);
        var events := ExecEvents(run.commands);
        if !run.result.Succeeded? then JobsOutcome(events, [], Some(JobRaised(jobs[0].name, run.result)))
        else
          var rest := RunJobs(db, backup, runDir, jobs[1..], steps[1..]);
          JobsOutcome(events + rest.events, [run.result.stats] + rest.stats, rest.raised)
  }

  /** The loop lets no exception escape exactly when every enabled job succeeds. */
  lemma {:induction false} RunJobsRaisesIff(db: DatabaseConfig, backup: BackupConfig, runDir: string,
                                            jobs: seq<JobEntry>, steps: seq<JobSteps>)
    requires |steps| == |jobs|
    ensures RunJobs(db, backup, runDir, jobs, steps).raised.None? <==>
      forall i :: 0 <= i < |jobs| && jobs[i].enabled ==> JobSucceeds(db, backup, runDir, jobs[i], steps[i])
    decreases |jobs|
  {
    if jobs != [] {
      assert forall i :: 1 <= i < |jobs| ==> jobs[1..][i - 1] == jobs[i] && steps[1..][i - 1] == steps[i];
      RunJobsRaisesIff(db, backup, runDir, jobs[1..], steps[1..]);
    }
  }

  /** The names of the enabled jobs, in declaration order. */
  function EnabledNames(jobs: seq<JobEntry>): seq<string>
    decreases |jobs|
  {
    if jobs == [] then []
    else (if jobs[0].enabled then [jobs[0].name] else []) + EnabledNames(jobs[1..])
  }

  function StatNames(stats: seq<JobStats>): (r: seq<string>)
    ensures |r| == |stats| && forall i :: 0 <= i < |r| ==> r[i] == stats[i].name
  {
    seq(|stats|, i requires 0 <= i < |stats| => stats[i].name)
  }

  lemma StatNamesCons(x: JobStats, rest: seq<JobStats>)
    ensures StatNames([x] + rest) == [x.name] + StatNames(rest)
  {
  }

  /** The `run_job` outcome of each enabled job, in declaration order; disabled jobs have none. */
  function EnabledRuns(db: DatabaseConfig, backup: BackupConfig, runDir: string,
                       jobs: seq<JobEntry>, steps: seq<JobSteps>): seq<JobRun>
    requires |steps| == |jobs|
    decreases |jobs|
  {
    if jobs == [] then []
    else (if jobs[0].enabled then [RunJob(JobConfigFor(db, backup, runDir, jobs[0]), steps[0])] else [])
         + EnabledRuns(db, backup, runDir, jobs[1..], steps[1..])
  }

  /** The commands of the given runs, one run after the other. */
  function RunsEvents(runs: seq<JobRun>): seq<Event>
    decreases |runs|
  {
    if runs == [] then [] else ExecEvents(runs[0].commands) + RunsEvents(runs[1..])
  }

  /** The stats the given runs returned, in order. */
  function RunsStats(runs: seq<JobRun>): seq<JobStats>
    decreases |runs|
  {
    if runs == [] then []
    else (if runs[0].result.Succeeded? then [runs[0].result.stats] else []) + RunsStats(runs[1..])
  }

  lemma RunsCons(run: JobRun, runs: seq<JobRun>)
    ensures RunsEvents([run] + runs) == ExecEvents(run.commands) + RunsEvents(runs)
    ensures RunsStats([run] + runs) == (if run.result.Succeeded? then [run.result.stats] else []) + RunsStats(runs)
  {
    assert ([run] + runs)[0] == run && ([run] + runs)[1..] == runs;
  }

  /**
    When no enabled job fails, the loop runs exactly the commands of the
    enabled jobs and collects exactly their stats, in declaration order;
    disabled jobs run nothing.
   */
  lemma {:induction false} AllJobsCollected(db: DatabaseConfig, backup: BackupConfig, runDir: string,
                                            jobs: seq<JobEntry>, steps: seq<JobSteps>)
    requires |steps| == |jobs|
    requires forall i :: 0 <= i < |jobs| && jobs[i].enabled ==> JobSucceeds(db, backup, runDir, jobs[i], steps[i])
    ensures var runs := EnabledRuns(db, backup, runDir, jobs, steps);
      RunJobs(db, backup, runDir, jobs, steps) == JobsOutcome(RunsEvents(runs), RunsStats(runs), None)
    ensures StatNames(RunJobs(db, backup, runDir, jobs, steps).stats) == EnabledNames(jobs)
    decreases |jobs|
  {
    if jobs != [] {
      forall i | 0 <= i < |jobs| - 1 && jobs[1..][i].enabled
        ensures JobSucceeds(db, backup, runDir, jobs[1..][i], steps[1..][i])
      {
        assert jobs[1..][i] == jobs[i + 1] && steps[1..][i] == steps[i + 1];
      }
      AllJobsCollected(db, backup, runDir, jobs[1..], steps[1..]);
      var rest := RunJobs(db, backup, runDir, jobs[1..], steps[1..]);
      var restRuns := EnabledRuns(db, backup, runDir, jobs[1..], steps[1..]);
      if jobs[0].enabled {
        var run := RunJob(JobConfigFor(db, backup, runDir, jobs[0]), steps[0]);
        StatNamesCons(run.result.stats, rest.stats);
        RunsCons(run, restRuns);
      } else {
        assert [] + restRuns == restRuns;
      }
    }
  }

  /**
    Up to the first failing enabled job, the loop runs exactly the commands of
    the enabled jobs up to that one and collects the stats of those before it.
   */
  lemma {:induction false} FailingJobRuns(db: DatabaseConfig, backup: BackupConfig, runDir: string,
                                          jobs: seq<JobEntry>, steps: seq<JobSteps>, k: nat)
    requires |steps| == |jobs| && k < |jobs|
    requires jobs[k].enabled && !JobSucceeds(db, backup, runDir, jobs[k], steps[k])
    requires forall i :: 0 <= i < k && jobs[i].enabled ==> JobSucceeds(db, backup, runDir, jobs[i], steps[i])
    ensures var runs := EnabledRuns(db, backup, runDir, jobs[..k + 1], steps[..k + 1]);
      && RunJobs(db, backup, runDir, jobs, steps).events == RunsEvents(runs)
      && RunJobs(db, backup, runDir, jobs, steps).stats == RunsStats(runs)
    decreases k
  {
    var js, ss := jobs[..k + 1], steps[..k + 1];
    assert js[0] == jobs[0] && ss[0] == steps[0];
    var run := RunJob(JobConfigFor(db, backup, runDir, jobs[0]), steps[0]);
    if k == 0 {
      assert js[1..] == [] && ss[1..] == [];
      assert EnabledRuns(db, backup, runDir, js, ss) == [run] + [];
      RunsCons(run, []);
    } else {
      assert jobs[1..][k - 1] == jobs[k] && steps[1..][k - 1] == steps[k];
      forall i | 0 <= i < k - 1 && jobs[1..][i].enabled
        ensures JobSucceeds(db, backup, runDir, jobs[1..][i], steps[1..][i])
      {
        assert jobs[1..][i] == jobs[i + 1] && steps[1..][i] == steps[i + 1];
      }
      FailingJobRuns(db, backup, runDir, jobs[1..], steps[1..], k - 1);
      assert js[1..] == jobs[1..][..k] && ss[1..] == steps[1..][..k];
      var restRuns := EnabledRuns(db, backup, runDir, js[1..], ss[1..]);
      if jobs[0].enabled {
        RunsCons(run, restRuns);
      } else {
        assert [] + restRuns == restRuns;
      }
    }
  }

  /**
    The first enabled job that fails ends the loop: the outcome is the same as
    if the later jobs had not been declared, and the exception names that job.
   */
  lemma {:induction false} FirstFailingJobEndsLoop(db: DatabaseConfig, backup: BackupConfig, runDir: string,
                                                   jobs: seq<JobEntry>, steps: seq<JobSteps>, k: nat)
    requires |steps| == |jobs| && k < |jobs|
    requires jobs[k].enabled && !JobSucceeds(db, backup, runDir, jobs[k], steps[k])
    requires forall i :: 0 <= i < k && jobs[i].enabled ==> JobSucceeds(db, backup, runDir, jobs[i], steps[i])
    ensures RunJobs(db, backup, runDir, jobs, steps) == RunJobs(db, backup, runDir, jobs[..k + 1], steps[..k + 1])
    ensures RunJobs(db, backup, runDir, jobs, steps).raised
         == Some(JobRaised(jobs[k].name, RunJob(JobConfigFor(db, backup, runDir, jobs[k]), steps[k]).result))
    decreases k
  {
    var js, ss := jobs[..k + 1], steps[..k + 1];
    assert js[0] == jobs[0] && ss[0] == steps[0];
    if k > 0 {
      assert jobs[1..][k - 1] == jobs[k] && steps[1..][k - 1] == steps[k];
      forall i | 0 <= i < k - 1 && jobs[1..][i].enabled
        ensures JobSucceeds(db, backup, runDir, jobs[1..][i], steps[1..][i])
      {
        assert jobs[1..][i] == jobs[i + 1] && steps[1..][i] == steps[i + 1];
      }
      FirstFailingJobEndsLoop(db, backup, runDir, jobs[1..], steps[1..], k - 1);
      assert js[1..] == jobs[1..][..k] && ss[1..] == steps[1..][..k];
      RunJobsSameHead(db, backup, runDir, jobs, steps, js, ss);
      RunJobsPassesHead(db, backup, runDir, jobs, steps);
    }
  }

  /** The loop's outcome depends only on the first job and the outcome over the rest. */
  lemma RunJobsSameHead(db: DatabaseConfig, backup: BackupConfig, runDir: string,
                        jobs: seq<JobEntry>, steps: seq<JobSteps>, jobs': seq<JobEntry>, steps': seq<JobSteps>)
    requires |steps| == |jobs| && |steps'| == |jobs'| && jobs != [] && jobs' != []
    requires jobs[0] == jobs'[0] && steps[0] == steps'[0]
    requires RunJobs(db, backup, runDir, jobs[1..], steps[1..]) == RunJobs(db, backup, runDir, jobs'[1..], steps'[1..])
    ensures RunJobs(db, backup, runDir, jobs, steps) == RunJobs(db, backup, runDir, jobs', steps')
  {
  }

  /** A first job that is disabled or succeeds lets the rest decide what escapes. */
  lemma RunJobsPassesHead(db: DatabaseConfig, backup: BackupConfig, runDir: string,
                          jobs: seq<JobEntry>, steps: seq<JobSteps>)
    requires |steps| == |jobs| && jobs != []
    requires jobs[0].enabled ==> JobSucceeds(db, backup, runDir, jobs[0], steps[0])
    ensures RunJobs(db, backup, runDir, jobs, steps).raised == RunJobs(db, backup, runDir, jobs[1..], steps[1..]).raised
  {
  }

  /** The upload block: the calls made and what `upload_to_aws` returned or raised, when it ran. */
  datatype UploadStage = UploadStage(events: seq<Event>, result: Option<UploadResult>)

  function RunUpload(aws: Option<AwsConfig>, runDir: string, env: Environment): (r: UploadStage)
    requires |env.uploadSucceeds| == |env.sqlMatches| + |env.gzMatches|
    ensures forall e :: e in r.events ==> e.UploadCall? && aws.Some? && aws.value.enabled && e.bucket == aws.value.bucket
    ensures r.result.Some? <==> aws.Some? && aws.value.enabled
  {
    if aws.Some? && aws.value.enabled then
      var plan := UploadPlan(aws.value.path, runDir, env.sqlMatches + env.gzMatches);
      var run := Transfers(plan, env.uploadSucceeds);
      UploadStage(UploadEvents(aws.value.bucket, run.calls), Some(UploadOutcome(run, env.uploadDurationMs)))
    else UploadStage([], None)
  }

  /** The push the Prometheus block makes, if any. */
  function PushEvents(metrics: Option<MetricsOutcome>): (r: seq<Event>)
    ensures |r| <= 1
    ensures r != [] <==> metrics.Some? && metrics.value.Pushed?
    ensures AllAt(r, 3)
  {
    if metrics.Some? && metrics.value.Pushed? then
      [Push(metrics.value.host, metrics.value.job, metrics.value.registry)]
    else []
  }

  /** The paths retention removes, when `keep_local_backups` is configured. */
  function Retained(c: AppConfig, env: Environment): (r: seq<string>)
    ensures c.backup.keepLocalBackups.None? ==> r == []
    ensures c.backup.keepLocalBackups.Some? ==>
      r == RemovedPaths(c.backup.outputDir, Doomed(env.rootListing, c.backup.keepLocalBackups.value))
  {
    if c.backup.keepLocalBackups.Some? then
      RemovedPaths(c.backup.outputDir, Doomed(env.rootListing, c.backup.keepLocalBackups.value))
    else []
  }

  /**
    The stages after a jobs loop that raised nothing: the upload (whose error
    escapes), retention, and the Prometheus block (whose errors do not).
   */
  function LaterStages(c: AppConfig, env: Environment, jobEvents: seq<Event>, jobStats: seq<JobStats>): (r: Report)
    requires Fits(c, env)
    ensures r.ending.Completed? || r.ending.cause.UploadRaised?
    ensures r.ending.Aborted? ==> r.uploadStats == [] && r.metrics.None?
    ensures r.metrics.Some? <==> r.ending.Completed? && c.prometheus.Some?
    ensures r.metrics.Some? ==>
      r.metrics.value == MetricsStage(c.prometheus.value, jobStats, r.uploadStats, env.pushDelivered)
    ensures r.jobStats == jobStats
  {
    var upload := RunUpload(c.aws, RunDir(c, env), env);
    if upload.result.Some? && upload.result.value.UploadFailed? then
      Report(jobEvents + upload.events, Aborted(UploadRaised(upload.result.value.durationMs)), jobStats, [], None)
    else
      var uploadStats := if upload.result.Some? then [upload.result.value.stats] else [];
      var metrics :=
        if c.prometheus.Some? then Some(MetricsStage(c.prometheus.value, jobStats, uploadStats, env.pushDelivered))
        else None;
      Report(jobEvents + upload.events + RemoveEvents(Retained(c, env)) + PushEvents(metrics),
             Completed, jobStats, uploadStats, metrics)
  }

  /** One run of the script after its configuration has been read. */
  function Backup(c: AppConfig, env: Environment): (r: Report)
    requires Fits(c, env)
    ensures r.ending == Aborted(BackupRootMissing) <==> !env.backupRootIsDir
    ensures r.metrics.Some? <==> r.ending.Completed? && c.prometheus.Some?
    ensures r.ending.Aborted? ==> r.uploadStats == [] && r.metrics.None?
    ensures r.metrics.Some? ==>
      r.metrics.value == MetricsStage(c.prometheus.value, r.jobStats, r.uploadStats, env.pushDelivered)
  {
    if !env.backupRootIsDir then Report([], Aborted(BackupRootMissing), [], [], None)
    else
      var jobs := RunJobs(c.database, c.backup, RunDir(c, env), c.backup.jobs, env.jobSteps);
      if jobs.raised.Some? then Report(jobs.events, Aborted(jobs.raised.value), jobs.stats, [], None)
      else LaterStages(c, env, jobs.events, jobs.stats)
  }

  /**
    The script's `__main__` block. Exceptions that escape are the `Aborted`
    endings; the Prometheus block's own exceptions are caught and only logged.
   */
  method RunBackup(c: AppConfig, env: Environment) returns (report: Report)
    requires Fits(c, env)
    ensures report == Backup(c, env)
  {
    if !env.backupRootIsDir {
      return Report([], Aborted(BackupRootMissing), [], [], None);
    }
    var outputDir := PathJoin(c.backup.outputDir, env.runName);
    var trace, jobStats, raised := RunEnabledJobs(c.database, c.backup, outputDir, env.jobSteps);
    if raised.Some? {
      return Report(trace, Aborted(raised.value), jobStats, [], None);
    }
    report := RunLaterStages(c, env, outputDir, trace, jobStats);
  }

  /**
    The `for job in backup_conf["jobs"]` loop: run each enabled job, append its
    stats, and stop at the first exception, which escapes.
   */
  method RunEnabledJobs(db: DatabaseConfig, backup: BackupConfig, outputDir: string, steps: seq<JobSteps>)
    returns (trace: seq<Event>, jobStats: seq<JobStats>, raised: Option<Abort>)
    requires |steps| == |backup.jobs|
    ensures JobsOutcome(trace, jobStats, raised) == RunJobs(db, backup, outputDir, backup.jobs, steps)
  {
    var jobs := backup.jobs;
    ghost var all := RunJobs(db, backup, outputDir, jobs, steps);
    trace, jobStats, raised := [], [], None;
    var i := 0;
    while i < |jobs| && raised.None?
      invariant 0 <= i <= |jobs|
      invariant raised.None? ==>
        var rest := RunJobs(db, backup, outputDir, jobs[i..], steps[i..]);
        all == JobsOutcome(trace + rest.events, jobStats + rest.stats, rest.raised)
      invariant raised.Some? ==> all == JobsOutcome(trace, jobStats, raised)
    {
      RunJobsAt(db, backup, outputDir, jobs, steps, i);
      var job := jobs[i];
      if job.enabled {
        var jobConf := JobConfigFor(db, backup, outputDir, job);
        // Only AssertionError is caught around a job, and run_job never raises it.
        var run := RunJob(jobConf, steps[i]);
        var events := ExecEvents(run.commands);
        if run.result.Succeeded? {
          OutcomeShift(all, trace, jobStats, events, run.result.stats,
                       RunJobs(db, backup, outputDir, jobs[i + 1..], steps[i + 1..]));
          jobStats := jobStats + [run.result.stats];
        } else {
          raised := Some(JobRaised(job.name, run.result));
        }
        trace := trace + events;
      }
      i := i + 1;
    }
    if raised.None? {
      assert jobs[i..] == [];
    }
  }

  /** Moving one job's commands and stats from the remaining work to what is done. */
  lemma OutcomeShift(all: JobsOutcome, trace: seq<Event>, jobStats: seq<JobStats>,
                     events: seq<Event>, stats: JobStats, rest: JobsOutcome)
    requires all == JobsOutcome(trace + (events + rest.events), jobStats + ([stats] + rest.stats), rest.raised)
    ensures all == JobsOutcome((trace + events) + rest.events, (jobStats + [stats]) + rest.stats, rest.raised)
  {
    assert trace + (events + rest.events) == (trace + events) + rest.events;
    assert jobStats + ([stats] + rest.stats) == (jobStats + [stats]) + rest.stats;
  }

  /** One turn of the jobs loop, at job `i`. */
  lemma RunJobsAt(db: DatabaseConfig, backup: BackupConfig, runDir: string,
                  jobs: seq<JobEntry>, steps: seq<JobSteps>, i: nat)
    requires |steps| == |jobs| && i < |jobs|
    ensures var here, rest := RunJobs(db, backup, runDir, jobs[i..], steps[i..]),
                              RunJobs(db, backup, runDir, jobs[i + 1..], steps[i + 1..]);
      var run := RunJob(JobConfigFor(db, backup, runDir, jobs[i]), steps[i]);
      if !jobs[i].enabled then here == rest
      else if !run.result.Succeeded? then
        here == JobsOutcome(ExecEvents(run.commands), [], Some(JobRaised(jobs[i].name, run.result)))
      else here == JobsOutcome(ExecEvents(run.commands) + rest.events, [run.result.stats] + rest.stats, rest.raised)
  {
    assert jobs[i..][0] == jobs[i] && steps[i..][0] == steps[i];
    assert jobs[i..][1..] == jobs[i + 1..] && steps[i..][1..] == steps[i + 1..];
  }

  /** Upload, retention and the Prometheus block, in that order. */
  method RunLaterStages(c: AppConfig, env: Environment, outputDir: string,
                        jobEvents: seq<Event>, jobStats: seq<JobStats>)
    returns (report: Report)
    requires Fits(c, env) && outputDir == RunDir(c, env)
    ensures report == LaterStages(c, env, jobEvents, jobStats)
  {
    ghost var upload := RunUpload(c.aws, outputDir, env);
    var trace := jobEvents;
    var uploadStats: seq<UploadStats> := [];
    if c.aws.Some? && c.aws.value.enabled {
      var aws := c.aws.value;
      var calls, result := UploadToAws(aws, outputDir, env.sqlMatches, env.gzMatches,
                                       env.uploadSucceeds, env.uploadDurationMs);
      assert upload == UploadStage(UploadEvents(aws.bucket, calls), Some(result));
      trace := trace + UploadEvents(aws.bucket, calls);
      if result.UploadFailed? {
        return Report(trace, Aborted(UploadRaised(result.durationMs)), jobStats, [], None);
      }
      uploadStats := uploadStats + [result.stats];
    } else {
      assert upload == UploadStage([], None);
      trace := trace + [];
    }
    assert trace == jobEvents + upload.events;
    assert uploadStats == if upload.result.Some? then [upload.result.value.stats] else [];
    var removed: seq<string> := [];
    if c.backup.keepLocalBackups.Some? {
      removed := DeleteOldBackups(c.backup.outputDir, env.rootListing, c.backup.keepLocalBackups.value);
    }
    assert removed == Retained(c, env);
    trace := trace + RemoveEvents(removed);
    var metrics: Option<MetricsOutcome> := None;
    if c.prometheus.Some? {
      var outcome := ReportMetrics(c.prometheus.value, jobStats, uploadStats, env.pushDelivered);
      metrics := Some(outcome);
    }
    trace := trace + PushEvents(metrics);
    report := Report(trace, Completed, jobStats, uploadStats, metrics);
  }

  /** The stage an event belongs to: jobs, upload, retention, metrics. */
  function StageOf(e: Event): nat {
    match e
    case Exec(_) => 0
    case UploadCall(_, _, _) => 1
    case Remove(_) => 2
    case Push(_, _, _) => 3
  }

  predicate AllAt(t: seq<Event>, stage: nat) {
    forall i :: 0 <= i < |t| ==> StageOf(t[i]) == stage
  }

  /** No event of a later stage comes before an event of an earlier one. */
  predicate InStageOrder(t: seq<Event>) {
    forall i, j :: 0 <= i < j < |t| ==> StageOf(t[i]) <= StageOf(t[j])
  }

  /** The events of one stage, in the order they happen. */
  function OfStage(t: seq<Event>, stage: nat): seq<Event>
    decreases |t|
  {
    if t == [] then [] else (if StageOf(t[0]) == stage then [t[0]] else []) + OfStage(t[1..], stage)
  }

  lemma {:induction false} OfStageAppend(a: seq<Event>, b: seq<Event>, stage: nat)
    ensures OfStage(a + b, stage) == OfStage(a, stage) + OfStage(b, stage)
    decreases |a|
  {
    if a == [] {
      assert a + b == b;
    } else {
      var own := if StageOf(a[0]) == stage then [a[0]] else [];
      assert a + b == [a[0]] + (a[1..] + b);
      OfStageCons(a[0], a[1..] + b, stage);
      OfStageAppend(a[1..], b, stage);
      assert a == [a[0]] + a[1..];
      OfStageCons(a[0], a[1..], stage);
      assert own + (OfStage(a[1..], stage) + OfStage(b, stage))
          == (own + OfStage(a[1..], stage)) + OfStage(b, stage);
    }
  }

  lemma OfStageCons(x: Event, r: seq<Event>, stage: nat)
    ensures OfStage([x] + r, stage) == (if StageOf(x) == stage then [x] else []) + OfStage(r, stage)
  {
    assert ([x] + r)[0] == x && ([x] + r)[1..] == r;
  }

  lemma {:induction false} OfStageUniform(t: seq<Event>, k: nat, stage: nat)
    requires AllAt(t, k)
    ensures OfStage(t, stage) == if stage == k then t else []
    decreases |t|
  {
    if t != [] {
      assert forall i :: 0 <= i < |t| - 1 ==> t[1..][i] == t[i + 1];
      OfStageUniform(t[1..], k, stage);
      assert t == [t[0]] + t[1..];
    }
  }

  /** Every event of `t` belongs to a stage no later than `k`. */
  predicate StagesUpTo(t: seq<Event>, k: nat) {
    forall i :: 0 <= i < |t| ==> StageOf(t[i]) <= k
  }

  /** Appending events of stage `k` to a trace in stage order whose stages are at most `k`. */
  lemma AppendStage(x: seq<Event>, y: seq<Event>, k: nat)
    requires InStageOrder(x) && StagesUpTo(x, k) && AllAt(y, k)
    ensures InStageOrder(x + y) && StagesUpTo(x + y, k)
  {
    var t := x + y;
    assert forall i :: 0 <= i < |x| ==> t[i] == x[i];
    assert forall i :: |x| <= i < |t| ==> t[i] == y[i - |x|];
  }

  /** Four segments, one per stage, make a trace in stage order whose stages are the segments. */
  lemma Staged(a: seq<Event>, b: seq<Event>, c: seq<Event>, d: seq<Event>)
    requires AllAt(a, 0) && AllAt(b, 1) && AllAt(c, 2) && AllAt(d, 3)
    ensures InStageOrder(a + b + c + d)
    ensures OfStage(a + b + c + d, 0) == a && OfStage(a + b + c + d, 1) == b
    ensures OfStage(a + b + c + d, 2) == c && OfStage(a + b + c + d, 3) == d
  {
    StagedAt(a, b, c, d, 0);
    StagedAt(a, b, c, d, 1);
    StagedAt(a, b, c, d, 2);
    StagedAt(a, b, c, d, 3);
  }

  /** `Staged` for one stage. */
  lemma StagedAt(a: seq<Event>, b: seq<Event>, c: seq<Event>, d: seq<Event>, stage: nat)
    requires AllAt(a, 0) && AllAt(b, 1) && AllAt(c, 2) && AllAt(d, 3)
    ensures InStageOrder(a + b + c + d)
    ensures OfStage(a + b + c + d, stage)
         == if stage == 0 then a else if stage == 1 then b else if stage == 2 then c else if stage == 3 then d else []
  {
    StagedOrder(a, b, c, d);
    StagedProjection(a, b, c, d, stage);
    OfStageUniform(a, 0, stage);
    OfStageUniform(b, 1, stage);
    OfStageUniform(c, 2, stage);
    OfStageUniform(d, 3, stage);
  }

  lemma StagedOrder(a: seq<Event>, b: seq<Event>, c: seq<Event>, d: seq<Event>)
    requires AllAt(a, 0) && AllAt(b, 1) && AllAt(c, 2) && AllAt(d, 3)
    ensures InStageOrder(a + b + c + d)
  {
    AppendStage([], a, 0);
    assert [] + a == a;
    AppendStage(a, b, 1);
    AppendStage(a + b, c, 2);
    AppendStage(a + b + c, d, 3);
  }

  lemma StagedProjection(a: seq<Event>, b: seq<Event>, c: seq<Event>, d: seq<Event>, stage: nat)
    ensures OfStage(a + b + c + d, stage)
         == OfStage(a, stage) + OfStage(b, stage) + OfStage(c, stage) + OfStage(d, stage)
  {
    OfStageAppend(a + b + c, d, stage);
    OfStageAppend(a + b, c, stage);
    OfStageAppend(a, b, stage);
  }

  /** Whether the jobs loop of a run gets past every job. */
  predicate JobsPass(c: AppConfig, env: Environment)
    requires Fits(c, env)
  {
    env.backupRootIsDir && RunJobs(c.database, c.backup, RunDir(c, env), c.backup.jobs, env.jobSteps).raised.None?
  }

  /**
    The trace of a run stage by stage: the stages happen in order, the jobs
    loop runs when the backup root exists, the upload when every job passed,
    retention and the push only when the run completes.
   */
  lemma BackupTraceByStage(c: AppConfig, env: Environment)
    requires Fits(c, env)
    ensures InStageOrder(Backup(c, env).trace)
    ensures OfStage(Backup(c, env).trace, 0)
         == if env.backupRootIsDir then RunJobs(c.database, c.backup, RunDir(c, env), c.backup.jobs, env.jobSteps).events
            else []
    ensures OfStage(Backup(c, env).trace, 1) == if JobsPass(c, env) then RunUpload(c.aws, RunDir(c, env), env).events else []
    ensures OfStage(Backup(c, env).trace, 2)
         == if Backup(c, env).ending.Completed? then RemoveEvents(Retained(c, env)) else []
    ensures OfStage(Backup(c, env).trace, 3) == PushEvents(Backup(c, env).metrics)
  {
    if env.backupRootIsDir {
      var jobs := RunJobs(c.database, c.backup, RunDir(c, env), c.backup.jobs, env.jobSteps);
      var a := jobs.events;
      assert forall i :: 0 <= i < |a| ==> a[i] in jobs.events;
      if jobs.raised.None? {
        LaterStagesByStage(c, env, a, jobs.stats);
      } else {
        assert Backup(c, env).trace == a + [] + [] + [];
        Staged(a, [], [], []);
      }
    }
  }

  /** `BackupTraceByStage` for the stages after a jobs loop that raised nothing. */
  lemma LaterStagesByStage(c: AppConfig, env: Environment, jobEvents: seq<Event>, jobStats: seq<JobStats>)
    requires Fits(c, env) && AllAt(jobEvents, 0)
    ensures var r := LaterStages(c, env, jobEvents, jobStats);
      && InStageOrder(r.trace)
      && OfStage(r.trace, 0) == jobEvents
      && OfStage(r.trace, 1) == RunUpload(c.aws, RunDir(c, env), env).events
      && OfStage(r.trace, 2) == (if r.ending.Completed? then RemoveEvents(Retained(c, env)) else [])
      && OfStage(r.trace, 3) == PushEvents(r.metrics)
  {
    var result := RunUpload(c.aws, RunDir(c, env), env).result;
    UploadEventsAt(c, env);
    if result.Some? && result.value.UploadFailed? {
      UploadRaisedByStage(c, env, jobEvents, jobStats);
    } else {
      UploadPassedByStage(c, env, jobEvents, jobStats);
    }
  }

  lemma UploadEventsAt(c: AppConfig, env: Environment)
    requires Fits(c, env)
    ensures AllAt(RunUpload(c.aws, RunDir(c, env), env).events, 1)
  {
    var b := RunUpload(c.aws, RunDir(c, env), env).events;
    assert forall i :: 0 <= i < |b| ==> b[i] in b;
  }

  /** `LaterStagesByStage` when the upload raised: the trace ends after the upload calls. */
  lemma UploadRaisedByStage(c: AppConfig, env: Environment, jobEvents: seq<Event>, jobStats: seq<JobStats>)
    requires Fits(c, env) && AllAt(jobEvents, 0)
    requires AllAt(RunUpload(c.aws, RunDir(c, env), env).events, 1)
    requires var result := RunUpload(c.aws, RunDir(c, env), env).result;
      result.Some? && result.value.UploadFailed?
    ensures var r := LaterStages(c, env, jobEvents, jobStats);
      && r.ending.Aborted?
      && InStageOrder(r.trace)
      && OfStage(r.trace, 0) == jobEvents
      && OfStage(r.trace, 1) == RunUpload(c.aws, RunDir(c, env), env).events
      && OfStage(r.trace, 2) == []
      && OfStage(r.trace, 3) == PushEvents(r.metrics)
  {
    var b := RunUpload(c.aws, RunDir(c, env), env).events;
    assert LaterStages(c, env, jobEvents, jobStats).trace == jobEvents + b + [] + [];
    Staged(jobEvents, b, [], []);
  }

  /** `LaterStagesByStage` when the upload passed or did not run: every stage contributes its events. */
  lemma UploadPassedByStage(c: AppConfig, env: Environment, jobEvents: seq<Event>, jobStats: seq<JobStats>)
    requires Fits(c, env) && AllAt(jobEvents, 0)
    requires AllAt(RunUpload(c.aws, RunDir(c, env), env).events, 1)
    requires var result := RunUpload(c.aws, RunDir(c, env), env).result;
      !(result.Some? && result.value.UploadFailed?)
    ensures var r := LaterStages(c, env, jobEvents, jobStats);
      && r.ending.Completed?
      && InStageOrder(r.trace)
      && OfStage(r.trace, 0) == jobEvents
      && OfStage(r.trace, 1) == RunUpload(c.aws, RunDir(c, env), env).events
      && OfStage(r.trace, 2) == RemoveEvents(Retained(c, env))
      && OfStage(r.trace, 3) == PushEvents(r.metrics)
  {
    var r := LaterStages(c, env, jobEvents, jobStats);
    Staged(jobEvents, RunUpload(c.aws, RunDir(c, env), env).events, RemoveEvents(Retained(c, env)), PushEvents(r.metrics));
  }

  /** Every upload call that the environment lets succeed does succeed. */
  predicate UploadsPass(c: AppConfig, env: Environment) {
    c.aws.Some? && c.aws.value.enabled ==> forall i :: 0 <= i < |env.uploadSucceeds| ==> env.uploadSucceeds[i]
  }

  /**
    A run completes exactly when the backup root exists, no enabled job fails
    and, when the upload is enabled, every upload succeeds; retention and the
    Prometheus block never end a run.
   */
  lemma CompletesIff(c: AppConfig, env: Environment)
    requires Fits(c, env)
    ensures Backup(c, env).ending.Completed? <==> JobsPass(c, env) && UploadsPass(c, env)
  {
    if JobsPass(c, env) && c.aws.Some? && c.aws.value.enabled {
      var plan := UploadPlan(c.aws.value.path, RunDir(c, env), env.sqlMatches + env.gzMatches);
      assert |plan| == |env.uploadSucceeds|;
    }
  }

  /**
    The first enabled job that fails ends the run with its exception, after
    the commands of that job and of the jobs before it and nothing else.
   */
  lemma FailingJobAbortsRun(c: AppConfig, env: Environment, k: nat)
    requires Fits(c, env) && env.backupRootIsDir && k < |c.backup.jobs|
    requires c.backup.jobs[k].enabled && !JobSucceeds(c.database, c.backup, RunDir(c, env), c.backup.jobs[k], env.jobSteps[k])
    requires forall i :: 0 <= i < k && c.backup.jobs[i].enabled ==>
      JobSucceeds(c.database, c.backup, RunDir(c, env), c.backup.jobs[i], env.jobSteps[i])
    ensures Backup(c, env).ending
         == Aborted(JobRaised(c.backup.jobs[k].name,
                              RunJob(JobConfigFor(c.database, c.backup, RunDir(c, env), c.backup.jobs[k]), env.jobSteps[k]).result))
    ensures Backup(c, env).trace
         == RunJobs(c.database, c.backup, RunDir(c, env), c.backup.jobs[..k + 1], env.jobSteps[..k + 1]).events
    ensures Backup(c, env).uploadStats == [] && Backup(c, env).metrics.None?
    ensures var runs := EnabledRuns(c.database, c.backup, RunDir(c, env), c.backup.jobs[..k + 1], env.jobSteps[..k + 1]);
      Backup(c, env).trace == RunsEvents(runs) && Backup(c, env).jobStats == RunsStats(runs)
  {
    FirstFailingJobEndsLoop(c.database, c.backup, RunDir(c, env), c.backup.jobs, env.jobSteps, k);
    FailingJobRuns(c.database, c.backup, RunDir(c, env), c.backup.jobs, env.jobSteps, k);
  }

  /**
    A completed run holds one stats record per enabled job, in declaration
    order, and one upload stats record when the upload is enabled.
   */
  lemma CompletedRunStats(c: AppConfig, env: Environment)
    requires Fits(c, env) && Backup(c, env).ending.Completed?
    ensures StatNames(Backup(c, env).jobStats) == EnabledNames(c.backup.jobs)
    ensures var runs := EnabledRuns(c.database, c.backup, RunDir(c, env), c.backup.jobs, env.jobSteps);
      Backup(c, env).jobStats == RunsStats(runs) && OfStage(Backup(c, env).trace, 0) == RunsEvents(runs)
    ensures Backup(c, env).uploadStats
         == if c.aws.Some? && c.aws.value.enabled then [UploadStats(env.uploadDurationMs)] else []
  {
    CompletesIff(c, env);
    RunJobsRaisesIff(c.database, c.backup, RunDir(c, env), c.backup.jobs, env.jobSteps);
    AllJobsCollected(c.database, c.backup, RunDir(c, env), c.backup.jobs, env.jobSteps);
    BackupTraceByStage(c, env);
  }

  /**
    The Prometheus block never changes the rest of the run: with any
    `prometheus` section and any push outcome, the run ends the same way,
    collects the same stats and runs the same commands, uploads and removals.
   */
  lemma MetricsNeverChangeTheRun(c: AppConfig, env: Environment, prometheus: Option<PromConfig>, delivered: bool)
    requires Fits(c, env)
    ensures var r, r' := Backup(c, env), Backup(c.(prometheus := prometheus), env.(pushDelivered := delivered));
      && r'.ending == r.ending && r'.jobStats == r.jobStats && r'.uploadStats == r.uploadStats
      && OfStage(r'.trace, 0) == OfStage(r.trace, 0)
      && OfStage(r'.trace, 1) == OfStage(r.trace, 1)
      && OfStage(r'.trace, 2) == OfStage(r.trace, 2)
  {
    var c', env' := c.(prometheus := prometheus), env.(pushDelivered := delivered);
    var runDir := RunDir(c, env);
    assert RunDir(c', env') == runDir;
    assert Retained(c', env') == Retained(c, env);
    var jobs := RunJobs(c.database, c.backup, runDir, c.backup.jobs, env.jobSteps);
    assert RunJobs(c'.database, c'.backup, runDir, c'.backup.jobs, env'.jobSteps) == jobs;
    assert RunUpload(c'.aws, runDir, env') == RunUpload(c.aws, runDir, env);
    if env.backupRootIsDir && jobs.raised.None? {
      var r, r' := LaterStages(c, env, jobs.events, jobs.stats), LaterStages(c', env', jobs.events, jobs.stats);
      assert r'.ending == r.ending && r'.uploadStats == r.uploadStats;
    }
    BackupTraceByStage(c, env);
    BackupTraceByStage(c', env');
  }

  /**
    The run pushes to the gateway exactly when it completes, the Prometheus
    section is present and enabled, at least one job ran and every job's stats
    carry compression values.
   */
  lemma PushIff(c: AppConfig, env: Environment)
    requires Fits(c, env)
    ensures var r := Backup(c, env);
      OfStage(r.trace, 3) != [] <==>
        && r.ending.Completed? && c.prometheus.Some? && c.prometheus.value.enabled
        && r.jobStats != [] && forall i :: 0 <= i < |r.jobStats| ==> Compressed(r.jobStats[i])
  {
    BackupTraceByStage(c, env);
    var r := Backup(c, env);
    assert OfStage(r.trace, 3) == PushEvents(r.metrics);
  }
}
