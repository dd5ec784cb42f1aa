/**
  The Prometheus block at the end of the `__main__` code of app/app.py: job and
  upload stats become labelled gauge values in a registry, which is pushed to
  the gateway when there is something to send. Every exception in the block is
  caught and only logged, so its outcome never affects the rest of the run.

  `Gauge.set` converts its value with `float`, so setting a gauge to `None`
  raises; the model records that as a fault. The `backup_duration` gauge only
  exists when there are job stats, so an upload series without job stats is a
  fault as well (a `NameError` in the source).
 */
module Metrics {
  import opened Text
  import opened DumpJob
  import opened Upload

  /** The labels of one gauge series: gauge name, `backup_job` and `action`. */
  datatype Labels = Labels(gauge: string, job: string, action: string)

  /** The collector registry: the value last set for each labelled series. */
  type Registry = map<Labels, nat>

  /** The `prometheus` section of the configuration. */
  datatype PromConfig = PromConfig(enabled: bool, host: string, job: string)

  /** Why the block raised before pushing. */
  datatype GaugeFault = NoneValue(labels: Labels) | DurationGaugeUndefined

  /** The registry after a run of `set` calls, or the fault that stopped them. */
  datatype Gauges = Set(registry: Registry) | Raised(fault: GaugeFault)

  /** How the block ends; a push that is not delivered is logged and ignored. */
  datatype MetricsOutcome =
    | Disabled
    | NothingToSend
    | GaugeFailed(fault: GaugeFault)
    | Pushed(host: string, job: string, registry: Registry, delivered: bool)

  const SizeGauge := "backup_size"
  const DurationGauge := "backup_duration"

  /** `gauge.labels(...).set(value)`: a `None` value raises. */
  function SetGauge(reg: Registry, labels: Labels, value: Option<nat>): (r: Gauges)
    ensures r.Set? <==> value.Some?
    ensures r.Set? ==> labels in r.registry && r.registry[labels] == value.value
    ensures r.Set? ==> forall k :: k != labels ==> (k in r.registry <==> k in reg)
    ensures r.Set? ==> forall k :: k in reg && k != labels ==> r.registry[k] == reg[k]
  {
    match value
    case None => Raised(NoneValue(labels))
    case Some(v) => Set(reg[labels := v])
  }

  /** A stat whose compression fields are present. */
  predicate Compressed(s: JobStats) {
    s.sizeCompressed.Some? && s.durationCompression.Some?
  }

  /** The four series of one job, in the source's order: size/dump, size/gzip, duration/dump, duration/gzip. */
  function SetStatGauges(reg: Registry, s: JobStats): (r: Gauges)
    ensures r.Set? <==> Compressed(s)
  {
    var r1 := reg[Labels(SizeGauge, s.name, "dump") := s.sizeDump];
    match SetGauge(r1, Labels(SizeGauge, s.name, "gzip"), s.sizeCompressed)
    case Raised(f) => Raised(f)
    case Set(r2) =>
      var r3 := r2[Labels(DurationGauge, s.name, "dump") := s.durationDump];
      SetGauge(r3, Labels(DurationGauge, s.name, "gzip"), s.durationCompression)
  }

  /** The `for stat in job_stats` loop: the first `None` value stops it. */
  function SetJobGauges(reg: Registry, stats: seq<JobStats>): (r: Gauges)
    ensures r.Set? <==> forall i :: 0 <= i < |stats| ==> Compressed(stats[i])
    decreases |stats|
  {
    if stats == [] then Set(reg)
    else
      assert forall i :: 1 <= i < |stats| ==> stats[1..][i - 1] == stats[i];
      match SetStatGauges(reg, stats[0])
      case Raised(f) => Raised(f)
      case Set(r1) => SetJobGauges(r1, stats[1..])
  }

  /** The `for stat in upload_stats` loop: every stat sets the (`aws`, `upload`) duration series. */
  function SetUploadGauges(reg: Registry, ups: seq<UploadStats>): (r: Registry)
    ensures ups != [] ==>
      Labels(DurationGauge, "aws", "upload") in r
      && r[Labels(DurationGauge, "aws", "upload")] == ups[|ups| - 1].uploadDurationMs
    ensures forall k :: k != Labels(DurationGauge, "aws", "upload") ==>
      (k in r <==> k in reg) && (k in reg ==> r[k] == reg[k])
    decreases |ups|
  {
    if ups == [] then reg
    else SetUploadGauges(reg[Labels(DurationGauge, "aws", "upload") := ups[0].uploadDurationMs], ups[1..])
  }

  /**
    Each job's four series hold that job's values: for the last stat with a
    given name (job names are meant to be unique, the registry keeps the last
    value set).
   */
  lemma {:induction false} JobGaugeValues(reg: Registry, stats: seq<JobStats>, i: nat)
    requires SetJobGauges(reg, stats).Set?
    requires i < |stats|
    requires forall j :: i < j < |stats| ==> stats[j].name != stats[i].name
    ensures var r := SetJobGauges(reg, stats).registry; var s := stats[i];
      && Labels(SizeGauge, s.name, "dump") in r && r[Labels(SizeGauge, s.name, "dump")] == s.sizeDump
      && Labels(SizeGauge, s.name, "gzip") in r && Some(r[Labels(SizeGauge, s.name, "gzip")]) == s.sizeCompressed
      && Labels(DurationGauge, s.name, "dump") in r && r[Labels(DurationGauge, s.name, "dump")] == s.durationDump
      && Labels(DurationGauge, s.name, "gzip") in r
      && Some(r[Labels(DurationGauge, s.name, "gzip")]) == s.durationCompression
    decreases |stats|
  {
    var r1 := SetStatGauges(reg, stats[0]).registry;
    assert SetJobGauges(reg, stats) == SetJobGauges(r1, stats[1..]);
    if i == 0 {
      JobGaugesKeepOthers(r1, stats[1..], stats[0].name);
    } else {
      assert stats[1..][i - 1] == stats[i];
      JobGaugeValues(r1, stats[1..], i - 1);
    }
  }

  /** Series of a job whose name no later stat carries are left as they were. */
  lemma {:induction false} JobGaugesKeepOthers(reg: Registry, stats: seq<JobStats>, name: string)
    requires SetJobGauges(reg, stats).Set?
    requires forall j :: 0 <= j < |stats| ==> stats[j].name != name
    ensures forall k: Labels :: k.job == name ==>
      (k in SetJobGauges(reg, stats).registry <==> k in reg)
      && (k in reg ==> SetJobGauges(reg, stats).registry[k] == reg[k])
    decreases |stats|
  {
    if stats != [] {
      var r1 := SetStatGauges(reg, stats[0]).registry;
      assert forall k: Labels :: k.job == name ==> (k in r1 <==> k in reg) && (k in reg ==> r1[k] == reg[k]);
      assert forall j :: 0 <= j < |stats| - 1 ==> stats[1..][j] == stats[j + 1];
      JobGaugesKeepOthers(r1, stats[1..], name);
    }
  }

  /**
    The Prometheus block, when the `prometheus` section exists: set the job
    series (when there are job stats), then the upload series, then push if
    either kind of stat was collected.
   */
  function MetricsStage(conf: PromConfig, jobStats: seq<JobStats>, uploadStats: seq<UploadStats>,
                        delivered: bool): (r: MetricsOutcome)
    ensures r.Disabled? <==> !conf.enabled
    ensures r.Pushed? <==> conf.enabled && jobStats != [] && forall i :: 0 <= i < |jobStats| ==> Compressed(jobStats[i])
    ensures r.Pushed? ==>
      (jobStats != [] || uploadStats != [])
      && r.host == conf.host && r.job == conf.job && r.delivered == delivered
    ensures r.NothingToSend? <==> conf.enabled && jobStats == [] && uploadStats == []
    ensures conf.enabled && jobStats == [] && uploadStats != [] ==> r == GaugeFailed(DurationGaugeUndefined)
    ensures r.Pushed? ==> (Labels(DurationGauge, "aws", "upload") in r.registry <==> uploadStats != [])
    ensures r.Pushed? ==>
      SetJobGauges(map[], jobStats).Set?
      && r.registry == SetUploadGauges(SetJobGauges(map[], jobStats).registry, uploadStats)
  {
    if !conf.enabled then Disabled
    else
      match SetJobGauges(map[], jobStats)
      case Raised(f) => GaugeFailed(f)
      case Set(reg) =>
        if uploadStats != [] && jobStats == [] then GaugeFailed(DurationGaugeUndefined)
        else
          assert jobStats == [] ==> reg == map[];
          JobGaugesNoUploadSeries(map[], jobStats);
          var pushed := SetUploadGauges(reg, uploadStats);
          if uploadStats != [] || jobStats != [] then Pushed(conf.host, conf.job, pushed, delivered)
          else NothingToSend
  }

  /**
    What the push carries: each job's four series hold that job's values (for
    the last stat with its name), and the (`aws`, `upload`) series holds the
    last upload duration.
   */
  lemma PushedValues(conf: PromConfig, jobStats: seq<JobStats>, uploadStats: seq<UploadStats>,
                     delivered: bool, i: nat)
    requires MetricsStage(conf, jobStats, uploadStats, delivered).Pushed?
    requires i < |jobStats|
    requires forall j :: i < j < |jobStats| ==> jobStats[j].name != jobStats[i].name
    ensures var r := MetricsStage(conf, jobStats, uploadStats, delivered).registry; var s := jobStats[i];
      && Labels(SizeGauge, s.name, "dump") in r && r[Labels(SizeGauge, s.name, "dump")] == s.sizeDump
      && Labels(SizeGauge, s.name, "gzip") in r && Some(r[Labels(SizeGauge, s.name, "gzip")]) == s.sizeCompressed
      && Labels(DurationGauge, s.name, "dump") in r && r[Labels(DurationGauge, s.name, "dump")] == s.durationDump
      && Labels(DurationGauge, s.name, "gzip") in r
      && Some(r[Labels(DurationGauge, s.name, "gzip")]) == s.durationCompression
    ensures uploadStats != [] ==>
      MetricsStage(conf, jobStats, uploadStats, delivered).registry[Labels(DurationGauge, "aws", "upload")]
        == uploadStats[|uploadStats| - 1].uploadDurationMs
  {
    JobGaugeValues(map[], jobStats, i);
  }

  /** Job series never use the (`aws`, `upload`) labels. */
  lemma {:induction false} JobGaugesNoUploadSeries(reg: Registry, stats: seq<JobStats>)
    requires SetJobGauges(reg, stats).Set?
    requires Labels(DurationGauge, "aws", "upload") !in reg
    ensures Labels(DurationGauge, "aws", "upload") !in SetJobGauges(reg, stats).registry
    decreases |stats|
  {
    if stats != [] {
      var r1 := SetStatGauges(reg, stats[0]).registry;
      assert Labels(DurationGauge, "aws", "upload") !in r1;
      assert forall j :: 0 <= j < |stats| - 1 ==> stats[1..][j] == stats[j + 1];
      JobGaugesNoUploadSeries(r1, stats[1..]);
    }
  }

  /**
    The Prometheus block with its two loops over the collected stats. The
    result is the block's outcome, which the caller only logs.
   */
  method ReportMetrics(conf: PromConfig, jobStats: seq<JobStats>, uploadStats: seq<UploadStats>,
                       delivered: bool)
    returns (outcome: MetricsOutcome)
    ensures outcome == MetricsStage(conf, jobStats, uploadStats, delivered)
  {
    if !conf.enabled {
      return Disabled;
    }
    var registry: Registry := map[];
    var fault: Option<GaugeFault> := None;
    var gaugesCreated := false;
    if jobStats != [] {
      gaugesCreated := true;
      var i := 0;
      while i < |jobStats| && fault.None?
        invariant 0 <= i <= |jobStats|
        invariant fault.None? ==> SetJobGauges(map[], jobStats) == SetJobGauges(registry, jobStats[i..])
        invariant fault.Some? ==> SetJobGauges(map[], jobStats) == Raised(fault.value)
      {
        var stat := jobStats[i];
        assert jobStats[i..][0] == stat && jobStats[i..][1..] == jobStats[i + 1..];
        registry := registry[Labels(SizeGauge, stat.name, "dump") := stat.sizeDump];
        if stat.sizeCompressed.None? {
          fault := Some(NoneValue(Labels(SizeGauge, stat.name, "gzip")));
        } else {
          registry := registry[Labels(SizeGauge, stat.name, "gzip") := stat.sizeCompressed.value];
          registry := registry[Labels(DurationGauge, stat.name, "dump") := stat.durationDump];
          if stat.durationCompression.None? {
            fault := Some(NoneValue(Labels(DurationGauge, stat.name, "gzip")));
          } else {
            registry := registry[Labels(DurationGauge, stat.name, "gzip") := stat.durationCompression.value];
          }
        }
        i := i + 1;
      }
      if fault.None? {
        assert jobStats[i..] == [];
      }
    }
    ghost var jobRegistry := registry;
    if fault.None? && uploadStats != [] {
      if !gaugesCreated {
        fault := Some(DurationGaugeUndefined);
      } else {
        var j := 0;
        while j < |uploadStats|
          invariant 0 <= j <= |uploadStats|
          invariant SetUploadGauges(jobRegistry, uploadStats) == SetUploadGauges(registry, uploadStats[j..])
        {
          assert uploadStats[j..][1..] == uploadStats[j + 1..];
          registry := registry[Labels(DurationGauge, "aws", "upload") := uploadStats[j].uploadDurationMs];
          j := j + 1;
        }
        assert uploadStats[j..] == [];
      }
    }
    if fault.Some? {
      outcome := GaugeFailed(fault.value);
    } else if uploadStats != [] || jobStats != [] {
      outcome := Pushed(conf.host, conf.job, registry, delivered);
    } else {
      outcome := NothingToSend;
    }
  }
}
