/**
  Upload of a run's artifacts to S3 (`upload_to_aws` in app/app.py). The two
  `glob` results, the outcome of each `upload_file` call and the measured
  duration are inputs; the model produces the transfers attempted, in order,
  and the stats or the error.
 */
module Upload {
  import opened Text

  /** The `aws` section of the configuration (the credentials only reach the S3 client). */
  datatype AwsConfig = AwsConfig(enabled: bool, bucket: string, path: string)

  /** One `upload_file(file, bucket, key)` call. */
  datatype Transfer = Transfer(file: string, key: string)

  datatype UploadStats = UploadStats(uploadDurationMs: nat)

  /** `upload_to_aws` returns its stats or raises after the given time. */
  datatype UploadResult = Uploaded(stats: UploadStats) | UploadFailed(durationMs: nat)

  /** The calls made and whether every one of them succeeded. */
  datatype TransferRun = TransferRun(calls: seq<Transfer>, completed: bool)

  /** The object key `{path}/{basename(run_dir)}/{basename(file)}`. */
  function ObjectKey(path: string, runDir: string, file: string): string {
    path + "/" + Basename(runDir) + "/" + Basename(file)
  }

  /** Each file to transfer with its object key, in the order given. */
  function UploadPlan(path: string, runDir: string, files: seq<string>): (plan: seq<Transfer>)
    ensures |plan| == |files|
    ensures forall i :: 0 <= i < |files| ==> plan[i] == Transfer(files[i], ObjectKey(path, runDir, files[i]))
  {
    seq(|files|, i requires 0 <= i < |files| => Transfer(files[i], ObjectKey(path, runDir, files[i])))
  }

  /**
    For a run directory `<root>/<run>` and a file `<run dir>/<name>` as `glob`
    returns it, the key is `{path}/<run>/<name>`.
   */
  lemma ObjectKeyOfArtifact(path: string, root: string, run: string, name: string)
    requires '/' !in run && '/' !in name
    ensures ObjectKey(path, PathJoin(root, run), PathJoin(root, run) + "/" + name)
         == path + "/" + run + "/" + name
  {
    var runDir := PathJoin(root, run);
    BasenameOfPathJoin(root, run);
    assert runDir + "/" + name == (runDir + "/") + name;
    BasenameAfterSeparator(runDir + "/", name);
  }

  /**
    Uploading the planned transfers one at a time: the first failing call
    aborts the rest, so the calls made are the plan up to and including the
    first failure, or the whole plan.
   */
  function Transfers(plan: seq<Transfer>, succeeds: seq<bool>): (r: TransferRun)
    requires |succeeds| == |plan|
    ensures |r.calls| <= |plan| && r.calls == plan[..|r.calls|]
    ensures r.completed <==> forall i :: 0 <= i < |plan| ==> succeeds[i]
    ensures r.completed ==> r.calls == plan
    ensures !r.completed ==>
      |r.calls| > 0 && !succeeds[|r.calls| - 1] && forall i :: 0 <= i < |r.calls| - 1 ==> succeeds[i]
    decreases |plan|
  {
    if plan == [] then TransferRun([], true)
    else if !succeeds[0] then TransferRun([plan[0]], false)
    else
      var rest := Transfers(plan[1..], succeeds[1..]);
      assert forall i :: 1 <= i < |plan| ==> succeeds[1..][i - 1] == succeeds[i];
      assert plan[..|rest.calls| + 1] == [plan[0]] + plan[1..][..|rest.calls|];
      TransferRun([plan[0]] + rest.calls, rest.completed)
  }

  /** The transfer run is fixed by the first failing index `n` (or `n == |plan|` when none fails). */
  lemma TransfersStopAtFirstFailure(plan: seq<Transfer>, succeeds: seq<bool>, n: nat)
    requires |succeeds| == |plan| && n <= |plan|
    requires forall i :: 0 <= i < n ==> succeeds[i]
    requires n < |plan| ==> !succeeds[n]
    ensures n == |plan| ==> Transfers(plan, succeeds) == TransferRun(plan, true)
    ensures n < |plan| ==> Transfers(plan, succeeds) == TransferRun(plan[..n + 1], false)
  {
    var r := Transfers(plan, succeeds);
    if n < |plan| {
      assert !r.completed;
      assert |r.calls| - 1 == n;
    }
  }

  lemma TakeOneMore<T>(s: seq<T>, i: nat)
    requires i < |s|
    ensures s[..i + 1] == s[..i] + [s[i]]
  {
  }

  /** What `upload_to_aws` returns or raises, given how its uploads went. */
  function UploadOutcome(run: TransferRun, durationMs: nat): (r: UploadResult)
    ensures r.Uploaded? <==> run.completed
  {
    if run.completed then Uploaded(UploadStats(durationMs)) else UploadFailed(durationMs)
  }

  /**
    `upload_to_aws(configuration, backup_dir)`: upload every `*.sql` match and
    then every `*.gz` match under `{path}/{basename(backup_dir)}`; the first
    failing upload is re-raised. No matches is only a warning.
   */
  method UploadToAws(conf: AwsConfig, runDir: string, sqlMatches: seq<string>, gzMatches: seq<string>,
                     succeeds: seq<bool>, durationMs: nat)
    returns (calls: seq<Transfer>, result: UploadResult)
    requires |succeeds| == |sqlMatches| + |gzMatches|
    ensures var run := Transfers(UploadPlan(conf.path, runDir, sqlMatches + gzMatches), succeeds);
      calls == run.calls && result == UploadOutcome(run, durationMs)
    ensures sqlMatches + gzMatches == [] ==> calls == [] && result == Uploaded(UploadStats(durationMs))
  {
    var filesToTransfer := sqlMatches + gzMatches;
    ghost var plan := UploadPlan(conf.path, runDir, filesToTransfer);
    calls := [];
    var failed := false;
    if filesToTransfer != [] {
      var i := 0;
      while i < |filesToTransfer| && !failed
        invariant 0 <= i <= |filesToTransfer|
        invariant calls == plan[..i]
        invariant !failed ==> forall k :: 0 <= k < i ==> succeeds[k]
        invariant failed ==> 0 < i && !succeeds[i - 1] && forall k :: 0 <= k < i - 1 ==> succeeds[k]
      {
        var file := filesToTransfer[i];
        var key := ObjectKey(conf.path, runDir, file);
        assert plan[i] == Transfer(file, key);
        TakeOneMore(plan, i);
        calls := calls + [Transfer(file, key)];
        failed := !succeeds[i];
        i := i + 1;
      }
    }
    if failed {
      TransfersStopAtFirstFailure(plan, succeeds, |calls| - 1);
    } else {
      assert plan[..|plan|] == plan;
      TransfersStopAtFirstFailure(plan, succeeds, |plan|);
    }
    result := if failed then UploadFailed(durationMs) else Uploaded(UploadStats(durationMs));
  }
}
