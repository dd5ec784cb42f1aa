/**
  One backup job (`run_job` in app/app.py): the shell commands it builds from a
  job record, and the statistics or failure it reports. The shell, `pg_dump`,
  `gzip`/`pigz`, the clock and `os.stat` are inputs: each command has an exit
  outcome carrying its measured duration, and the file sizes `os.stat` would
  report are a map from path to size.
 */
module DumpJob {
  import opened Text

  /** The job record the orchestrator assembles for `run_job`. */
  datatype JobConfig = JobConfig(
    name: string,
    outputDir: string,
    dumpBin: string,
    host: string,
    db: string,
    user: string,
    password: string,
    dumpType: string,
    compression: bool,
    compressionWithPigz: bool)

  /**
    The dictionary `run_job` returns. The compression fields are `None` when the
    job does not compress.
   */
  datatype JobStats = JobStats(
    name: string,
    durationDump: nat,
    durationCompression: Option<nat>,
    sizeDump: nat,
    sizeCompressed: Option<nat>)

  /** How one shell command ended: exit status zero after some milliseconds, or a non-zero exit. */
  datatype Exit = Ok(durationMs: nat) | Fail

  /** What the outside world does during one job. */
  datatype JobSteps = JobSteps(
    mkdir: Exit,
    dump: Exit,
    compress: Exit,
    sizes: map<string, nat>)  // what `os.stat(path).st_size` reports; a missing path raises

  /**
    How `run_job` ends: it returns stats, raises `RuntimeError` after a failed
    command, or lets the `FileNotFoundError` of `os.stat` escape.
   */
  datatype JobResult = Succeeded(stats: JobStats) | RuntimeError | FileMissing(path: string)

  /** The shell commands `run_job` ran, in order, and how it ended. */
  datatype JobRun = JobRun(commands: seq<string>, result: JobResult)

  /** The dump mode flags for a job `type`: two independent tests, as in the source. */
  function ModeFlags(dumpType: string): (r: seq<string>)
    ensures |r| <= 1
    ensures "--schema-only" in r <==> dumpType == "schema"
    ensures "--data-only" in r <==> dumpType == "data"
    ensures dumpType != "schema" && dumpType != "data" ==> r == []
  {
    (if dumpType == "schema" then ["--schema-only"] else [])
    + (if dumpType == "data" then ["--data-only"] else [])
  }

  /** Position of a connection argument in the fixed order `-h`, `-U`, `-p`, `-d`; 4 for anything else. */
  function FlagRank(arg: string): nat {
    if |arg| < 3 || arg[0] != '-' || arg[2] != ' ' then 4
    else if arg[1] == 'h' then 0
    else if arg[1] == 'U' then 1
    else if arg[1] == 'p' then 2
    else if arg[1] == 'd' then 3
    else 4
  }

  /**
    The connection arguments. The password goes with `-p`, exactly as the source
    writes it (for `pg_dump`, `-p` is the port option).
   */
  function ConnectionArgs(host: string, user: string, password: string, db: string): (r: seq<string>)
    ensures 1 <= |r| <= 4
    ensures r[|r| - 1] == "-d " + db
    ensures host != "" <==> "-h " + host in r
    ensures user != "" <==> "-U " + user in r
    ensures password != "" <==> "-p " + password in r
    ensures forall a :: a in r ==> a == "-h " + host || a == "-U " + user || a == "-p " + password || a == "-d " + db
  {
    var h := if host != "" then ["-h " + host] else [];
    var u := if user != "" then ["-U " + user] else [];
    var p := if password != "" then ["-p " + password] else [];
    assert FlagRank("-h " + host) == 0 && FlagRank("-U " + user) == 1;
    assert FlagRank("-p " + password) == 2 && FlagRank("-d " + db) == 3;
    assert ("-h " + host)[1] == 'h' && ("-U " + user)[1] == 'U';
    assert ("-p " + password)[1] == 'p' && ("-d " + db)[1] == 'd';
    h + u + p + ["-d " + db]
  }

  /** The connection arguments come in the fixed order `-h`, `-U`, `-p`, `-d`, each at most once. */
  lemma ConnectionArgsInFlagOrder(host: string, user: string, password: string, db: string)
    ensures var r := ConnectionArgs(host, user, password, db);
      forall i, j :: 0 <= i < j < |r| ==> FlagRank(r[i]) < FlagRank(r[j])
  {
    assert FlagRank("-h " + host) == 0 && FlagRank("-U " + user) == 1;
    assert FlagRank("-p " + password) == 2 && FlagRank("-d " + db) == 3;
  }

  /** `mkdir -p <output_dir>`. */
  function CreateDirCommand(job: JobConfig): (r: string)
    ensures "mkdir -p " <= r && EndsWith(r, job.outputDir)
    ensures |r| == |"mkdir -p "| + |job.outputDir|
  {
    "mkdir -p " + job.outputDir
  }

  /** Where the dump is written: `<output_dir>/<name>.sql`. */
  function OutputPath(job: JobConfig): string {
    job.outputDir + "/" + job.name + ".sql"
  }

  /** Where the compressor leaves its result: the dump path with `.gz` appended. */
  function CompressedPath(job: JobConfig): string {
    OutputPath(job) + ".gz"
  }

  /** `<dump_bin> <connection> <mode> > <output>`, the words joined by single spaces. */
  function DumpCommand(job: JobConfig): (r: string)
    ensures job.dumpBin + " " <= r
    ensures EndsWith(r, " > " + OutputPath(job))
    ensures r == job.dumpBin + " " + JoinWords(ConnectionArgs(job.host, job.user, job.password, job.db))
                 + " " + JoinWords(ModeFlags(job.dumpType)) + " > " + OutputPath(job)
  {
    var conn := JoinWords(ConnectionArgs(job.host, job.user, job.password, job.db));
    var opts := JoinWords(ModeFlags(job.dumpType));
    DumpCommandShape(job.dumpBin, conn, opts, OutputPath(job));
    job.dumpBin + " " + conn + " " + opts + " > " + OutputPath(job)
  }

  lemma DumpCommandShape(bin: string, conn: string, opts: string, out: string)
    ensures bin + " " <= bin + " " + conn + " " + opts + " > " + out
    ensures EndsWith(bin + " " + conn + " " + opts + " > " + out, " > " + out)
  {
    var front := bin + " " + conn + " " + opts;
    assert front + " > " + out == front + (" > " + out);
    EndsWithConcat(front, " > " + out);
    assert front + (" > " + out) == (bin + " ") + (conn + " " + opts + " > " + out);
  }

  /**
    The dump command is its words joined by single spaces: the binary, every
    connection argument (the password after `-p` included), the mode word,
    `>` and the output path.
   */
  lemma DumpCommandWords(job: JobConfig)
    ensures DumpCommand(job)
         == JoinWords([job.dumpBin] + ConnectionArgs(job.host, job.user, job.password, job.db)
                      + [JoinWords(ModeFlags(job.dumpType)), ">", OutputPath(job)])
  {
    CommandWords(job.dumpBin, ConnectionArgs(job.host, job.user, job.password, job.db),
                 JoinWords(ModeFlags(job.dumpType)), OutputPath(job));
  }

  lemma CommandWords(bin: string, args: seq<string>, opts: string, out: string)
    requires args != []
    ensures JoinWords([bin] + args + [opts, ">", out])
         == bin + " " + JoinWords(args) + " " + opts + " > " + out
  {
    var tail := [opts, ">", out];
    var t := opts + " > " + out;
    RedirectWords(opts, out);
    JoinWordsAppend(args, tail);
    JoinWordsAppend([bin], args + tail);
    assert [bin] + args + tail == [bin] + (args + tail);
    SpaceAssoc(bin, JoinWords(args), t);
    StringAssoc(bin + " " + JoinWords(args) + " ", opts, " > ", out);
  }

  lemma RedirectWords(opts: string, out: string)
    ensures JoinWords([opts, ">", out]) == opts + " > " + out
  {
    assert [opts, ">", out][1..] == [">", out] && [">", out][1..] == [out];
    assert JoinWords([out]) == out;
  }

  lemma SpaceAssoc(a: string, b: string, c: string)
    ensures a + " " + (b + " " + c) == a + " " + b + " " + c
  {
  }

  lemma StringAssoc(a: string, b: string, c: string, d: string)
    ensures a + (b + c + d) == a + b + c + d
  {
  }

  /** `pigz <output>` or `gzip <output>`. */
  function CompressionCommand(job: JobConfig): (r: string)
    ensures "pigz " <= r <==> job.compressionWithPigz
    ensures "gzip " <= r <==> !job.compressionWithPigz
    ensures EndsWith(r, " " + OutputPath(job))
    ensures |r| == |"pigz "| + |OutputPath(job)|
  {
    var tool := if job.compressionWithPigz then "pigz" else "gzip";
    var r := tool + " " + OutputPath(job);
    assert r == (tool + " ") + OutputPath(job);
    assert r == tool + (" " + OutputPath(job));
    EndsWithConcat(tool, " " + OutputPath(job));
    assert r[..5] == tool + " ";
    assert "pigz "[0] != "gzip "[0];
    r
  }

  /**
    The tail of the dump command: the database argument is the last connection
    argument and is followed by the mode flag and the redirection. For any
    other type the mode is an empty word, so two spaces precede `>`.
   */
  lemma DumpCommandTail(job: JobConfig)
    ensures job.dumpType == "schema" ==>
      EndsWith(DumpCommand(job), "-d " + job.db + " " + "--schema-only" + " > " + OutputPath(job))
    ensures job.dumpType == "data" ==>
      EndsWith(DumpCommand(job), "-d " + job.db + " " + "--data-only" + " > " + OutputPath(job))
    ensures job.dumpType != "schema" && job.dumpType != "data" ==>
      EndsWith(DumpCommand(job), "-d " + job.db + " " + "" + " > " + OutputPath(job))
  {
    var args := ConnectionArgs(job.host, job.user, job.password, job.db);
    JoinWordsEndsWithLast(args);
    var flags := ModeFlags(job.dumpType);
    var opts := JoinWords(flags);
    assert DumpCommand(job) == job.dumpBin + " " + JoinWords(args) + " " + opts + " > " + OutputPath(job);
    DumpCommandTailShape(job.dumpBin, JoinWords(args), "-d " + job.db, opts, OutputPath(job));
    if job.dumpType == "schema" {
      assert flags == ["--schema-only"];
      assert opts == "--schema-only";
    } else if job.dumpType == "data" {
      assert flags == ["--data-only"];
      assert opts == "--data-only";
    } else {
      assert flags == [];
      assert opts == "";
    }
  }

  lemma DumpCommandTailShape(bin: string, conn: string, last: string, opts: string, out: string)
    requires EndsWith(conn, last)
    ensures EndsWith(bin + " " + conn + " " + opts + " > " + out, last + " " + opts + " > " + out)
  {
    var tail := " " + opts + " > " + out;
    EndsWithPrepend(bin + " ", conn, last);
    EndsWithExtend(bin + " " + conn, last, tail);
    assert bin + " " + conn + tail == bin + " " + conn + " " + opts + " > " + out;
    assert last + tail == last + " " + opts + " > " + out;
  }

  /**
    The artifacts of a job whose name is a plain file name are `<name>.sql`
    and `<name>.sql.gz` inside its output directory.
   */
  lemma ArtifactNames(job: JobConfig)
    requires '/' !in job.name
    ensures Basename(OutputPath(job)) == job.name + ".sql"
    ensures Basename(CompressedPath(job)) == job.name + ".sql.gz"
  {
    assert '/' !in ".sql" && '/' !in ".sql.gz";
    assert '/' !in job.name + ".sql";
    assert '/' !in job.name + ".sql.gz";
    var dir := job.outputDir + "/";
    assert dir[|dir| - 1] == '/';
    assert OutputPath(job) == dir + (job.name + ".sql");
    assert CompressedPath(job) == dir + (job.name + ".sql.gz");
    BasenameAfterSeparator(dir, job.name + ".sql");
    BasenameAfterSeparator(dir, job.name + ".sql.gz");
  }

  /**
    `run_job`: create the output directory, dump, optionally compress, then
    report sizes and durations. Every command failure becomes `RuntimeError`;
    a failed compression discards the dump statistics as well.
   */
  function RunJob(job: JobConfig, steps: JobSteps): (r: JobRun)
    ensures 1 <= |r.commands| <= 3
    ensures r.commands[0] == CreateDirCommand(job)
    ensures |r.commands| >= 2 <==> steps.mkdir.Ok?
    ensures |r.commands| >= 2 ==> r.commands[1] == DumpCommand(job)
    ensures |r.commands| == 3 <==>
      steps.mkdir.Ok? && steps.dump.Ok? && OutputPath(job) in steps.sizes && job.compression
    ensures |r.commands| == 3 ==> r.commands[2] == CompressionCommand(job)
    ensures r.result.RuntimeError? <==>
      steps.mkdir.Fail? || steps.dump.Fail? || (|r.commands| == 3 && steps.compress.Fail?)
    ensures r.result.Succeeded? ==>
      && steps.mkdir.Ok? && steps.dump.Ok? && (job.compression ==> steps.compress.Ok?)
      && r.result.stats.name == job.name
      && r.result.stats.durationDump == steps.dump.durationMs
      && OutputPath(job) in steps.sizes
      && r.result.stats.sizeDump == steps.sizes[OutputPath(job)]
      && (r.result.stats.sizeCompressed.None? <==> !job.compression)
      && (r.result.stats.durationCompression.None? <==> !job.compression)
    ensures r.result.Succeeded? && job.compression ==>
      && CompressedPath(job) in steps.sizes
      && r.result.stats.sizeCompressed == Some(steps.sizes[CompressedPath(job)])
      && r.result.stats.durationCompression == Some(steps.compress.durationMs)
    ensures r.result.FileMissing? ==>
      r.result.path == (if |r.commands| == 3 then CompressedPath(job) else OutputPath(job))
      && r.result.path !in steps.sizes
  {
    var mkdir := [CreateDirCommand(job)];
    if steps.mkdir.Fail? then JobRun(mkdir, RuntimeError)
    else
      var dumped := mkdir + [DumpCommand(job)];
      if steps.dump.Fail? then JobRun(dumped, RuntimeError)
      else if OutputPath(job) !in steps.sizes then JobRun(dumped, FileMissing(OutputPath(job)))
      else
        var dumpSize := steps.sizes[OutputPath(job)];
        if !job.compression then
          JobRun(dumped, Succeeded(JobStats(job.name, steps.dump.durationMs, None, dumpSize, None)))
        else
          var compressed := dumped + [CompressionCommand(job)];
          if steps.compress.Fail? then JobRun(compressed, RuntimeError)
          else if CompressedPath(job) !in steps.sizes then
            JobRun(compressed, FileMissing(CompressedPath(job)))
          else
            var stats := JobStats(
              job.name,
              steps.dump.durationMs,
              Some(steps.compress.durationMs),
              dumpSize,
              Some(steps.sizes[CompressedPath(job)]));
            JobRun(compressed, Succeeded(stats))
  }
}
