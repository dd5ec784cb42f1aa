# PostgreSQL backup pipeline — a Dafny model

This project models the policy layer of the `nepms-backup-postgresql` backup script (`app/app.py`).
A run works through the backup stages in a fixed order:
1. It runs every enabled backup job. Each job creates the run directory, runs `pg_dump` into `<run dir>/<name>.sql` and optionally compresses the dump with `gzip` or `pigz`.
2. It uploads the run's `*.sql` and `*.gz` files to S3.
3. It removes the oldest run directories beyond `keep_local_backups`.
4. It maps the collected statistics to Prometheus gauges and pushes them to a push gateway.

The model treats the outside world as inputs:
- the shell and each command's exit status and duration;
- what `os.stat` reports;
- the `glob` results and the outcome of each S3 upload;
- the listing of the backup root with each entry's kind and modification time;
- the clock-derived run-directory name;
- whether the push reaches the gateway.

A run produces a trace of the side effects it performs, in order: shell commands, upload calls, directory removals and the push. It also produces its ending and the statistics it collected.

Modules:
- `Text` (`text.dfy`): `" ".join`, `os.path.join` and `os.path.basename` on POSIX paths.
- `DumpJob` (`dump_job.dfy`): `run_job`. This covers the mode flag, the connection arguments, the dump and compression commands, and the stats or failure.
- `Retention` (`retention.dfy`): `delete_old_backups`.
  - Python's stable `list.sort(reverse=True)` is specified by an insertion sort that takes the entries in listing order.
  - Python's slice `xs[k:]` is modelled for any integer `k`, including a negative one.
- `Upload` (`upload.dfy`): `upload_to_aws`. This covers the transfer plan, the object keys, and stopping at the first failed upload.
- `Metrics` (`metrics.dfy`): the Prometheus block, meaning the gauge series set from the stats and the push condition.
- `Orchestrator` (`orchestrator.dfy`): the `__main__` block. This covers job filtering and defaults, stage order, and which exceptions end the run.

Behaviour of the code that the model keeps as written:
- Around a job, only `AssertionError` is caught, and `run_job` raises `RuntimeError`. The first failing job therefore ends the whole run: later jobs, the upload, retention and the Prometheus block do not run.
- The error from `upload_to_aws` is not caught. An upload failure therefore ends the run: retention and the Prometheus block do not run.
- A failed compression raises, so that job's dump statistics are lost too.
- The password is passed with `-p`, which is `pg_dump`'s port option.
- The Prometheus block fails in some cases, and the failure is only logged:
  - It sets the `gzip` series even when the job did not compress. `Gauge.set(None)` raises, so nothing is pushed.
  - When there are upload stats but no job stats, the `backup_duration` gauge is never created and the block raises a `NameError`. So a push happens exactly when the section is enabled, at least one job ran, and every job compressed.
- `os.stat` on a missing dump or archive raises `FileNotFoundError`. Nothing catches it, so the run ends.

## Model

| member | source | states |
|---|---|---|
| Text.JoinWords | app/app.py:131 | joining no words gives the empty string; the first word starts the result |
| Text.JoinWordsEndsWithLast | app/app.py:142 | the joined string ends with the last word, preceded by a space when there are several words |
| Text.JoinWordsAppend | app/app.py:142-149 | joining two non-empty word lists is their joins with one space between, so every word appears in the result |
| Text.BasenameIsLastSegment | app/app.py:227 | the basename has no `/`, is a suffix of the path, and is preceded by `/` when it is shorter than the path |
| Text.BasenameOfPathJoin | app/app.py:281-283 | the basename of `join(root, name)` is `name` for a plain name |
| DumpJob.ModeFlags | app/app.py:126-131 | at most one flag; `--schema-only` is present iff the type is `schema`, and `--data-only` iff it is `data`; any other type, `full` included, gives no flag |
| DumpJob.ConnectionArgsInFlagOrder | app/app.py:134-142 | the arguments come in the fixed order `-h`, `-U`, `-p`, `-d`, each at most once |
| DumpJob.ConnectionArgs | app/app.py:134-142 | 1 to 4 arguments; each of `-h host`, `-U user`, `-p password` is present iff its field is non-empty; `-d db` is always last; nothing else appears |
| DumpJob.CreateDirCommand | app/app.py:123 | the command is `mkdir -p ` followed by the job's output directory and nothing else (prefix, suffix and length) |
| DumpJob.DumpCommand | app/app.py:145-149 | the command starts with the dump binary and a space and ends with ` > <output_dir>/<name>.sql`; between them are the joined connection arguments and the joined mode flags |
| DumpJob.DumpCommandWords | app/app.py:134-149 | the command is the words binary, each connection argument (`-p password` included), the mode word, `>` and the output path, joined by single spaces |
| DumpJob.DumpCommandTail | app/app.py:126-149 | the command ends with `-d <db> <mode flag> > <output>`, with an empty mode word for any type other than `schema` or `data` |
| DumpJob.CompressionCommand | app/app.py:174-177 | the command starts with `pigz ` iff `compression_with_pigz`, otherwise with `gzip `, ends with ` <output>`, and has no other words (its length is the tool, a space and the path) |
| DumpJob.ArtifactNames | app/app.py:145-146 | a job's files are named `<name>.sql` and `<name>.sql.gz` |
| DumpJob.RunJob | app/app.py:151-203 | the commands run are mkdir, then dump, then compress, each only after the previous one succeeded; a failed command gives `RuntimeError` and no stats; a missing file raises; stats carry the name, the dump size and duration, and compression fields that are `None` exactly when compression is off and otherwise hold the `.gz` size and the compression duration |
| Retention.DirsAreTheDirectories | app/app.py:70-74 | the candidates are exactly the directory entries of the listing, with their multiplicities |
| Retention.InsertAddsEntry | app/app.py:80 | inserting adds exactly the new entry |
| Retention.InsertSorted | app/app.py:80 | inserting into a newest-first sequence keeps it newest first |
| Retention.SortDescPermutes | app/app.py:80 | the sort result is a permutation of its input |
| Retention.SortDescSorted | app/app.py:80 | the sort result is newest first |
| Retention.SortDescStable | app/app.py:80 | the sort is stable: entries with equal times keep their listing order |
| Retention.SliceStart | app/app.py:82 | Python's slice start lies within the list |
| Retention.DoomedAreListedDirs | app/app.py:70-82 | only directories of the listing are removed |
| Retention.Doomed | app/app.py:75-82 | nothing is removed when there are at most `keep_count` directories; otherwise exactly `count - keep_count` of them (for a negative `keep_count`, the last `-keep_count`) |
| Retention.RetentionPartitions | app/app.py:77-82 | the kept and the removed directories together are exactly the directories |
| Retention.SurvivorsAreNewer | app/app.py:80-82 | every kept directory is at least as new as every removed one |
| Retention.RetentionKeepsListingOrderOnTies | app/app.py:80-82 | among directories with equal times, the kept ones precede the removed ones in listing order |
| Retention.RemovedPaths | app/app.py:71 | the i-th path removed is `join(root, name)` of the i-th doomed directory |
| Retention.DeleteOldBackups | app/app.py:66-92 | the paths passed to `rmtree`, in order, are the joined paths of the doomed directories |
| Upload.UploadPlan | app/app.py:241-245 | one transfer per file, in order, each to key `{path}/{basename(run_dir)}/{basename(file)}` |
| Upload.ObjectKeyOfArtifact | app/app.py:227-245 | a file `<run dir>/<name>` of run `<run>` goes to `{path}/<run>/<name>` |
| Upload.Transfers | app/app.py:244-249 | the calls made are a prefix of the plan; all succeed iff the whole plan is made; otherwise the last call is the first failure |
| Upload.TransfersStopAtFirstFailure | app/app.py:244-259 | the calls made are the plan up to and including the first failure, or the whole plan |
| Upload.UploadOutcome | app/app.py:253-262 | stats are returned iff every upload succeeded |
| Upload.UploadToAws | app/app.py:223-262 | the calls are those of the plan over the `*.sql` then `*.gz` matches, cut at the first failure; the result raises iff a call failed; no matches means no calls and stats returned |
| Metrics.SetGauge | app/app.py:359 | setting a series stores the value and leaves other series alone; a `None` value raises |
| Metrics.SetStatGauges | app/app.py:350-373 | one job's four series are set iff both compression fields are present |
| Metrics.SetJobGauges | app/app.py:350-373 | the job loop finishes iff every job stat has compression values |
| Metrics.SetUploadGauges | app/app.py:375-380 | the (`aws`, `upload`) duration series holds the last upload duration; no other series changes |
| Metrics.JobGaugeValues | app/app.py:350-373 | a job's `backup_size` series (`dump`, `gzip`) and `backup_duration` series (`dump`, `gzip`) hold its dump size, compressed size, dump duration and compression duration |
| Metrics.JobGaugesKeepOthers | app/app.py:350-373 | the job loop touches only the series of the jobs it visits |
| Metrics.JobGaugesNoUploadSeries | app/app.py:339-380 | job series never use the (`aws`, `upload`) labels |
| Metrics.MetricsStage | app/app.py:330-397 | disabled iff not enabled; pushed iff enabled, job stats exist and all carry compression values; nothing to send iff both stat lists are empty; upload stats without job stats fail; the pushed registry has the upload series iff there are upload stats, and it is the registry the job loop and then the upload loop set |
| Metrics.PushedValues | app/app.py:350-389 | the pushed registry holds each job's dump and gzip sizes and durations (for the last stat with its name) and the last upload duration |
| Metrics.ReportMetrics | app/app.py:330-397 | the block's two loops produce the outcome `MetricsStage` specifies |
| Orchestrator.JobConfigFor | app/app.py:288-303 | `dump_bin` defaults to `pg_dump`, `compression_with_pigz` to false; the other fields come from the database section, the job and the run directory |
| Orchestrator.RunJobs | app/app.py:285-311 | the loop runs only shell commands and raises only a job's exception |
| Orchestrator.RunJobsRaisesIff | app/app.py:285-311 | the loop raises nothing iff every enabled job succeeds |
| Orchestrator.RunEnabledJobs | app/app.py:285-311 | the loop over the jobs produces the commands, stats and exception `RunJobs` specifies |
| Orchestrator.AllJobsCollected | app/app.py:285-311 | when no enabled job fails, the loop runs exactly the commands of the enabled jobs' `run_job` calls and collects exactly their stats, in declaration order; disabled jobs run nothing; the stats' names are the enabled jobs' names |
| Orchestrator.FailingJobRuns | app/app.py:285-311 | when an enabled job fails first, the loop runs exactly the commands of the enabled jobs up to it and collects the stats of those before it |
| Orchestrator.FirstFailingJobEndsLoop | app/app.py:306-311 | the first failing enabled job ends the loop with its exception, as if the later jobs were not declared |
| Orchestrator.RunUpload | app/app.py:312-323 | uploads happen only when the `aws` section exists and is enabled, and go to its bucket |
| Orchestrator.PushEvents | app/app.py:382-389 | a push happens iff the Prometheus block pushed |
| Orchestrator.Retained | app/app.py:325-328 | retention removes nothing unless `keep_local_backups` is present, and then removes the doomed directories of the backup root |
| Orchestrator.LaterStages | app/app.py:312-397 | after the jobs, the run completes or ends with the upload's exception; an ended run has no upload stats and no metrics |
| Orchestrator.Backup | app/app.py:266-397 | the run ends at once iff the backup root is missing; an ended run has no upload stats and no metrics |
| Orchestrator.RunBackup | app/app.py:266-397 | the `__main__` block produces the report `Backup` specifies |
| Orchestrator.RunLaterStages | app/app.py:312-397 | upload, retention and metrics produce the report `LaterStages` specifies |
| Orchestrator.BackupTraceByStage | app/app.py:277-397 | stages happen in the order jobs, upload, retention, metrics; the jobs run iff the root exists; the upload runs only after every job passed; removals and the push happen only in a completed run, and the removals are the doomed directories |
| Orchestrator.LaterStagesByStage | app/app.py:312-397 | the stages after the jobs happen in order, and each stage's events are that stage's |
| Orchestrator.CompletesIff | app/app.py:278-328 | a run completes iff the root exists, no enabled job fails, and every upload succeeds when uploads are enabled |
| Orchestrator.FailingJobAbortsRun | app/app.py:285-311 | the first failing enabled job ends the run with its exception; the trace is exactly the commands of the enabled jobs up to it, and the stats are those of the enabled jobs before it |
| Orchestrator.CompletedRunStats | app/app.py:285-321 | a completed run holds exactly the stats of the enabled jobs' `run_job` calls, in declaration order, and its jobs stage is exactly their commands; one upload record iff uploads are enabled |
| Orchestrator.MetricsNeverChangeTheRun | app/app.py:330-397 | the Prometheus section and the push outcome never change the ending, the stats, or the commands, uploads and removals |
| Orchestrator.PushIff | app/app.py:330-397 | the run pushes iff it completes, Prometheus is enabled, at least one job ran and every job stat carries compression values |

## Left out

- Shell commands, `pg_dump`, `gzip` and `pigz` are not executed; each command is an exit outcome with a duration. The effect of the `>` redirection is not modelled.
- Durations come from `time.time()` in floating point, rounded to milliseconds. The model takes them as given naturals.
- `os.path.abspath` normalisation of the run directory is not modelled. The run directory is the plain join of the backup root and the timestamp name.
- The timestamp name comes from `datetime.now()` with `%Y-%m-%d_%H%M%S`. The model takes it as a given string.
- Argument parsing, reading the JSON configuration (`get_json_conf`), `get_script_path`, `log_level_switch` and logging are not modelled. A missing required key (a `KeyError`) or an ill-typed value is excluded by the configuration datatypes.
- The S3 client, credentials and `S3Transfer` are not modelled. Upload.UploadToAws only fails through a failed `upload_file` call; an exception while creating the client or globbing is not modelled separately.
- `glob` matching is not modelled. The two match lists are inputs.
- The `push_to_gateway` transport is not modelled. Its outcome is a given flag, and any failure is only logged.
- `os.listdir`, `os.path.isdir` and `os.path.getmtime` are not modelled. The listing of the backup root is an input.
- `shutil.rmtree(ignore_errors=True)` is recorded as a removal event. Its own errors are ignored, as in the source.
- Retention.DeleteOldBackups: the source sorts `backup_dirs` in place. The model computes the sorted sequence as a new value, in the same order.
- Retention.DeleteOldBackups: the source reads each directory's modification time once, when it sorts, after the listing was taken. The model uses the time given in the listing, so a directory touched in between is not modelled.
- Metrics.JobGaugeValues: when two job stats share a name, the registry keeps the last values. The lemma states the values only for a name that no later stat repeats.
- Gauge help texts, registry internals and the exposition format are not modelled.
