# Bazel auto-sheriff, modelled in Dafny

This project models the decision logic of the Bazel CI auto-sheriff,
`buildkite/bazel_auto_sheriff.py`. Every day the sheriff compares two
builds of each downstream project:

- the project's newest build on its own ("main") pipeline;
- the project's share of the newest build of the shared downstream
  pipeline, which runs every project against Bazel at HEAD.

From the two results it decides what to do next:

- retry the failing jobs;
- rebuild the project at its last green commit;
- ask the culprit-finder pipeline to bisect the tasks that still fail.

It narrates what it finds as it goes.

The model consists of the following modules:

- `Strings`: the Python `str` operations the script relies on (`startswith`,
  `in`, `rfind`, `split`, `join`, `replace`), over `seq<char>`.
- `Dicts`: Python's insertion-ordered `dict`. It is a key list plus a map,
  and assigning to an existing key keeps its position.
- `Jobs`: `extract_job_info_by_key`, `group_job_info_by_task` and
  `get_project_state`.
- `Downstream`: `get_downstream_result_by_project`. It maps each
  `http_config` to its project, buckets the runner records by project, and
  groups each bucket by task.
- `Narrative`: the lines a project's analysis writes, as a datatype. `Render`
  spells each one out, and the `Render*` lemmas state that each line shows
  the values it is built from.
- `Remote`: the boundary to Buildkite.
  - A `Client` is a value of total functions. Each function says what one
    remote call answers: `trigger_job_retry`, `wait_job_to_finish`,
    `trigger_new_build`, `wait_build_to_finish` and `get_build_log`.
  - Every remote call and every narrative line is recorded as an `Event`, so
    each analysis is a pure function from its inputs to a trace of events
    plus an outcome.
  - An exception that ends a project's analysis is a `Fatal` outcome: a
    `KeyError` on a missing field of a bisect job, or a `BuildkiteException`
    carrying its logged line.
- `Bisect`: `__determine_bisect_result`, and the loop that matches the jobs
  of a bisect build to the failing tasks.
- `Sheriff`:
  - `__retry_failed_jobs`;
  - the main-pipeline and downstream analyses;
  - `analyze`;
  - `__get_main_build_result` and `run`.
- `Properties`: what an analysis does as a whole.
  - The decision table of `analyze`: which branch rebuilds, retries or
    bisects.
  - No call to the main pipeline follows a call to another pipeline.
  - A flaky main build is reported as flaky and blames nobody.
  - A task without a bisect job ends the analysis, and no verdict is
    printed.
  - With every bisect job present, every task's verdict is printed.

Behaviour the code has, and the model keeps:

- When an argument is passed more than once, the extractor keeps the value
  of the last `--key=` token. The loop overwrites and never breaks.
- The command is split on single spaces. Adjacent spaces give empty tokens.
  A natural reading would take the first match and split on any run of
  whitespace; the model follows the code instead.
- `task` is always among the extracted arguments.
- A job field overrides a command-line argument of the same name.
- The bisect matching is a substring test on the whole command line, and
  the last matching job wins. So a job for task `linux_arm` also matches
  task `linux` (`Bisect.ExtendedTaskMatches`).
- The culprit report starts at the last occurrence of its marker (`rfind`).
- A bisect build is always requested for the tasks that still fail after
  the downstream retry, even when there are none.
- Both pipelines' analyses send all their retries before waiting for any of
  them.

## Model

| member | source | states |
|---|---|---|
| Strings.RFind | buildkite/bazel_auto_sheriff.py:156 | `rfind` answers -1 exactly when the marker does not occur; otherwise it answers an occurrence with none after it |
| Strings.Without | buildkite/bazel_auto_sheriff.py:160 | `replace("\r", "")` leaves no carriage return, and changes nothing when there is none |
| Strings.WithoutCounts | buildkite/bazel_auto_sheriff.py:160 | removing a character drops every occurrence of it and keeps every other character as often as it occurred |
| Strings.WithoutAppend | buildkite/bazel_auto_sheriff.py:160 | removing carriage returns works piecewise over a concatenation, so the characters kept stay in their order |
| Strings.WithoutKeepsOccurrence | buildkite/bazel_auto_sheriff.py:160 | cutting at a marker occurrence and removing carriage returns still starts with the marker, when the marker has no carriage return |
| Strings.Split | buildkite/bazel_auto_sheriff.py:355 | `split(" ")` yields at least one token, and no token contains the separator |
| Strings.JoinSplit | buildkite/bazel_auto_sheriff.py:355 | joining the tokens of a split with the separator restores the command |
| Strings.SplitJoin | buildkite/bazel_auto_sheriff.py:149 | splitting a comma-join of comma-free names gives the names back |
| Strings.JoinEndsWithLast | buildkite/bazel_auto_sheriff.py:158-162 | a newline-joined report ends with its last line |
| Strings.JoinStartsWithFirst | buildkite/bazel_auto_sheriff.py:158-162 | a newline-joined report of two or more lines starts with its first line and a newline |
| Narrative.RenderJobLine | buildkite/bazel_auto_sheriff.py:195 | a job-list line is indented by two spaces, carries the job's name and ends with its link |
| Narrative.RenderCommit | buildkite/bazel_auto_sheriff.py:223 | the last-green-commit line names the commit, and so does the rebuild line of line 298 |
| Narrative.RenderErrors | buildkite/bazel_auto_sheriff.py:264 | the missing-bisect-job error names the task and ends with the bisect build's link; the no-recent-build error (line 93) names the pipeline; the unknown-rebuild error (line 309) ends with the build's link; a bisect heading (line 270) ends with the task's name |
| Dicts.Put | buildkite/bazel_auto_sheriff.py:390 | `d[k] = v` keeps the dict valid, maps `k` to `v`, and appends `k` to the key order only if it was new |
| Jobs.LastTokenBelow | buildkite/bazel_auto_sheriff.py:357-360 | finds the last token below a bound with the prefix, or reports that none has it |
| Jobs.LastArg | buildkite/bazel_auto_sheriff.py:356-362 | an argument is found iff some token starts with `--key=`; its value is the rest of the last such token |
| Jobs.ArgsRecord | buildkite/bazel_auto_sheriff.py:356-362 | the command-line part of a record exists iff every requested key is passed; it then has exactly those keys, each holding its last value |
| Jobs.WithTask | buildkite/bazel_auto_sheriff.py:349-350 | the requested arguments plus `task`, and nothing else |
| Jobs.ExtractJobInfo | buildkite/bazel_auto_sheriff.py:344-369 | a record is returned iff the job is a runner job (it has a non-empty command containing `bazelci.py runner`), every requested argument including `task` is passed, and every requested job field is present |
| Jobs.ExtractedRecord | buildkite/bazel_auto_sheriff.py:352-369 | an extracted record has exactly the requested argument keys, `task` and job fields; the job fields are copied verbatim; every other key holds its last `--key=` value |
| Jobs.CollectMembers | buildkite/bazel_auto_sheriff.py:101 | `filter(lambda x: x != None, ...)`: every kept record comes from some job, every job's record is kept, and nothing is dropped iff every job yields one |
| Jobs.CollectAppend | buildkite/bazel_auto_sheriff.py:101 | filtering goes job by job: the records of two runs of jobs are the first run's records followed by the second's, so order and duplicates are kept |
| Jobs.CollectAt | buildkite/bazel_auto_sheriff.py:101 | the record of job `j` sits right after the records of the jobs before `j` |
| Jobs.RunnerRecords | buildkite/bazel_auto_sheriff.py:101 | every record of a build comes from one of its runner jobs, and every runner job's record is kept |
| Jobs.RunnerRecordsAt | buildkite/bazel_auto_sheriff.py:101 | the records keep job order: runner job `j`'s record follows the records of the jobs before it |
| Jobs.ExtractedKeys | buildkite/bazel_auto_sheriff.py:364-367 | a record extracted with the default job fields has `task`, `name`, `state`, `web_url`, `id` and every requested argument |
| Jobs.CollectKeyed | buildkite/bazel_auto_sheriff.py:101 | filtering keeps a property that every extracted record has |
| Jobs.RunnerRecordsKeys | buildkite/bazel_auto_sheriff.py:101 | every record of a build has `task`, the job fields the analysis reads, and the requested arguments |
| Jobs.Group | buildkite/bazel_auto_sheriff.py:384-390 | grouping records that all have a task yields a valid dict |
| Jobs.GroupSnoc | buildkite/bazel_auto_sheriff.py:384-390 | one more record updates the grouping of the earlier ones by assigning its task |
| Jobs.GroupNames | buildkite/bazel_auto_sheriff.py:384-390 | the grouped tasks are exactly the tasks the records name |
| Jobs.NamesTaskSnoc | buildkite/bazel_auto_sheriff.py:388 | the tasks named by the records plus one more are the earlier tasks plus the new record's task |
| Jobs.GroupEntries | buildkite/bazel_auto_sheriff.py:388-390 | every grouped entry is some input record with `task` removed |
| Jobs.FirstUntasked | buildkite/bazel_auto_sheriff.py:384-386 | the first record that has no `task` |
| Jobs.GroupByTask | buildkite/bazel_auto_sheriff.py:382-392 | fails iff some record lacks `task`, and then with the first such record; otherwise the keys are exactly the `task` values, and no entry keeps `task` |
| Jobs.GroupByTaskLastWins | buildkite/bazel_auto_sheriff.py:388-390 | the entry of a task is its last record, without `task`: a later record replaces an earlier one |
| Jobs.GroupLastWins | buildkite/bazel_auto_sheriff.py:388-390 | the same for the grouping loop itself |
| Jobs.GroupByTaskKeepsFields | buildkite/bazel_auto_sheriff.py:389-390 | deleting `task` keeps every other field, so the grouped entries still carry the job fields |
| Jobs.StateOver | buildkite/bazel_auto_sheriff.py:397-400 | passed iff every listed task's state is `passed` |
| Jobs.ProjectState | buildkite/bazel_auto_sheriff.py:395-400 | `passed` iff every task passed, `failed` iff some task did not, so an empty map is `passed` and there is no third value |
| Downstream.ConfigToProject | buildkite/bazel_auto_sheriff.py:423-425 | the configurations mapped are exactly those declared; a configuration maps to the last project that declares it |
| Downstream.ConfigMapKeys | buildkite/bazel_auto_sheriff.py:423-425 | the assignment loop maps exactly the declared configurations |
| Downstream.ConfigMapLastWins | buildkite/bazel_auto_sheriff.py:423-425 | a later declaration of a configuration replaces an earlier one |
| Downstream.RunnerRecordsFields | buildkite/bazel_auto_sheriff.py:430-432 | every downstream record has `http_config`, `git_commit`, `task` and the job fields |
| Downstream.RecordsOfMembers | buildkite/bazel_auto_sheriff.py:430-440 | the reference for a project's bucket: every record the project owns is kept and nothing else; non-empty iff some record is owned |
| Downstream.RecordsOfAppend | buildkite/bazel_auto_sheriff.py:434-440 | the reference goes record by record: the records of two runs are the first run's followed by the second's, so order and duplicates are kept |
| Downstream.RecordsOfOne | buildkite/bazel_auto_sheriff.py:434-440 | a single record is kept iff the project owns its configuration |
| Downstream.Bucket | buildkite/bazel_auto_sheriff.py:430-440 | fails iff some record names an undeclared configuration (the `KeyError` at 433), and then with a configuration of some record that is not declared |
| Downstream.BucketCollects | buildkite/bazel_auto_sheriff.py:434-440 | each project's bucket is exactly its records in order; a project gets a bucket iff it owns a record |
| Downstream.BucketOwners | buildkite/bazel_auto_sheriff.py:430-440 | a project gets a bucket iff it owns a record, and every bucketed record is one of the build's records |
| Downstream.ProjectResultOf | buildkite/bazel_auto_sheriff.py:434-445 | a project's result has the build's commit and number, the `git_commit` of its first record, its records grouped by task, and the state those tasks add up to |
| Downstream.ResultsOf | buildkite/bazel_auto_sheriff.py:442-445 | one result per bucket, in bucket order, each built from its bucket |
| Downstream.ResultsByProject | buildkite/bazel_auto_sheriff.py:430-445 | fails iff some record names an undeclared configuration; otherwise the projects are exactly those owning a record, each with the result of exactly its records |
| Downstream.DownstreamResultByProject | buildkite/bazel_auto_sheriff.py:422-447 | fails iff some runner job names a configuration no project declares, and then with an undeclared configuration; otherwise a project has a result iff it owns a runner job, and its result has the build's commit and number, its first record's `git_commit`, exactly its records grouped by task, and the state they add up to |
| Bisect.CulpritText | buildkite/bazel_auto_sheriff.py:160 | the culprit text starts with the marker; it has the characters of the log from the marker on, each as often and in the same order (it is `Strings.Without` of that rest), except that every carriage return is gone; without a carriage return it is that rest of the log unchanged |
| Bisect.Classify | buildkite/bazel_auto_sheriff.py:156-178 | the first marker present, in priority order, decides; a culprit is read from the last occurrence of its marker |
| Bisect.ReportLines | buildkite/bazel_auto_sheriff.py:158-177 | every multi-line report ends with the bisect URL line |
| Bisect.Report | buildkite/bazel_auto_sheriff.py:157-178 | every report, the unknown one included, ends with the job's URL |
| Bisect.DetermineBisectResult | buildkite/bazel_auto_sheriff.py:154-178 | every report contains the job's URL; a culprit is reported as `Culprit found!`, then the culprit text, each on its own line; a failing good commit and an unreproduced failure each start with their own first sentence; anything else is the unknown-reason sentence followed by the URL |
| Bisect.LastMatch | buildkite/bazel_auto_sheriff.py:260-262 | the reference: the last job whose command contains `--task_name=<task>`, or none |
| Bisect.ScanJobs | buildkite/bazel_auto_sheriff.py:260-262 | with readable jobs, the scan succeeds and keeps the report of the last matching job; it fetches logs only for matching jobs; a missing field raises `KeyError` |
| Bisect.MatchTasks | buildkite/bazel_auto_sheriff.py:258-266 | on success, the reports cover exactly the tasks; a raised error is logged as the last event |
| Bisect.FoundAfter | buildkite/bazel_auto_sheriff.py:259-263 | after one task, the reports hold that task iff it has a bisect job, and stay consistent with the reference |
| Bisect.MatchTasksUnfold | buildkite/bazel_auto_sheriff.py:259-266 | one round of the matching either raises at the first task or hands over to the rest |
| Bisect.MatchTasksSucceeds | buildkite/bazel_auto_sheriff.py:258-266 | the matching succeeds iff every task already has a report or a bisect job |
| Bisect.MatchTasksConsistent | buildkite/bazel_auto_sheriff.py:258-266 | every report kept is the report of the last job matching its task |
| Bisect.MatchTasksOrder | buildkite/bazel_auto_sheriff.py:259-263 | the reports are keyed in the order the tasks are met, after those found before |
| Bisect.MatchBisectJobs | buildkite/bazel_auto_sheriff.py:258-266 | on success, there is a report for exactly the failing tasks, keyed in task order when the tasks are distinct; the only events are log fetches and the logged error |
| Bisect.MatchBisectJobsReports | buildkite/bazel_auto_sheriff.py:258-266 | with readable jobs, succeeds iff every task has a bisect job, and then reports each task's last matching job |
| Bisect.MatchTasksFailure | buildkite/bazel_auto_sheriff.py:263-266 | a failure stops at the first task without a bisect job, raising the missing-job error after logging it last |
| Bisect.ExtendedTaskMatches | buildkite/bazel_auto_sheriff.py:261 | a bisect job for a task whose name extends another task's name also matches that task |
| Sheriff.KeysWhereMembers | buildkite/bazel_auto_sheriff.py:205 | the keys selected are exactly those whose state is (or is not) `passed`, without duplicates |
| Sheriff.KeysWhereAppend | buildkite/bazel_auto_sheriff.py:205 | selection goes key by key: the keys selected from two runs are the first run's followed by the second's, so the selection keeps the dict's order |
| Sheriff.FailingTasks | buildkite/bazel_auto_sheriff.py:205 | the tasks listed are exactly those that did not pass |
| Sheriff.PassingTasks | buildkite/bazel_auto_sheriff.py:213 | the tasks listed are exactly those that passed |
| Sheriff.Lookup | buildkite/bazel_auto_sheriff.py:205 | the records of the named tasks, in the given order |
| Sheriff.PrintJobList | buildkite/bazel_auto_sheriff.py:191-196 | one info line per job with its name and URL, in order, then a blank line |
| Sheriff.RetryCalls | buildkite/bazel_auto_sheriff.py:183-187 | all retries are triggered, in task order, before the first wait; each wait is for the job its retry answered |
| Sheriff.RetriedJobs | buildkite/bazel_auto_sheriff.py:186-188 | the retried tasks, in order, each mapped to its finished retried job |
| Sheriff.RetryFailedJobs | buildkite/bazel_auto_sheriff.py:181-188 | retries exactly the tasks that did not pass, triggers all before waiting, and answers a dict whose keys are exactly those tasks |
| Sheriff.Lines | buildkite/bazel_auto_sheriff.py:222-223 | one narrative line per text: the i-th line carries the i-th text, in the given tone |
| Sheriff.RetryFailedJobsCalls | buildkite/bazel_auto_sheriff.py:183-185 | every task that did not pass has its job retried, and some retry happens iff some task did not pass |
| Sheriff.RetryCallsCover | buildkite/bazel_auto_sheriff.py:183-185 | calls that begin with a retry of each task that did not pass retry every such task, and retry something iff some task did not pass |
| Sheriff.RetriedStates | buildkite/bazel_auto_sheriff.py:186-188 | a retried job fails iff its task still fails; some retried job fails (or passes) iff some task still fails (or recovered) |
| Sheriff.FlakyReport | buildkite/bazel_auto_sheriff.py:212-216 | the flaky heading appears iff some retried job passed, and every retried job that passed is listed with its name and URL |
| Sheriff.BlameReport | buildkite/bazel_auto_sheriff.py:218-224 | a line in the failure tone appears iff some retried job still fails |
| Sheriff.Opening | buildkite/bazel_auto_sheriff.py:200-208 | the opening lines blame nobody, and their only warning is the failing-tasks heading |
| Sheriff.RetryAndReport | buildkite/bazel_auto_sheriff.py:199-224 | every failing task is retried; the report blames iff some task still fails after its retry; the flaky heading appears iff some task recovered (when the analysis's own headings differ from it); every recovered task's retried job is listed by name and link |
| Sheriff.AnalyzeMainPipeline | buildkite/bazel_auto_sheriff.py:199-224 | calls only the main pipeline; retries iff some task failed; blames iff some task still fails; the flaky heading appears iff some task recovered, and every recovered task's retried job is listed |
| Sheriff.BisectRequest | buildkite/bazel_auto_sheriff.py:146-151 | a new culprit-finder build at `HEAD`, with the message `Bisecting <project>`, whose environment has exactly `PROJECT_NAME`, the project, and `TASK_NAME_LIST`, which is empty without tasks and otherwise splits back at commas into the tasks when no task name holds a comma |
| Sheriff.StillFailing | buildkite/bazel_auto_sheriff.py:254 | the names are exactly the tasks that failed and whose retry failed too, without duplicates |
| Sheriff.PairedLines | buildkite/bazel_auto_sheriff.py:268-271 | the paired report holds only warning and info lines, and both lines of every task |
| Sheriff.BisectReports | buildkite/bazel_auto_sheriff.py:268-271 | a heading and a verdict line per task, in the order the reports were found |
| Sheriff.ReportVerdicts | buildkite/bazel_auto_sheriff.py:268-271 | every task with a verdict has its heading and its verdict reported |
| Sheriff.MatchAndReport | buildkite/bazel_auto_sheriff.py:258-271 | succeeds iff the matching does, with the same error otherwise; on success every task's verdict is reported; on failure no warning line is written |
| Sheriff.Bisection | buildkite/bazel_auto_sheriff.py:252-271 | requests a bisect build for exactly the given tasks, stays off the main pipeline, and ends like the matching of that build's jobs |
| Sheriff.AnalyzeDownstreamPipeline | buildkite/bazel_auto_sheriff.py:227-271 | never calls the main pipeline; retries iff some task failed; blames iff some task still fails; always requests a bisect; ends with the bisection's outcome; every recovered task's retried job is listed |
| Sheriff.Analyze | buildkite/bazel_auto_sheriff.py:274-310 | the success line alone iff both builds passed; can only fail when the downstream build failed |
| Sheriff.MainBuildResult | buildkite/bazel_auto_sheriff.py:84-108 | fails iff there is no recent build, after logging why; otherwise takes the newest build, whose tasks are what grouping its runner records by task gives (each task holding its last record, by `Jobs.GroupByTaskLastWins`), with a state coherent with its tasks |
| Sheriff.RunProject | buildkite/bazel_auto_sheriff.py:317-320 | without a recent build, the one logged error and nothing else; otherwise the run can only fail when the downstream build failed |
| Properties.MainAnalysisActions | buildkite/bazel_auto_sheriff.py:199-224 | the main analysis retries main jobs iff some task failed, and never rebuilds, bisects or touches downstream |
| Properties.DownstreamAnalysisActions | buildkite/bazel_auto_sheriff.py:227-271 | the downstream analysis always bisects, retries downstream jobs iff some task failed, and never touches the main pipeline |
| Properties.BothFailedActions | buildkite/bazel_auto_sheriff.py:293-310 | both failed: always a rebuild, at the last green commit with the default message and environment, and no other main-pipeline build; retries and the bisect happen only when the rebuild passed |
| Properties.BothFailedRebuild | buildkite/bazel_auto_sheriff.py:293-299 | both failed: the rebuild at the last green commit is requested, and it is the only build requested on the project's pipeline |
| Properties.AnalyzeActions | buildkite/bazel_auto_sheriff.py:274-310 | the decision table: rebuild iff both failed; main retries iff main failed and (downstream passed or the rebuild passed); a bisect iff downstream failed and (main passed or the rebuild passed); every main-pipeline build requested is the rebuild at the last green commit |
| Properties.MainFailedActions | buildkite/bazel_auto_sheriff.py:280-284 | main failed, downstream passed: only the main analysis's retries |
| Properties.DownstreamFailedActions | buildkite/bazel_auto_sheriff.py:286-290 | main passed, downstream failed: only the downstream retries and the bisect |
| Properties.AnalyzeMainFirst | buildkite/bazel_auto_sheriff.py:274-310 | no call to the main pipeline comes after a call to another pipeline |
| Properties.BothFailedMainFirst | buildkite/bazel_auto_sheriff.py:293-310 | the rebuild and the main analysis precede the downstream analysis |
| Properties.FlakyMainBuild | buildkite/bazel_auto_sheriff.py:280-284 | when every failing main task passes on retry, the analysis ends normally, shows the flaky heading, lists every recovered task's retried job, and blames nobody |
| Properties.MissingBisectJobEnds | buildkite/bazel_auto_sheriff.py:259-266 | a still-failing task with no bisect job ends the downstream analysis by raising the missing-job error of the first task without a job, logged last; the only warning line is the failing-tasks heading, so no verdict heading is written |
| Properties.DownstreamOnlyMissingJob | buildkite/bazel_auto_sheriff.py:286-290 | seen from `analyze` when only the downstream build failed: the analysis raises, with the error logged last, and writes no verdict heading |
| Properties.BisectionVerdicts | buildkite/bazel_auto_sheriff.py:252-271 | when every task has a bisect job, the bisection ends normally and reports every task's verdict |
| Properties.BisectVerdicts | buildkite/bazel_auto_sheriff.py:227-271 | when every still-failing task has a bisect job, the downstream analysis ends normally and reports, for each, the verdict of its last bisect job |
| Properties.NoRecentBuildStops | buildkite/bazel_auto_sheriff.py:92-95 | without a recent main build the run fails with the no-recent-build error and takes no remote action |

## Left out

- Output formatting:
  - annotations via `buildkite-agent` (`print_info`);
  - the ANSI colour codes;
  - the HTML wrapping in `__log` and `__log_success`.

  Each narrative line is an event with its tone. `Narrative.Render` gives its text.
- Concurrency. This covers the thread per project, the class-level success
  log, and its lock. A success line is a `LogSuccess` event in the project's
  own trace.
- The logger callback `log` (lines 140-143), which the client calls while it
  waits, and which replaces the previous "Waiting for" line. The client's
  progress messages are not part of the trace.
- The Buildkite client's internals, and `bazelci.py`, which is not part of
  this model.
  - Each remote call is an uninterpreted function of `Client`.
  - `trigger_job_retry` is reduced to the id of the new job.
  - `trigger_new_build` is reduced to the new build's number.
  - The rebuild at the last green commit passes no message and an empty
    environment (`None` and `map[]`), which stand for the client's
    defaults.
- The 24-hour window and the query behind `get_build_info_list` and
  `get_last_green_commit`.
  - `MainBuildResult` takes the listed builds (newest first) and the last
    green commit as inputs.
  - `get_latest_downstream_build_info` (lines 324-335) is not modelled;
    the downstream build is an input.
- `main` (lines 450-463) and the contents of `DOWNSTREAM_PROJECTS` and
  `DOWNSTREAM_PROJECTS_PRODUCTION`.
  - The production configuration is the `ProjectConfig` list that
    `DownstreamResultByProject` takes.
  - The project's entry of the downstream result is the `ProjectResult`
    that `Analyze` takes.
- `report` (lines 313-314) does nothing and is not modelled.
- Remote.Answers: every finished job the client answers is taken to carry
  `name`, `state`, `web_url` and `id`. So the `KeyError` a malformed answer
  would raise at lines 193-194, 213, 219 and 254 is not modelled; only
  bisect jobs (`command`, `web_url`) have a missing-field outcome.
- The exceptions a remote call itself can raise (`trigger_job_retry`,
  `wait_job_to_finish`, `trigger_new_build`, `wait_build_to_finish`,
  `get_build_log`) are not modelled: each call is a total function of
  `Client` and always answers. The `KeyError` on the answers' `id`,
  `number`, `jobs` and `web_url` fields (lines 187, 256, 260 and 264) is left
  out for the same reason.
- JSON values are strings. A `null` command, or a non-string build number
  or state, is not modelled.
  - Job and record fields are `map<string, string>`.
  - The build number is a `nat`.
- The mutable default argument of `extract_job_info_by_key` is not modelled.
  Appending `task` to it (line 350) changes no result.
- Records are values. The `del job_info["task"]` at line 389, which mutates
  the caller's records, is modelled as map subtraction.
- Jobs.ExtractJobInfo: its contract states only when a record is returned;
  what the record holds is stated by the lemma `Jobs.ExtractedRecord`.
- Sheriff.AnalyzeBothFailed (lines 291-310) has no contract of its own. Its
  behaviour is stated by `Properties.BothFailedActions`,
  `Properties.BothFailedMainFirst` and `Properties.AnalyzeActions`.
- Sheriff.Analyze: the analysis states are `State` values, `Passed` or
  `Failed`. So the source's silent fall-through for any other state pair
  cannot arise.
