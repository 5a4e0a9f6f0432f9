/** Reading the culprit finder's verdicts: classifying one bisect log, and
    matching the jobs of a bisect build to the tasks it was asked about
    (buildkite/bazel_auto_sheriff.py, lines 154-178 and 258-266). */
module Bisect {
  import opened Wrappers
  import opened Strings
  import opened Dicts
  import opened Jobs
  import opened Remote
  import opened Narrative

  /** The markers the culprit finder writes, in the order they are looked for. */
  const CulpritMarker := "first bad commit is"
  const GoodCommitMarker := "Given good commit"
  const NoCulpritMarker := "first bad commit not found, every commit succeeded."

  /** What a bisect log says. */
  datatype Verdict =
    | CulpritFound(culprit: string)   // the log from the last culprit marker on
    | GoodCommitFailing               // the known-good commit fails too
    | NotReproduced                   // every commit in the range succeeded
    | Unknown

  /** The report of a culprit: the log from the culprit marker at `pos` on,
      without carriage returns. */
  function CulpritText(log: string, pos: int): (t: string)
    requires OccursAt(log, CulpritMarker, pos)
    ensures StartsWith(t, CulpritMarker) && '\r' !in t
    ensures t == Without(log[pos..], '\r')
    ensures multiset(t) == multiset(log[pos..])['\r' := 0]
    ensures '\r' !in log[pos..] ==> t == log[pos..]
  {
    assert '\r' !in CulpritMarker;
    WithoutKeepsOccurrence(log, CulpritMarker, pos, '\r');
    WithoutCounts(log[pos..], '\r');
    Without(log[pos..], '\r')
  }

  /** The first matching marker decides; a culprit is reported from the last
      occurrence of its marker onward. */
  function Classify(log: string): (v: Verdict)
    ensures v.CulpritFound? <==> Contains(log, CulpritMarker)
    ensures v.GoodCommitFailing? <==> !Contains(log, CulpritMarker) && Contains(log, GoodCommitMarker)
    ensures v.NotReproduced? <==>
              !Contains(log, CulpritMarker) && !Contains(log, GoodCommitMarker) && Contains(log, NoCulpritMarker)
    ensures v.Unknown? <==>
              !Contains(log, CulpritMarker) && !Contains(log, GoodCommitMarker) && !Contains(log, NoCulpritMarker)
    ensures v.CulpritFound? ==> exists i ::
              && OccursAt(log, CulpritMarker, i)
              && (forall j :: i < j ==> !OccursAt(log, CulpritMarker, j))
              && v.culprit == CulpritText(log, i)
  {
    var pos := RFind(log, CulpritMarker);
    if pos != -1 then CulpritFound(CulpritText(log, pos))
    else if RFind(log, GoodCommitMarker) != -1 then GoodCommitFailing
    else if RFind(log, NoCulpritMarker) != -1 then NotReproduced
    else Unknown
  }

  /** The fixed lines of the reports. */
  const CulpritHeading := "Culprit found!"
  const GoodCommitLines: seq<string> := [
    "Given good commit is now failing. This is probably caused by remote cache issue or infra change.",
    "Please ping philwo@ or pcloudy@ for investigation."]
  const NotReproducedLines: seq<string> := [
    "Bisect didn't manage to reproduce the failure, all builds succeeded.",
    "Maybe the failed build are cached from previous build with a different Bazel version or it could be flaky.",
    "Please try to rerun the bisect with NEEDS_CLEAN=1 and REPEAT_TIMES=3."]
  const UnknownPrefix := "Bisect failed due to unknown reason, please check "
  const UrlPrefix := "Bisect URL: "

  /** The lines of a verdict's report, all but the unknown verdict's, which
      is a single sentence. */
  function ReportLines(v: Verdict, url: string): (lines: seq<string>)
    requires !v.Unknown?
    ensures |lines| > 0 && lines[|lines| - 1] == UrlPrefix + url
  {
    match v
    case CulpritFound(culprit) => [CulpritHeading, culprit, UrlPrefix + url]
    case GoodCommitFailing => GoodCommitLines + [UrlPrefix + url]
    case NotReproduced => NotReproducedLines + [UrlPrefix + url]
  }

  /** The text reported for a verdict; every one ends with the bisect job's
      URL. */
  function Report(v: Verdict, url: string): (r: string)
    ensures EndsWith(r, url)
    ensures Contains(r, url)
  {
    if v.Unknown? then
      var r := UnknownPrefix + url;
      assert r[|r| - |url|..] == url;
      ContainsSuffix(r, url);
      r
    else
      var lines := ReportLines(v, url);
      var r := Join(lines, '\n');
      JoinEndsWithLast(lines, '\n');
      var last := lines[|lines| - 1];
      assert r[|r| - |url|..] == r[|r| - |last|..][|last| - |url|..];
      ContainsSuffix(r, url);
      r
  }

  /** The report `r` opens with what sets verdict `v` apart: the culprit
      heading and the culprit text on lines of their own, the first sentence
      of a fixed message, or the whole unknown-reason sentence. */
  predicate Describes(r: string, v: Verdict, url: string) {
    match v
    case CulpritFound(culprit) => StartsWith(r, CulpritHeading + ['\n'] + culprit + ['\n'])
    case GoodCommitFailing => StartsWith(r, GoodCommitLines[0] + ['\n'])
    case NotReproduced => StartsWith(r, NotReproducedLines[0] + ['\n'])
    case Unknown => r == UnknownPrefix + url
  }

  /** `__determine_bisect_result`: the report for a bisect job, given the log
      the client fetched for it. */
  function DetermineBisectResult(log: string, url: string): (r: string)
    ensures Contains(r, url)
    ensures Describes(r, Classify(log), url)
  {
    var v := Classify(log);
    var r := Report(v, url);
    if v.Unknown? then r
    else
      JoinStartsWithFirst(ReportLines(v, url), '\n');
      if v.CulpritFound? then
        JoinStartsWithSecond(ReportLines(v, url), '\n');
        r
      else r
  }

  /** The argument a bisect job for `task` carries. */
  function TaskNeedle(task: string): string {
    "--task_name=" + task
  }

  /** The job's command mentions `task`: a substring test, so a task whose
      name extends another's is matched by both. */
  predicate MatchesTask(job: Job, task: string) {
    "command" in job && Contains(job["command"], TaskNeedle(task))
  }

  /** Every job has the fields the matching loop reads. */
  predicate BisectJobsReadable(jobs: seq<Job>) {
    forall i :: 0 <= i < |jobs| ==> "command" in jobs[i] && "web_url" in jobs[i]
  }

  /** The reference: the index of the last job that matches the task. */
  function LastMatch(jobs: seq<Job>, task: string): (r: Option<nat>)
    ensures r.None? <==> forall i :: 0 <= i < |jobs| ==> !MatchesTask(jobs[i], task)
    ensures r.Some? ==> r.value < |jobs| && MatchesTask(jobs[r.value], task)
    ensures r.Some? ==> forall j :: r.value < j < |jobs| ==> !MatchesTask(jobs[j], task)
  {
    if |jobs| == 0 then None
    else
      var rest := jobs[1..];
      assert forall i :: 0 <= i < |rest| ==> rest[i] == jobs[i + 1];
      match LastMatch(rest, task)
      case Some(i) => Some(i + 1)
      case None => if MatchesTask(jobs[0], task) then Some(0) else None
  }

  /** The inner loop of lines 260-262 for one task: every matching job's log
      is fetched and classified, the last one's report is kept. Reading a job
      without a command, or a matching job without a URL, raises. */
  function ScanJobs(task: string, jobs: seq<Job>, c: Client): (r: Step<Option<string>>)
    ensures BisectJobsReadable(jobs) ==> r.outcome.Success?
    ensures BisectJobsReadable(jobs) ==> (r.outcome.value.None? <==> LastMatch(jobs, task).None?)
    ensures BisectJobsReadable(jobs) && r.outcome.value.Some? ==>
              var job := jobs[LastMatch(jobs, task).value];
              r.outcome.value.value == DetermineBisectResult(c.buildLog(job), job["web_url"])
    ensures forall e :: e in r.events ==> e.FetchLog? && e.pipeline == CulpritFinder && MatchesTask(e.job, task)
    ensures r.outcome.Failure? ==> r.outcome.error.MissingField?
  {
    if |jobs| == 0 then Step([], Success(None))
    else
      var job := jobs[0];
      var rest := jobs[1..];
      assert forall i :: 0 <= i < |rest| ==> rest[i] == jobs[i + 1];
      if "command" !in job then Step([], Failure(MissingField("command")))
      else if !Contains(job["command"], TaskNeedle(task)) then
        ScanJobs(task, rest, c)
      else if "web_url" !in job then
        Step([FetchLog(CulpritFinder, job)], Failure(MissingField("web_url")))
      else
        var result := DetermineBisectResult(c.buildLog(job), job["web_url"]);
        var tail := ScanJobs(task, rest, c);
        var outcome := if tail.outcome == Success(None) then Success(Some(result)) else tail.outcome;
        Step([FetchLog(CulpritFinder, job)] + tail.events, outcome)
  }

  /** The reference for one task: the report of the last job that matches
      it, if any. */
  function ReportOf(jobs: seq<Job>, task: string, c: Client): Option<string>
    requires BisectJobsReadable(jobs)
  {
    match LastMatch(jobs, task)
    case None => None
    case Some(i) => Some(DetermineBisectResult(c.buildLog(jobs[i]), jobs[i]["web_url"]))
  }

  /** Every report in `d` is the reference report of its task. */
  predicate Consistent(d: Dict<string>, jobs: seq<Job>, c: Client)
    requires BisectJobsReadable(jobs)
  {
    forall t :: t in d.entries ==> ReportOf(jobs, t, c) == Some(d.entries[t])
  }

  /** The outer loop of lines 259-266 from `tasks` on, with the reports
      found so far in `found`: stops with a raised error, after logging it,
      at the first task no bisect job matches. */
  function MatchTasks(tasks: seq<string>, jobs: seq<Job>, buildUrl: string, c: Client, found: Dict<string>)
    : (r: Step<Dict<string>>)
    requires Valid(found)
    ensures r.outcome.Success? ==> Valid(r.outcome.value)
    ensures r.outcome.Success? ==> forall t :: t in r.outcome.value.entries <==> t in found.entries || t in tasks
    ensures forall e :: e in r.events ==> (e.FetchLog? && e.pipeline == CulpritFinder) || (e.Log? && e.tone == Serious)
    ensures r.outcome.Failure? && r.outcome.error.Raised? ==> EndsRaising(r, r.outcome.error.message)
    decreases |tasks|
  {
    if |tasks| == 0 then Step([], Success(found))
    else
      var task := tasks[0];
      var scan := ScanJobs(task, jobs, c);
      if scan.outcome.Failure? then Step(scan.events, Failure(scan.outcome.error))
      else
        var found' := if scan.outcome.value.Some? then Put(found, task, scan.outcome.value.value) else found;
        if task !in found'.entries then
          var message := MissingBisectJob(task, buildUrl);
          Step(scan.events + [Log(Serious, message)], Failure(Raised(message)))
        else
          var rest := MatchTasks(tasks[1..], jobs, buildUrl, c, found');
          assert forall i :: 1 <= i < |tasks| ==> tasks[1..][i - 1] == tasks[i];
          Step(scan.events + rest.events, rest.outcome)
  }

  /** The reports found for the first task, added to those found so far. */
  function FoundAfter(task: string, jobs: seq<Job>, c: Client, found: Dict<string>): (d: Dict<string>)
    requires Valid(found)
    requires BisectJobsReadable(jobs)
    ensures Valid(d)
    ensures forall t :: t in d.entries <==> t in found.entries || (t == task && LastMatch(jobs, task).Some?)
    ensures Consistent(found, jobs, c) ==> Consistent(d, jobs, c)
  {
    var scan := ScanJobs(task, jobs, c);
    if scan.outcome.value.Some? then
      assert ReportOf(jobs, task, c) == scan.outcome.value;
      Put(found, task, scan.outcome.value.value)
    else found
  }

  /** One round of the matching with readable jobs: the first task either
      stops it or hands over to the rest. */
  lemma MatchTasksUnfold(tasks: seq<string>, jobs: seq<Job>, buildUrl: string, c: Client, found: Dict<string>)
    requires Valid(found)
    requires BisectJobsReadable(jobs)
    requires |tasks| > 0
    ensures var found' := FoundAfter(tasks[0], jobs, c, found);
            var r := MatchTasks(tasks, jobs, buildUrl, c, found);
            var scan := ScanJobs(tasks[0], jobs, c);
            && (tasks[0] !in found'.entries ==>
                  r == Step(scan.events + [Log(Serious, MissingBisectJob(tasks[0], buildUrl))],
                            Failure(Raised(MissingBisectJob(tasks[0], buildUrl)))))
            && (tasks[0] in found'.entries ==>
                  var rest := MatchTasks(tasks[1..], jobs, buildUrl, c, found');
                  r == Step(scan.events + rest.events, rest.outcome))
  {
  }

  /** Every task has a report already or a bisect job. */
  predicate Covered(tasks: seq<string>, jobs: seq<Job>, found: Dict<string>) {
    forall i :: 0 <= i < |tasks| ==> tasks[i] in found.entries || LastMatch(jobs, tasks[i]).Some?
  }

  lemma CoveredShift(tasks: seq<string>, jobs: seq<Job>, found: Dict<string>, found': Dict<string>)
    requires |tasks| > 0 && tasks[0] in found'.entries
    requires forall t :: t in found'.entries <==> t in found.entries || (t == tasks[0] && LastMatch(jobs, tasks[0]).Some?)
    ensures Covered(tasks, jobs, found) <==> Covered(tasks[1..], jobs, found')
  {
    assert forall j :: 1 <= j < |tasks| ==> tasks[1..][j - 1] == tasks[j];
  }

  /** With readable jobs the matching succeeds exactly when every task has
      a report already or a bisect job. */
  lemma {:induction false} MatchTasksSucceeds(tasks: seq<string>, jobs: seq<Job>, buildUrl: string, c: Client, found: Dict<string>)
    requires Valid(found)
    requires BisectJobsReadable(jobs)
    ensures MatchTasks(tasks, jobs, buildUrl, c, found).outcome.Success? <==> Covered(tasks, jobs, found)
    decreases |tasks|
  {
    if |tasks| > 0 {
      var found' := FoundAfter(tasks[0], jobs, c, found);
      MatchTasksUnfold(tasks, jobs, buildUrl, c, found);
      if tasks[0] in found'.entries {
        MatchTasksSucceeds(tasks[1..], jobs, buildUrl, c, found');
        CoveredShift(tasks, jobs, found, found');
      }
    }
  }

  /** With readable jobs every report kept is the reference report of its
      task. */
  lemma {:induction false} MatchTasksConsistent(tasks: seq<string>, jobs: seq<Job>, buildUrl: string, c: Client, found: Dict<string>)
    requires Valid(found)
    requires BisectJobsReadable(jobs) && Consistent(found, jobs, c)
    requires MatchTasks(tasks, jobs, buildUrl, c, found).outcome.Success?
    ensures Consistent(MatchTasks(tasks, jobs, buildUrl, c, found).outcome.value, jobs, c)
    decreases |tasks|
  {
    if |tasks| > 0 {
      var found' := FoundAfter(tasks[0], jobs, c, found);
      MatchTasksUnfold(tasks, jobs, buildUrl, c, found);
      MatchTasksConsistent(tasks[1..], jobs, buildUrl, c, found');
    }
  }

  /** The reports are kept in the order their tasks are met: the keys of
      the result are those found so far followed by the tasks. */
  lemma {:induction false} MatchTasksOrder(tasks: seq<string>, jobs: seq<Job>, buildUrl: string, c: Client, found: Dict<string>)
    requires Valid(found) && Distinct(tasks)
    requires forall i :: 0 <= i < |tasks| ==> tasks[i] !in found.entries
    ensures var r := MatchTasks(tasks, jobs, buildUrl, c, found);
            r.outcome.Success? ==> r.outcome.value.keys == found.keys + tasks
    decreases |tasks|
  {
    if |tasks| > 0 {
      var task := tasks[0];
      var scan := ScanJobs(task, jobs, c);
      if scan.outcome.Success? && scan.outcome.value.Some? {
        var found' := Put(found, task, scan.outcome.value.value);
        var rest := tasks[1..];
        assert forall i :: 0 <= i < |rest| ==> rest[i] == tasks[i + 1];
        assert forall i :: 0 <= i < |rest| ==> rest[i] !in found'.entries;
        MatchTasksOrder(rest, jobs, buildUrl, c, found');
        assert found'.keys == found.keys + [task];
        assert tasks == [task] + rest;
        ConsAssoc(found.keys, task, rest);
      }
    }
  }

  lemma ConsAssoc(a: seq<string>, t: string, r: seq<string>)
    ensures (a + [t]) + r == a + ([t] + r)
  {
  }

  /** Lines 258-266: the report of every failing task, in task order, or
      the error raised for the first task without a bisect job. */
  function MatchBisectJobs(tasks: seq<string>, jobs: seq<Job>, buildUrl: string, c: Client)
    : (r: Step<Dict<string>>)
    ensures r.outcome.Success? ==> Valid(r.outcome.value)
    ensures r.outcome.Success? ==> forall t :: t in r.outcome.value.entries <==> t in tasks
    ensures r.outcome.Success? && Distinct(tasks) ==> r.outcome.value.keys == tasks
    ensures forall e :: e in r.events ==> (e.FetchLog? && e.pipeline == CulpritFinder) || (e.Log? && e.tone == Serious)
    ensures r.outcome.Failure? && r.outcome.error.Raised? ==> EndsRaising(r, r.outcome.error.message)
  {
    if Distinct(tasks) then
      MatchTasksOrder(tasks, jobs, buildUrl, c, Empty());
      MatchTasks(tasks, jobs, buildUrl, c, Empty())
    else
      MatchTasks(tasks, jobs, buildUrl, c, Empty())
  }

  /** With readable jobs, the matching succeeds iff every task has a bisect
      job, and then reports for each task the verdict of its last job. */
  lemma MatchBisectJobsReports(tasks: seq<string>, jobs: seq<Job>, buildUrl: string, c: Client)
    requires BisectJobsReadable(jobs)
    ensures var r := MatchBisectJobs(tasks, jobs, buildUrl, c);
            && (r.outcome.Success? <==> forall i :: 0 <= i < |tasks| ==> LastMatch(jobs, tasks[i]).Some?)
            && (r.outcome.Success? ==>
                  forall t :: t in r.outcome.value.entries ==> ReportOf(jobs, t, c) == Some(r.outcome.value.entries[t]))
  {
    MatchTasksSucceeds(tasks, jobs, buildUrl, c, Empty());
    if MatchBisectJobs(tasks, jobs, buildUrl, c).outcome.Success? {
      MatchTasksConsistent(tasks, jobs, buildUrl, c, Empty());
    }
  }

  /** Task `i` is the first that has neither an earlier report nor a
      bisect job. */
  predicate StopsAt(tasks: seq<string>, jobs: seq<Job>, found: Dict<string>, i: int) {
    && 0 <= i < |tasks|
    && tasks[i] !in found.entries && LastMatch(jobs, tasks[i]).None?
    && forall j :: 0 <= j < i ==> tasks[j] in found.entries || LastMatch(jobs, tasks[j]).Some?
  }

  /** The computation raised `message` after logging it as its last event. */
  predicate EndsRaising<T>(r: Step<T>, message: Line) {
    r.outcome == Failure(Raised(message)) && |r.events| > 0 && r.events[|r.events| - 1] == Log(Serious, message)
  }

  /** With readable jobs the matching can only fail at the first task that
      has neither an earlier report nor a bisect job, raising the missing-job
      error after logging it as the last event. */
  lemma {:induction false} MatchTasksFailure(tasks: seq<string>, jobs: seq<Job>, buildUrl: string, c: Client, found: Dict<string>)
    requires Valid(found)
    requires BisectJobsReadable(jobs)
    requires MatchTasks(tasks, jobs, buildUrl, c, found).outcome.Failure?
    ensures exists i :: StopsAt(tasks, jobs, found, i)
                        && EndsRaising(MatchTasks(tasks, jobs, buildUrl, c, found), MissingBisectJob(tasks[i], buildUrl))
    decreases |tasks|
  {
    var task := tasks[0];
    var found' := FoundAfter(task, jobs, c, found);
    MatchTasksUnfold(tasks, jobs, buildUrl, c, found);
    if task !in found'.entries {
      assert StopsAt(tasks, jobs, found, 0);
    } else {
      var rest := tasks[1..];
      MatchTasksFailure(rest, jobs, buildUrl, c, found');
      var i' :| StopsAt(rest, jobs, found', i')
                && EndsRaising(MatchTasks(rest, jobs, buildUrl, c, found'), MissingBisectJob(rest[i'], buildUrl));
      StopsAtShift(tasks, jobs, found, found', i');
    }
  }

  lemma StopsAtShift(tasks: seq<string>, jobs: seq<Job>, found: Dict<string>, found': Dict<string>, i: int)
    requires |tasks| > 0 && tasks[0] in found'.entries
    requires forall t :: t in found'.entries <==> t in found.entries || (t == tasks[0] && LastMatch(jobs, tasks[0]).Some?)
    requires StopsAt(tasks[1..], jobs, found', i)
    ensures StopsAt(tasks, jobs, found, i + 1)
  {
    assert forall j :: 1 <= j < |tasks| ==> tasks[1..][j - 1] == tasks[j];
  }

  /** A bisect job for a task whose name extends `task` also matches
      `task`: the lookup is a substring test on the command line. */
  lemma ExtendedTaskMatches(job: Job, task: string, suffix: string)
    requires MatchesTask(job, task + suffix)
    ensures MatchesTask(job, task)
  {
    var cmd := job["command"];
    var i :| 0 <= i <= |cmd| - |TaskNeedle(task + suffix)| && OccursAt(cmd, TaskNeedle(task + suffix), i);
    var n := TaskNeedle(task);
    assert TaskNeedle(task + suffix) == n + suffix;
    assert cmd[i..i + |n|] == cmd[i..i + |n| + |suffix|][..|n|];
    assert OccursAt(cmd, n, i);
  }
}
