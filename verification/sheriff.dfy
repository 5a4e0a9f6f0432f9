/** The analysis of one project (buildkite/bazel_auto_sheriff.py, lines
    84-320): compare the project's latest main-pipeline build with its part
    of the downstream build, retry what failed, bisect what still fails
    downstream, and narrate the findings. */
module Sheriff {
  import opened Wrappers
  import opened Strings
  import opened Dicts
  import opened Jobs
  import opened Downstream
  import opened Remote
  import opened Bisect
  import opened Narrative

  /** The project's latest finished build on its own pipeline, with the last
      commit known to be green there. */
  datatype MainResult = MainResult(
    commit: string,
    buildNumber: nat,
    tasks: Dict<Record>,
    state: State,
    lastGreenCommit: string)

  /** The clients of the project's own pipeline, the downstream pipeline and
      the culprit finder. */
  datatype Clients = Clients(main: Client, downstream: Client, culpritFinder: Client)

  /** Task records as the analysis reads them. */
  predicate WellFormed(tasks: Dict<Record>) {
    Valid(tasks) && forall t :: t in tasks.entries ==> JobFields(tasks.entries[t])
  }

  predicate Passing(rec: Record) {
    "state" in rec && rec["state"] == "passed"
  }

  /** The state a build reports agrees with its tasks. */
  predicate Coherent(tasks: Dict<Record>, state: State) {
    WellFormed(tasks) && (state == Passed <==> forall t :: t in tasks.entries ==> Passing(tasks.entries[t]))
  }

  /** Some task did not pass. */
  predicate SomeFailing(tasks: Dict<Record>) {
    exists t :: t in tasks.entries && !Passing(tasks.entries[t])
  }

  /** Some task passed. */
  predicate SomePassing(tasks: Dict<Record>) {
    exists t :: t in tasks.entries && Passing(tasks.entries[t])
  }

  /** The keys, in order, whose records pass (`passing`) or do not. */
  function KeysWhere(keys: seq<string>, entries: map<string, Record>, passing: bool): seq<string>
    requires forall i :: 0 <= i < |keys| ==> keys[i] in entries
  {
    if |keys| == 0 then []
    else
      var rest := KeysWhere(keys[1..], entries, passing);
      if Passing(entries[keys[0]]) == passing then [keys[0]] + rest else rest
  }

  /** The keys selected are exactly those whose record passes (or does
      not), and distinct keys are selected at most once. */
  lemma {:induction false} KeysWhereMembers(keys: seq<string>, entries: map<string, Record>, passing: bool)
    requires forall i :: 0 <= i < |keys| ==> keys[i] in entries
    ensures forall t :: t in KeysWhere(keys, entries, passing) <==> t in keys && Passing(entries[t]) == passing
    ensures Distinct(keys) ==> Distinct(KeysWhere(keys, entries, passing))
  {
    if |keys| > 0 {
      KeysWhereMembers(keys[1..], entries, passing);
      assert forall t :: t in keys <==> t == keys[0] || t in keys[1..];
    }
  }

  /** Selecting keys is done key by key, so the selected keys keep the
      order of `keys`. */
  lemma {:induction false} KeysWhereAppend(a: seq<string>, b: seq<string>, entries: map<string, Record>, passing: bool)
    requires forall k :: k in a ==> k in entries
    requires forall k :: k in b ==> k in entries
    ensures forall i :: 0 <= i < |a + b| ==> (a + b)[i] in entries
    ensures KeysWhere(a + b, entries, passing) == KeysWhere(a, entries, passing) + KeysWhere(b, entries, passing)
  {
    assert forall i :: 0 <= i < |a| ==> a[i] in a;
    assert forall i :: 0 <= i < |b| ==> b[i] in b;
    assert forall i :: 0 <= i < |a + b| ==> (a + b)[i] in a + b;
    if |a| == 0 {
      assert a + b == b;
    } else {
      var a' := a[1..];
      assert (a + b)[0] == a[0] && (a + b)[1..] == a' + b;
      assert forall k :: k in a' ==> k in a;
      KeysWhereAppend(a', b, entries, passing);
    }
  }

  /** The tasks that did not pass, in iteration order. */
  function FailingTasks(tasks: Dict<Record>): (r: seq<string>)
    requires Valid(tasks)
    ensures Distinct(r)
    ensures forall t :: t in r <==> t in tasks.entries && !Passing(tasks.entries[t])
  {
    KeysWhereMembers(tasks.keys, tasks.entries, false);
    KeysWhere(tasks.keys, tasks.entries, false)
  }

  /** The tasks that passed, in iteration order. */
  function PassingTasks(tasks: Dict<Record>): (r: seq<string>)
    requires Valid(tasks)
    ensures Distinct(r)
    ensures forall t :: t in r <==> t in tasks.entries && Passing(tasks.entries[t])
  {
    KeysWhereMembers(tasks.keys, tasks.entries, true);
    KeysWhere(tasks.keys, tasks.entries, true)
  }

  /** The records of the given tasks, in the given order. */
  function Lookup(tasks: Dict<Record>, names: seq<string>): (rs: seq<Record>)
    requires WellFormed(tasks)
    requires forall i :: 0 <= i < |names| ==> names[i] in tasks.entries
    ensures |rs| == |names|
    ensures forall i :: 0 <= i < |rs| ==> rs[i] == tasks.entries[names[i]] && JobFields(rs[i])
  {
    seq(|names|, i requires 0 <= i < |names| => tasks.entries[names[i]])
  }

  /** The narrative line of one job. */
  function JobEntry(rec: Record): Line
    requires JobFields(rec)
  {
    JobLine(rec["name"], rec["web_url"])
  }

  /** `__print_job_list` (lines 191-196): a line per job, then a blank line. */
  function PrintJobList(jobs: seq<Record>): (events: seq<Event>)
    requires forall i :: 0 <= i < |jobs| ==> JobFields(jobs[i])
    ensures |events| == |jobs| + 1
    ensures forall i :: 0 <= i < |jobs| ==> events[i] == Log(Info, JobEntry(jobs[i]))
    ensures events[|jobs|] == Log(Info, Blank)
    ensures forall e :: e in events ==> e.Log? && e.tone == Info
  {
    seq(|jobs|, i requires 0 <= i < |jobs| => Log(Info, JobEntry(jobs[i]))) + [Log(Info, Blank)]
  }

  /** The id of the job a retry of `rec` waits for. */
  function RetriedId(build: nat, rec: Record, c: Client): string
    requires JobFields(rec)
  {
    c.retryJob(build, JobId(rec))
  }

  /** The retried job of a task did not pass either. */
  predicate StillFails(build: nat, rec: Record, c: Client)
    requires JobFields(rec)
  {
    !Passing(c.waitJob(build, RetriedId(build, rec, c)))
  }

  /** Some task did not pass, and neither did its retry. */
  predicate SomeStillFailing(build: nat, tasks: Dict<Record>, c: Client)
    requires WellFormed(tasks)
  {
    exists t :: t in tasks.entries && !Passing(tasks.entries[t]) && StillFails(build, tasks.entries[t], c)
  }

  /** Some task did not pass, but its retry did. */
  predicate SomeRecovered(build: nat, tasks: Dict<Record>, c: Client)
    requires WellFormed(tasks)
  {
    exists t :: t in tasks.entries && !Passing(tasks.entries[t]) && !StillFails(build, tasks.entries[t], c)
  }

  /** The calls a retry makes for the jobs `failed`: every retry is
      triggered before the first wait. */
  function RetryCalls(p: Pipeline, build: nat, failed: seq<Record>, c: Client): (events: seq<Event>)
    requires forall i :: 0 <= i < |failed| ==> JobFields(failed[i])
    ensures |events| == 2 * |failed|
    ensures forall i :: 0 <= i < |failed| ==> events[i] == RetryJob(p, build, JobId(failed[i]))
    ensures forall i :: 0 <= i < |failed| ==> events[|failed| + i] == WaitJob(p, build, RetriedId(build, failed[i], c))
    ensures forall e :: e in events ==> (e.RetryJob? || e.WaitJob?) && e.pipeline == p
    ensures Retries(events, p) <==> |failed| > 0
  {
    var n := |failed|;
    var triggers := seq(n, i requires 0 <= i < n => RetryJob(p, build, JobId(failed[i])));
    var waits := seq(n, i requires 0 <= i < n => WaitJob(p, build, RetriedId(build, failed[i], c)));
    assert n > 0 ==> triggers[0] in triggers + waits;
    triggers + waits
  }

  /** The finished retried job of each of the tasks `failing`. */
  function RetriedJobs(build: nat, tasks: Dict<Record>, failing: seq<string>, c: Client): (d: Dict<Record>)
    requires WellFormed(tasks)
    requires Distinct(failing)
    requires forall i :: 0 <= i < |failing| ==> failing[i] in tasks.entries
    ensures Valid(d) && d.keys == failing
    ensures forall t :: t in d.entries <==> t in failing
    ensures forall t :: t in d.entries ==> d.entries[t] == c.waitJob(build, RetriedId(build, tasks.entries[t], c))
  {
    Dict(failing, map t | t in failing :: c.waitJob(build, RetriedId(build, tasks.entries[t], c)))
  }

  /** `__retry_failed_jobs` (lines 181-188): triggers a retry of every task
      that did not pass, in task order, then waits for each retried job in
      the same order, and answers the finished retried job of each such
      task. */
  function RetryFailedJobs(p: Pipeline, build: nat, tasks: Dict<Record>, c: Client): (r: (seq<Event>, Dict<Record>))
    requires WellFormed(tasks)
    ensures var failing := FailingTasks(tasks);
            && |r.0| == 2 * |failing|
            && (forall i :: 0 <= i < |failing| ==> r.0[i] == RetryJob(p, build, JobId(tasks.entries[failing[i]])))
            && (forall i :: 0 <= i < |failing| ==>
                  r.0[|failing| + i] == WaitJob(p, build, RetriedId(build, tasks.entries[failing[i]], c)))
            && r.1.keys == failing
    ensures Valid(r.1)
    ensures forall t :: t in r.1.entries <==> t in tasks.entries && !Passing(tasks.entries[t])
    ensures forall t :: t in r.1.entries ==> r.1.entries[t] == c.waitJob(build, RetriedId(build, tasks.entries[t], c))
  {
    var failing := FailingTasks(tasks);
    (RetryCalls(p, build, Lookup(tasks, failing), c), RetriedJobs(build, tasks, failing, c))
  }

  /** The narrative lines that differ between the analyses of the two
      pipelines. */
  datatype Texts = Texts(start: Line, listing: Line, retrying: Line, stillFailing: seq<Line>)

  function MainTexts(lastGreenCommit: string): Texts {
    Texts(StartMain, FailingInMain, RetryingMain, [StillFailingMain, LastGreenIs(lastGreenCommit)])
  }

  const DownstreamTexts: Texts := Texts(StartDownstream, FailingInDownstream, RetryingDownstream, [StillFailingDownstream])

  /** One narrative line per text, all in the same tone. */
  function Lines(tone: Tone, texts: seq<Line>): (events: seq<Event>)
    ensures |events| == |texts|
    ensures forall i :: 0 <= i < |texts| ==> events[i] == Log(tone, texts[i])
  {
    seq(|texts|, i requires 0 <= i < |texts| => Log(tone, texts[i]))
  }

  /** Some narrative line is written in the failure tone. */
  predicate Blames(events: seq<Event>) {
    exists e :: e in events && e.Log? && e.tone == Fail
  }

  /** Some job of pipeline `p` is retried. */
  predicate Retries(events: seq<Event>, p: Pipeline) {
    exists e :: e in events && e.RetryJob? && e.pipeline == p
  }

  /** Every task that did not pass has its job retried, and a retry is
      triggered iff some task did not pass. */
  lemma RetryFailedJobsCalls(p: Pipeline, build: nat, tasks: Dict<Record>, c: Client)
    requires WellFormed(tasks)
    ensures var calls := RetryFailedJobs(p, build, tasks, c).0;
            && (forall e :: e in calls ==> (e.RetryJob? || e.WaitJob?) && e.pipeline == p)
            && (forall t :: t in tasks.entries && !Passing(tasks.entries[t]) ==> RetryJob(p, build, JobId(tasks.entries[t])) in calls)
            && (Retries(calls, p) <==> SomeFailing(tasks))
  {
    var failing := FailingTasks(tasks);
    var failed := Lookup(tasks, failing);
    var calls := RetryCalls(p, build, failed, c);
    assert RetryFailedJobs(p, build, tasks, c).0 == calls;
    RetryCallsCover(p, build, tasks, failing, calls);
  }

  /** Calls that start by retrying each of the tasks `failing`, which are
      the tasks that did not pass, retry every such task. */
  lemma RetryCallsCover(p: Pipeline, build: nat, tasks: Dict<Record>, failing: seq<string>, calls: seq<Event>)
    requires WellFormed(tasks)
    requires forall t :: t in failing <==> t in tasks.entries && !Passing(tasks.entries[t])
    requires forall i :: 0 <= i < |failing| ==> failing[i] in tasks.entries
    requires |failing| <= |calls|
    requires forall i :: 0 <= i < |failing| ==> calls[i] == RetryJob(p, build, JobId(tasks.entries[failing[i]]))
    requires Retries(calls, p) <==> |failing| > 0
    ensures forall t :: t in tasks.entries && !Passing(tasks.entries[t]) ==> RetryJob(p, build, JobId(tasks.entries[t])) in calls
    ensures Retries(calls, p) <==> SomeFailing(tasks)
  {
    forall t | t in tasks.entries && !Passing(tasks.entries[t])
      ensures RetryJob(p, build, JobId(tasks.entries[t])) in calls
    {
      var i :| 0 <= i < |failing| && failing[i] == t;
      assert calls[i] == RetryJob(p, build, JobId(tasks.entries[t]));
    }
    if |failing| > 0 {
      assert failing[0] in failing;
    }
  }

  /** The retried jobs that did not pass are those of the tasks that still
      fail. */
  lemma RetriedStates(p: Pipeline, build: nat, tasks: Dict<Record>, c: Client)
    requires WellFormed(tasks)
    ensures var retried := RetryFailedJobs(p, build, tasks, c).1;
            && (forall t :: t in retried.entries ==>
                  t in tasks.entries && (Passing(retried.entries[t]) <==> !StillFails(build, tasks.entries[t], c)))
            && (SomeFailing(retried) <==> SomeStillFailing(build, tasks, c))
            && (SomePassing(retried) <==> SomeRecovered(build, tasks, c))
  {
    var retried := RetryFailedJobs(p, build, tasks, c).1;
    if SomeStillFailing(build, tasks, c) {
      var t :| t in tasks.entries && !Passing(tasks.entries[t]) && StillFails(build, tasks.entries[t], c);
      assert t in retried.entries;
    }
    if SomeRecovered(build, tasks, c) {
      var t :| t in tasks.entries && !Passing(tasks.entries[t]) && !StillFails(build, tasks.entries[t], c);
      assert t in retried.entries;
    }
  }

  /** The tasks that passed on retry, if any, under the flaky heading. */
  function FlakyReport(retried: Dict<Record>): (events: seq<Event>)
    requires WellFormed(retried)
    ensures forall e :: e in events ==> e.Log? && (e.tone == Good || e.tone == Info)
    ensures Log(Good, Flaky) in events <==> SomePassing(retried)
    ensures forall t :: t in retried.entries && Passing(retried.entries[t]) ==>
              Log(Info, JobEntry(retried.entries[t])) in events
  {
    var names := PassingTasks(retried);
    var succeeded := Lookup(retried, names);
    assert |succeeded| > 0 <==> SomePassing(retried) by {
      if |succeeded| > 0 {
        assert names[0] in names;
      }
      if SomePassing(retried) {
        var t :| t in retried.entries && Passing(retried.entries[t]);
        assert t in names;
      }
    }
    if |succeeded| > 0 then
      var listed := PrintJobList(succeeded);
      forall t | t in retried.entries && Passing(retried.entries[t])
        ensures Log(Info, JobEntry(retried.entries[t])) in listed
      {
        var i :| 0 <= i < |names| && names[i] == t;
        assert listed[i] == Log(Info, JobEntry(succeeded[i]));
      }
      [Log(Good, Flaky)] + listed
    else
      []
  }

  /** The tasks that still fail after retry, if any, under headings in the
      failure tone. */
  function BlameReport(retried: Dict<Record>, headings: seq<Line>): (events: seq<Event>)
    requires WellFormed(retried)
    requires |headings| > 0
    ensures forall e :: e in events ==> e.Log? && (e.tone == Fail || e.tone == Info)
    ensures Blames(events) <==> SomeFailing(retried)
  {
    var still := Lookup(retried, FailingTasks(retried));
    assert |still| > 0 <==> SomeFailing(retried) by {
      if |still| > 0 {
        assert FailingTasks(retried)[0] in FailingTasks(retried);
      }
      if SomeFailing(retried) {
        var t :| t in retried.entries && !Passing(retried.entries[t]);
        assert t in FailingTasks(retried);
      }
    }
    if |still| > 0 then
      var events := Lines(Fail, headings) + PrintJobList(still);
      assert events[0] in events;
      events
    else
      []
  }

  /** The opening of an analysis: the failing tasks, then the retry
      heading. */
  function Opening(tasks: Dict<Record>, texts: Texts): (events: seq<Event>)
    requires WellFormed(tasks)
    ensures forall e :: e in events ==> e.Log? && e.tone != Fail
    ensures forall e :: e in events && e.Log? && e.tone == Warning ==> e.line == texts.listing
    ensures forall e :: e in events && e.Log? && e.tone == Good ==> e.line == texts.start || e.line == texts.retrying
  {
    [Log(Info, Blank), Log(Good, texts.start), Log(Warning, texts.listing)]
      + PrintJobList(Lookup(tasks, FailingTasks(tasks)))
      + [Log(Good, texts.retrying)]
  }

  /** What the retry part's trace is made of: the opening, the retry calls,
      the flaky report and the blame report, in that order. */
  lemma RetryTraceParts(opening: seq<Event>, calls: seq<Event>, flaky: seq<Event>, blamed: seq<Event>,
                        p: Pipeline, texts: Texts)
    requires forall e :: e in opening ==> e.Log? && e.tone != Fail && (e.tone == Warning ==> e.line == texts.listing)
    requires forall e :: e in opening && e.Log? && e.tone == Good ==> e.line == texts.start || e.line == texts.retrying
    requires forall e :: e in calls ==> (e.RetryJob? || e.WaitJob?) && e.pipeline == p
    requires forall e :: e in flaky ==> e.Log? && (e.tone == Good || e.tone == Info)
    requires forall e :: e in blamed ==> e.Log? && (e.tone == Fail || e.tone == Info)
    ensures var events := opening + calls + flaky + blamed;
            && (forall e :: e in events ==> e.Log? || ((e.RetryJob? || e.WaitJob?) && e.pipeline == p))
            && (forall e :: e in events && e.Log? && e.tone == Warning ==> e.line == texts.listing)
            && (forall e :: e in calls ==> e in events)
            && (forall e :: e in flaky ==> e in events)
            && (Retries(events, p) <==> Retries(calls, p))
            && (Blames(events) <==> Blames(blamed))
            && (texts.start != Flaky && texts.retrying != Flaky ==> (Log(Good, Flaky) in events <==> Log(Good, Flaky) in flaky))
  {
    var events := opening + calls + flaky + blamed;
    if Log(Good, Flaky) in events {
      assert Log(Good, Flaky) in opening + calls || Log(Good, Flaky) in flaky || Log(Good, Flaky) in blamed;
    }
    if Blames(events) {
      var e :| e in events && e.Log? && e.tone == Fail;
      assert e in opening + calls + flaky || e in blamed;
    }
    if Retries(events, p) {
      var e :| e in events && e.RetryJob? && e.pipeline == p;
      assert e in opening || e in calls || e in flaky + blamed;
    }
  }

  /** Every task that did not pass but whose retry did is listed, by its
      retried job, in `events`. */
  predicate ListsRecovered(events: seq<Event>, build: nat, tasks: Dict<Record>, c: Client)
    requires WellFormed(tasks) && Answers(c)
  {
    forall t :: t in tasks.entries && !Passing(tasks.entries[t]) && !StillFails(build, tasks.entries[t], c) ==>
      Log(Info, JobEntry(c.waitJob(build, RetriedId(build, tasks.entries[t], c)))) in events
  }

  /** The flaky part lists every recovered task, and so does any trace
      holding it. */
  lemma RecoveredListed(p: Pipeline, build: nat, tasks: Dict<Record>, c: Client, flaky: seq<Event>, events: seq<Event>)
    requires WellFormed(tasks) && Answers(c)
    requires flaky == [Log(Good, Blank)] + FlakyReport(RetryFailedJobs(p, build, tasks, c).1)
    requires forall e :: e in flaky ==> e in events
    ensures ListsRecovered(events, build, tasks, c)
  {
    var retried := RetryFailedJobs(p, build, tasks, c).1;
    forall t | t in tasks.entries && !Passing(tasks.entries[t]) && !StillFails(build, tasks.entries[t], c)
      ensures Log(Info, JobEntry(c.waitJob(build, RetriedId(build, tasks.entries[t], c)))) in events
    {
      assert t in retried.entries && Passing(retried.entries[t]);
      assert Log(Info, JobEntry(retried.entries[t])) in FlakyReport(retried);
      assert Log(Info, JobEntry(retried.entries[t])) in flaky;
    }
  }

  /** A trace that holds every event of one listing the recovered tasks
      lists them too. */
  lemma ListsRecoveredWithin(part: seq<Event>, events: seq<Event>, build: nat, tasks: Dict<Record>, c: Client)
    requires WellFormed(tasks) && Answers(c)
    requires ListsRecovered(part, build, tasks, c)
    requires forall e :: e in part ==> e in events
    ensures ListsRecovered(events, build, tasks, c)
  {
  }

  /** The retry part shared by both analyses (lines 199-218 and 227-249):
      list the failing tasks, retry them, then list the tasks that passed on
      retry and, in the failure tone, those that still fail. */
  function RetryAndReport(p: Pipeline, build: nat, tasks: Dict<Record>, c: Client, texts: Texts)
    : (r: (seq<Event>, Dict<Record>))
    requires WellFormed(tasks) && Answers(c)
    requires |texts.stillFailing| > 0
    ensures r.1 == RetryFailedJobs(p, build, tasks, c).1 && WellFormed(r.1)
    ensures forall e :: e in r.0 ==> e.Log? || ((e.RetryJob? || e.WaitJob?) && e.pipeline == p)
    ensures forall t :: t in tasks.entries && !Passing(tasks.entries[t]) ==> RetryJob(p, build, JobId(tasks.entries[t])) in r.0
    ensures Retries(r.0, p) <==> SomeFailing(tasks)
    ensures Blames(r.0) <==> SomeStillFailing(build, tasks, c)
    ensures texts.start != Flaky && texts.retrying != Flaky ==>
              (Log(Good, Flaky) in r.0 <==> SomeRecovered(build, tasks, c))
    ensures ListsRecovered(r.0, build, tasks, c)
    ensures forall e :: e in r.0 && e.Log? && e.tone == Warning ==> e.line == texts.listing
  {
    var (calls, retried) := RetryFailedJobs(p, build, tasks, c);
    RetryFailedJobsCalls(p, build, tasks, c);
    RetriedStates(p, build, tasks, c);
    var opening := Opening(tasks, texts);
    var flaky := [Log(Good, Blank)] + FlakyReport(retried);
    var blamed := BlameReport(retried, texts.stillFailing);
    RetryTraceParts(opening, calls, flaky, blamed, p, texts);
    RecoveredListed(p, build, tasks, c, flaky, opening + calls + flaky + blamed);
    (opening + calls + flaky + blamed, retried)
  }

  /** `__analyze_main_pipeline_result` (lines 199-224). */
  function AnalyzeMainPipeline(main: MainResult, c: Client): (events: seq<Event>)
    requires WellFormed(main.tasks) && Answers(c)
    ensures forall e :: e in events ==> e.Log? || ((e.RetryJob? || e.WaitJob?) && e.pipeline == MainPipeline)
    ensures forall t :: t in main.tasks.entries && !Passing(main.tasks.entries[t]) ==>
              RetryJob(MainPipeline, main.buildNumber, JobId(main.tasks.entries[t])) in events
    ensures Retries(events, MainPipeline) <==> SomeFailing(main.tasks)
    ensures Blames(events) <==> SomeStillFailing(main.buildNumber, main.tasks, c)
    ensures Log(Good, Flaky) in events <==> SomeRecovered(main.buildNumber, main.tasks, c)
    ensures ListsRecovered(events, main.buildNumber, main.tasks, c)
  {
    RetryAndReport(MainPipeline, main.buildNumber, main.tasks, c, MainTexts(main.lastGreenCommit)).0
  }

  /** The environment of a bisect build: the project and the comma-joined
      task names (empty when there are none). */
  function BisectEnv(project: string, names: seq<string>): map<string, string> {
    map["PROJECT_NAME" := project, "TASK_NAME_LIST" := Join(names, ',')]
  }

  /** `__trigger_bisect` (lines 146-151): a culprit-finder build at HEAD
      whose environment names the project and lists the tasks. The task
      list reads back, split at commas, as the tasks themselves when there
      is at least one and no task name holds a comma; with no tasks it is
      the empty string. */
  function BisectRequest(project: string, names: seq<string>): (e: Event)
    ensures e.NewBuild? && e.pipeline == CulpritFinder
    ensures e.commit == "HEAD" && e.message == Some("Bisecting " + project)
    ensures e.env.Keys == {"PROJECT_NAME", "TASK_NAME_LIST"}
    ensures e.env["PROJECT_NAME"] == project
    ensures |names| == 0 ==> e.env["TASK_NAME_LIST"] == ""
    ensures |names| > 0 && (forall i :: 0 <= i < |names| ==> ',' !in names[i]) ==>
              Split(e.env["TASK_NAME_LIST"], ',') == names
  {
    var e := NewBuild(CulpritFinder, "HEAD", Some("Bisecting " + project), BisectEnv(project, names));
    if |names| > 0 && (forall i :: 0 <= i < |names| ==> ',' !in names[i]) then
      SplitJoin(names, ',');
      e
    else e
  }

  /** The finished bisect build the culprit finder answers for a request. */
  function BisectBuild(request: Event, cf: Client): FinishedBuild
    requires request.NewBuild?
  {
    cf.waitBuild(cf.newBuild(request.commit, request.message, request.env))
  }

  /** The tasks still failing after the downstream retry, in task order. */
  function StillFailing(down: ProjectResult, dc: Client): (names: seq<string>)
    requires WellFormed(down.tasks)
    ensures Distinct(names)
    ensures forall t :: t in names <==> t in down.tasks.entries && !Passing(down.tasks.entries[t])
                                        && StillFails(down.buildNumber, down.tasks.entries[t], dc)
    ensures |names| > 0 <==> SomeStillFailing(down.buildNumber, down.tasks, dc)
    ensures forall i :: 0 <= i < |names| ==> names[i] in down.tasks.entries
  {
    var names := FailingTasks(RetryFailedJobs(DownstreamPipeline, down.buildNumber, down.tasks, dc).1);
    assert |names| > 0 ==> names[0] in names;
    names
  }

  /** The two lines reporting the verdict on task `t`. */
  function ReportPair(t: string, results: map<string, string>, tasks: Dict<Record>): seq<Event>
    requires WellFormed(tasks) && t in results && t in tasks.entries
  {
    [Log(Warning, BisectResultFor(tasks.entries[t]["name"])), Log(Info, Verbatim(results[t]))]
  }

  /** `events` reports the tasks `keys` pair by pair, in order. */
  predicate Paired(events: seq<Event>, keys: seq<string>, results: map<string, string>, tasks: Dict<Record>)
    requires WellFormed(tasks)
    requires forall i :: 0 <= i < |keys| ==> keys[i] in results && keys[i] in tasks.entries
  {
    && |events| == 2 * |keys|
    && forall i :: 0 <= i < |keys| ==>
         && events[2 * i] == Log(Warning, BisectResultFor(tasks.entries[keys[i]]["name"]))
         && events[2 * i + 1] == Log(Info, Verbatim(results[keys[i]]))
  }

  lemma PairedCons(keys: seq<string>, results: map<string, string>, tasks: Dict<Record>, rest: seq<Event>)
    requires WellFormed(tasks) && |keys| > 0
    requires forall i :: 0 <= i < |keys| ==> keys[i] in results && keys[i] in tasks.entries
    requires Paired(rest, keys[1..], results, tasks)
    ensures Paired(ReportPair(keys[0], results, tasks) + rest, keys, results, tasks)
  {
    var events := ReportPair(keys[0], results, tasks) + rest;
    forall i | 1 <= i < |keys|
      ensures events[2 * i] == rest[2 * (i - 1)] && events[2 * i + 1] == rest[2 * (i - 1) + 1]
    {
    }
  }

  /** A paired report holds only warning and info lines, and both lines of
      every task. */
  lemma PairedLines(events: seq<Event>, keys: seq<string>, results: map<string, string>, tasks: Dict<Record>)
    requires WellFormed(tasks)
    requires forall i :: 0 <= i < |keys| ==> keys[i] in results && keys[i] in tasks.entries
    requires Paired(events, keys, results, tasks)
    ensures forall e :: e in events ==> e.Log? && (e.tone == Warning || e.tone == Info)
    ensures forall t :: t in keys ==>
              Log(Warning, BisectResultFor(tasks.entries[t]["name"])) in events && Log(Info, Verbatim(results[t])) in events
  {
    forall e | e in events ensures e.Log? && (e.tone == Warning || e.tone == Info) {
      var n :| 0 <= n < |events| && events[n] == e;
      var i := n / 2;
      assert 0 <= i < |keys|;
      if n % 2 == 0 {
        assert n == 2 * i;
      } else {
        assert n == 2 * i + 1;
      }
    }
    forall t | t in keys
      ensures Log(Warning, BisectResultFor(tasks.entries[t]["name"])) in events && Log(Info, Verbatim(results[t])) in events
    {
      var i :| 0 <= i < |keys| && keys[i] == t;
      assert events[2 * i] == Log(Warning, BisectResultFor(tasks.entries[t]["name"]));
      assert events[2 * i + 1] == Log(Info, Verbatim(results[t]));
    }
  }

  /** Lines 268-271: the heading and the report of each bisected task, in
      the order the reports were found. */
  function BisectReports(keys: seq<string>, results: map<string, string>, tasks: Dict<Record>): (events: seq<Event>)
    requires WellFormed(tasks)
    requires forall i :: 0 <= i < |keys| ==> keys[i] in results && keys[i] in tasks.entries
    ensures Paired(events, keys, results, tasks)
  {
    if |keys| == 0 then []
    else
      var rest := BisectReports(keys[1..], results, tasks);
      PairedCons(keys, results, tasks, rest);
      ReportPair(keys[0], results, tasks) + rest
  }

  /** The events of the downstream analysis stay off the main pipeline. */
  predicate OffMain(e: Event) {
    e.Log? || PipelineOf(e) == Some(DownstreamPipeline) || PipelineOf(e) == Some(CulpritFinder)
  }

  /** The reports of the verdicts found, in the order they were found. */
  function ReportVerdicts(results: Dict<string>, tasks: Dict<Record>): (events: seq<Event>)
    requires Valid(results) && WellFormed(tasks)
    requires forall t :: t in results.entries ==> t in tasks.entries
    ensures forall e :: e in events ==> e.Log? && (e.tone == Warning || e.tone == Info)
    ensures forall t :: t in results.entries ==>
              && Log(Warning, BisectResultFor(tasks.entries[t]["name"])) in events
              && Log(Info, Verbatim(results.entries[t])) in events
  {
    KeysListed(results);
    var events := BisectReports(results.keys, results.entries, tasks);
    PairedLines(events, results.keys, results.entries, tasks);
    events
  }

  /** Every task's heading and verdict appear among `events`. */
  predicate ReportsEach(events: seq<Event>, names: seq<string>, tasks: Dict<Record>, verdicts: Dict<string>)
    requires WellFormed(tasks)
    requires forall t :: t in names ==> t in tasks.entries && t in verdicts.entries
  {
    forall t :: t in names ==>
      && Log(Warning, BisectResultFor(tasks.entries[t]["name"])) in events
      && Log(Info, Verbatim(verdicts.entries[t])) in events
  }

  /** Lines 258-271 for the jobs of a finished bisect build: the verdict of
      every task, reported in the order found, or the error that stopped
      the matching. */
  function MatchAndReport(names: seq<string>, bisect: FinishedBuild, tasks: Dict<Record>, cf: Client): (r: Step<()>)
    requires WellFormed(tasks)
    requires forall t :: t in names ==> t in tasks.entries
    ensures forall e :: e in r.events ==>
              (e.FetchLog? && e.pipeline == CulpritFinder) || (e.Log? && e.tone in {Serious, Warning, Info})
    ensures var matched := MatchBisectJobs(names, bisect.jobs, bisect.webUrl, cf);
            && (r.outcome.Success? <==> matched.outcome.Success?)
            && (r.outcome.Failure? ==> r.outcome.error == matched.outcome.error)
            && (r.outcome.Success? ==> ReportsEach(r.events, names, tasks, matched.outcome.value))
    ensures r.outcome.Failure? ==> forall e :: e in r.events ==> !(e.Log? && e.tone == Warning)
    ensures r.outcome.Failure? && r.outcome.error.Raised? ==> EndsRaising(r, r.outcome.error.message)
  {
    var matched := MatchBisectJobs(names, bisect.jobs, bisect.webUrl, cf);
    match matched.outcome
    case Failure(f) => Step(matched.events, Failure(f))
    case Success(results) =>
      var reports := ReportVerdicts(results, tasks);
      MatchThenReport(matched.events, reports, names, tasks, results);
      Step(matched.events + reports, Success(()))
  }

  lemma MatchThenReport(events: seq<Event>, reports: seq<Event>, names: seq<string>, tasks: Dict<Record>, verdicts: Dict<string>)
    requires WellFormed(tasks)
    requires forall t :: t in names ==> t in tasks.entries && t in verdicts.entries
    requires forall e :: e in events ==> (e.FetchLog? && e.pipeline == CulpritFinder) || (e.Log? && e.tone == Serious)
    requires forall e :: e in reports ==> e.Log? && (e.tone == Warning || e.tone == Info)
    requires ReportsEach(reports, names, tasks, verdicts)
    ensures forall e :: e in events + reports ==>
              (e.FetchLog? && e.pipeline == CulpritFinder) || (e.Log? && e.tone in {Serious, Warning, Info})
    ensures ReportsEach(events + reports, names, tasks, verdicts)
  {
    assert forall e :: e in events + reports ==> e in events || e in reports;
  }

  /** Lines printed before a report keep it. */
  lemma ReportsEachAfter(prefix: seq<Event>, events: seq<Event>, names: seq<string>, tasks: Dict<Record>, matched: Step<Dict<string>>)
    requires WellFormed(tasks)
    requires matched.outcome.Success? ==> forall t :: t in names ==> t in tasks.entries && t in matched.outcome.value.entries
    requires matched.outcome.Success? ==> ReportsEach(events, names, tasks, matched.outcome.value)
    ensures matched.outcome.Success? ==> ReportsEach(prefix + events, names, tasks, matched.outcome.value)
  {
  }

  lemma TriggerThenMatch(trigger: seq<Event>, rest: seq<Event>)
    requires forall e :: e in trigger ==> (e.Log? && e.tone == Good) || ((e.NewBuild? || e.WaitBuild?) && e.pipeline == CulpritFinder)
    requires forall e :: e in rest ==> (e.FetchLog? && e.pipeline == CulpritFinder) || (e.Log? && e.tone in {Serious, Warning, Info})
    ensures forall e :: e in trigger + rest ==> OffMain(e) && !(e.Log? && e.tone == Fail) && !e.RetryJob?
    ensures forall e :: e in trigger + rest ==> e in trigger || e in rest
    ensures forall e :: e in trigger ==> e in trigger + rest
    ensures forall e :: e in rest ==> e in trigger + rest
    ensures |rest| > 0 ==> (trigger + rest)[|trigger + rest| - 1] == rest[|rest| - 1]
  {
  }

  /** Lines 251-271 for the tasks `names`: request a bisect build, match
      its jobs to the tasks and report each task's verdict. */
  function Bisection(project: string, names: seq<string>, tasks: Dict<Record>, cf: Client): (r: Step<()>)
    requires WellFormed(tasks)
    requires forall t :: t in names ==> t in tasks.entries
    ensures forall e :: e in r.events ==> OffMain(e) && !(e.Log? && e.tone == Fail) && !e.RetryJob?
    ensures BisectRequest(project, names) in r.events
    ensures var bisect := BisectBuild(BisectRequest(project, names), cf);
            var matched := MatchBisectJobs(names, bisect.jobs, bisect.webUrl, cf);
            && (r.outcome.Success? <==> matched.outcome.Success?)
            && (r.outcome.Failure? ==> r.outcome.error == matched.outcome.error)
            && (r.outcome.Success? ==> ReportsEach(r.events, names, tasks, matched.outcome.value))
    ensures r.outcome.Failure? ==> forall e :: e in r.events ==> !(e.Log? && e.tone == Warning)
    ensures r.outcome.Failure? && r.outcome.error.Raised? ==> EndsRaising(r, r.outcome.error.message)
  {
    var request := BisectRequest(project, names);
    var number := cf.newBuild(request.commit, request.message, request.env);
    var trigger := [Log(Good, BisectingStill), request, WaitBuild(CulpritFinder, number)];
    var m := MatchAndReport(names, BisectBuild(request, cf), tasks, cf);
    TriggerThenMatch(trigger, m.events);
    var bisect := BisectBuild(request, cf);
    ReportsEachAfter(trigger, m.events, names, tasks, MatchBisectJobs(names, bisect.jobs, bisect.webUrl, cf));
    Step(trigger + m.events, m.outcome)
  }

  /** `__analyze_for_downstream_pipeline_result` (lines 227-271): after the
      retry, a bisect build is always requested for the tasks that still
      fail, even when none does; a task without a bisect job ends the
      analysis with an error, otherwise every task's verdict is reported. */
  function AnalyzeDownstreamPipeline(project: string, down: ProjectResult, dc: Client, cf: Client): (r: Step<()>)
    requires WellFormed(down.tasks) && Answers(dc)
    ensures forall e :: e in r.events ==> OffMain(e)
    ensures Retries(r.events, DownstreamPipeline) <==> SomeFailing(down.tasks)
    ensures Blames(r.events) <==> |StillFailing(down, dc)| > 0
    ensures BisectRequest(project, StillFailing(down, dc)) in r.events
    ensures var bisection := Bisection(project, StillFailing(down, dc), down.tasks, cf);
            && r.outcome == bisection.outcome
            && |bisection.events| <= |r.events|
            && r.events[|r.events| - |bisection.events|..] == bisection.events
    ensures r.outcome.Failure? ==> forall e :: e in r.events && e.Log? && e.tone == Warning ==> e.line == FailingInDownstream
    ensures r.outcome.Failure? && r.outcome.error.Raised? ==> EndsRaising(r, r.outcome.error.message)
    ensures ListsRecovered(r.events, down.buildNumber, down.tasks, dc)
  {
    var (retry, retried) := RetryAndReport(DownstreamPipeline, down.buildNumber, down.tasks, dc, DownstreamTexts);
    var names := StillFailing(down, dc);
    var bisection := Bisection(project, names, down.tasks, cf);
    RetryThenBisect(retry, bisection.events);
    ListsRecoveredWithin(retry, retry + bisection.events, down.buildNumber, down.tasks, dc);
    Step(retry + bisection.events, bisection.outcome)
  }

  lemma RetryThenBisect(retry: seq<Event>, bisection: seq<Event>)
    requires forall e :: e in retry ==> e.Log? || ((e.RetryJob? || e.WaitJob?) && e.pipeline == DownstreamPipeline)
    requires forall e :: e in bisection ==> OffMain(e) && !(e.Log? && e.tone == Fail) && !e.RetryJob?
    ensures forall e :: e in retry + bisection ==> OffMain(e)
    ensures (retry + bisection)[|retry|..] == bisection
    ensures |bisection| > 0 ==> (retry + bisection)[|retry + bisection| - 1] == bisection[|bisection| - 1]
    ensures forall e :: e in retry + bisection ==> e in retry || e in bisection
    ensures Retries(retry + bisection, DownstreamPipeline) <==> Retries(retry, DownstreamPipeline)
    ensures Blames(retry + bisection) <==> Blames(retry)
  {
    if Blames(retry + bisection) {
      var e :| e in retry + bisection && e.Log? && e.tone == Fail;
      assert e in retry || e in bisection;
    }
    if Retries(retry + bisection, DownstreamPipeline) {
      var e :| e in retry + bisection && e.RetryJob? && e.pipeline == DownstreamPipeline;
      assert e in retry || e in bisection;
    }
  }

  /** The finished rebuild of the main pipeline at the last green commit
      (the client's default message and environment). */
  function Rebuild(main: MainResult, c: Client): FinishedBuild {
    c.waitBuild(c.newBuild(main.lastGreenCommit, None, map[]))
  }

  /** Lines 291-310: both builds failed. The project is rebuilt at its last
      green commit; if that passes, both pipelines are analysed, main first. */
  function AnalyzeBothFailed(project: string, main: MainResult, down: ProjectResult, clients: Clients): (r: Step<()>)
    requires WellFormed(main.tasks) && WellFormed(down.tasks)
    requires Answers(clients.main) && Answers(clients.downstream)
  {
    var mc := clients.main;
    var number := mc.newBuild(main.lastGreenCommit, None, map[]);
    var rebuild := Rebuild(main, mc);
    var head := [Log(Serious, BothFailed), Log(Info, RebuildAt(main.lastGreenCommit)),
                 NewBuild(MainPipeline, main.lastGreenCommit, None, map[]), WaitBuild(MainPipeline, number)];
    if rebuild.state == "failed" then
      Step(head + [Log(Serious, FailedAtLastGreen)], Success(()))
    else if rebuild.state == "passed" then
      var d := AnalyzeDownstreamPipeline(project, down, clients.downstream, clients.culpritFinder);
      Step(head + [Log(Good, PassedAtLastGreen)] + AnalyzeMainPipeline(main, mc) + d.events, d.outcome)
    else
      Step(head + [Log(Serious, RebuildUnknown(rebuild.webUrl))], Success(()))
  }

  /** `analyze` (lines 274-310): decides from the states of the main build
      and of the project's part of the downstream build which analyses to
      run. */
  function Analyze(project: string, main: MainResult, down: ProjectResult, clients: Clients): (r: Step<()>)
    requires WellFormed(main.tasks) && WellFormed(down.tasks)
    requires Answers(clients.main) && Answers(clients.downstream)
    ensures main.state == Passed && down.state == Passed <==> r.events == [LogSuccess(BothPassed)]
    ensures r.outcome.Failure? ==> down.state == Failed
  {
    match (main.state, down.state)
    case (Passed, Passed) =>
      Step([LogSuccess(BothPassed)], Success(()))
    case (Failed, Passed) =>
      Step([Log(Warning, MainFailedOnly)] + AnalyzeMainPipeline(main, clients.main), Success(()))
    case (Passed, Failed) =>
      var d := AnalyzeDownstreamPipeline(project, down, clients.downstream, clients.culpritFinder);
      Step([Log(Fail, DownstreamFailedOnly)] + d.events, d.outcome)
    case (Failed, Failed) =>
      AnalyzeBothFailed(project, main, down, clients)
  }

  /** Lines 84-108: the newest finished main build, or, when there is none,
      the logged error that ends the project's analysis. `builds` is what
      the client lists for the past day, newest first. */
  function MainBuildResult(pipeline: string, builds: seq<RawBuild>, lastGreenCommit: string): (r: Step<MainResult>)
    ensures |builds| == 0 <==> r.outcome.Failure?
    ensures |builds| == 0 ==>
              r.events == [Log(Serious, NoRecentBuild(pipeline))] && r.outcome.error == Raised(NoRecentBuild(pipeline))
    ensures |builds| > 0 ==> var m := r.outcome.value;
              && r.events == []
              && m.commit == builds[0].commit && m.buildNumber == builds[0].number
              && m.lastGreenCommit == lastGreenCommit
              && Coherent(m.tasks, m.state)
              && GroupByTask(RunnerRecords(builds[0].jobs, [])) == Success(m.tasks)
              && forall t :: t in m.tasks.entries <==> NamesTask(RunnerRecords(builds[0].jobs, []), t)
  {
    if |builds| == 0 then
      Step([Log(Serious, NoRecentBuild(pipeline))], Failure(Raised(NoRecentBuild(pipeline))))
    else
      var build := builds[0];
      var records := RunnerRecords(build.jobs, []);
      RunnerRecordsKeys(build.jobs, []);
      assert AllTasked(records);
      GroupByTaskKeepsFields(records);
      var tasks := GroupByTask(records).value;
      Step([], Success(MainResult(build.commit, build.number, tasks, ProjectState(tasks), lastGreenCommit)))
  }

  /** `run` (lines 317-320): the main build's result, then the analysis. */
  function RunProject(project: string, pipeline: string, builds: seq<RawBuild>, lastGreenCommit: string,
                      down: ProjectResult, clients: Clients): (r: Step<()>)
    requires WellFormed(down.tasks)
    requires Answers(clients.main) && Answers(clients.downstream)
    ensures |builds| == 0 ==> r.events == [Log(Serious, NoRecentBuild(pipeline))] && r.outcome.Failure?
    ensures |builds| > 0 && r.outcome.Failure? ==> down.state == Failed
  {
    var m := MainBuildResult(pipeline, builds, lastGreenCommit);
    match m.outcome
    case Failure(f) => Step(m.events, Failure(f))
    case Success(main) => Analyze(project, main, down, clients)
  }
}
