/** What the analysis of one project does as a whole: which remote actions
    each combination of build states leads to, in which order the pipelines
    are touched, and how the flaky and missing-bisect-job cases end. */
module Properties {
  import opened Wrappers
  import opened Strings
  import opened Dicts
  import opened Jobs
  import opened Downstream
  import opened Remote
  import opened Bisect
  import opened Narrative
  import opened Sheriff

  /** The project is rebuilt on its own pipeline. */
  predicate Rebuilds(events: seq<Event>) {
    exists e :: e in events && e.NewBuild? && e.pipeline == MainPipeline
  }

  /** Every build requested on the project's own pipeline is the rebuild at
      `commit`, with the client's default message and environment. */
  predicate RebuildsOnlyAt(events: seq<Event>, commit: string) {
    forall e :: e in events && e.NewBuild? && e.pipeline == MainPipeline ==>
      e == NewBuild(MainPipeline, commit, None, map[])
  }

  /** A culprit-finder build is requested. */
  predicate Bisects(events: seq<Event>) {
    exists e :: e in events && e.NewBuild? && e.pipeline == CulpritFinder
  }

  /** The remote actions a trace takes. */
  datatype Actions = Actions(rebuild: bool, retryMain: bool, retryDownstream: bool, bisect: bool)

  function ActionsOf(events: seq<Event>): Actions {
    Actions(Rebuilds(events), Retries(events, MainPipeline), Retries(events, DownstreamPipeline), Bisects(events))
  }

  /** The actions of a concatenation are those of its parts. */
  lemma ActionsOfConcat(a: seq<Event>, b: seq<Event>)
    ensures Rebuilds(a + b) <==> Rebuilds(a) || Rebuilds(b)
    ensures Bisects(a + b) <==> Bisects(a) || Bisects(b)
    ensures Retries(a + b, MainPipeline) <==> Retries(a, MainPipeline) || Retries(b, MainPipeline)
    ensures Retries(a + b, DownstreamPipeline) <==> Retries(a, DownstreamPipeline) || Retries(b, DownstreamPipeline)
    ensures Blames(a + b) <==> Blames(a) || Blames(b)
  {
    assert forall e :: e in a + b <==> e in a || e in b;
  }

  /** The actions of a concatenation of three parts. */
  lemma ActionsOfConcat3(a: seq<Event>, b: seq<Event>, c: seq<Event>)
    ensures var x := ActionsOf(a); var y := ActionsOf(b); var z := ActionsOf(c);
            ActionsOf(a + b + c)
              == Actions(x.rebuild || y.rebuild || z.rebuild, x.retryMain || y.retryMain || z.retryMain,
                         x.retryDownstream || y.retryDownstream || z.retryDownstream, x.bisect || y.bisect || z.bisect)
  {
    ActionsOfConcat(a, b);
    ActionsOfConcat(a + b, c);
  }

  /** Narrative lines take no remote action. */
  lemma LogsOnly(events: seq<Event>)
    requires forall e :: e in events ==> e.Log? || e.LogSuccess?
    ensures ActionsOf(events) == Actions(false, false, false, false)
  {
  }

  /** A part made of narrative lines and retries on the main pipeline. */
  lemma MainOnly(events: seq<Event>)
    requires forall e :: e in events ==> e.Log? || ((e.RetryJob? || e.WaitJob?) && e.pipeline == MainPipeline)
    ensures !Rebuilds(events) && !Bisects(events) && !Retries(events, DownstreamPipeline)
  {
  }

  /** A part that stays off the main pipeline. */
  lemma OffMainOnly(events: seq<Event>)
    requires forall e :: e in events ==> OffMain(e)
    ensures !Rebuilds(events) && !Retries(events, MainPipeline)
  {
  }

  /** The main analysis only retries main-pipeline jobs, and does so iff
      some main task failed. */
  lemma MainAnalysisActions(main: MainResult, c: Client)
    requires WellFormed(main.tasks) && Answers(c)
    ensures ActionsOf(AnalyzeMainPipeline(main, c)) == Actions(false, SomeFailing(main.tasks), false, false)
  {
    MainOnly(AnalyzeMainPipeline(main, c));
  }

  /** The downstream analysis always requests a bisect build, never touches
      the main pipeline, and retries downstream jobs iff some downstream task
      failed. */
  lemma DownstreamAnalysisActions(project: string, down: ProjectResult, dc: Client, cf: Client)
    requires WellFormed(down.tasks) && Answers(dc)
    ensures ActionsOf(AnalyzeDownstreamPipeline(project, down, dc, cf).events)
              == Actions(false, false, SomeFailing(down.tasks), true)
  {
    var events := AnalyzeDownstreamPipeline(project, down, dc, cf).events;
    OffMainOnly(events);
    assert BisectRequest(project, StillFailing(down, dc)) in events;
  }

  /** Both builds failed: the project is always rebuilt at its last green
      commit, and both pipelines are analysed iff the rebuild passed. */
  lemma BothFailedActions(project: string, main: MainResult, down: ProjectResult, clients: Clients)
    requires WellFormed(main.tasks) && WellFormed(down.tasks)
    requires Answers(clients.main) && Answers(clients.downstream)
    ensures var passed := Rebuild(main, clients.main).state == "passed";
            ActionsOf(AnalyzeBothFailed(project, main, down, clients).events)
              == Actions(true, passed && SomeFailing(main.tasks), passed && SomeFailing(down.tasks), passed)
    ensures var events := AnalyzeBothFailed(project, main, down, clients).events;
            && NewBuild(MainPipeline, main.lastGreenCommit, None, map[]) in events
            && RebuildsOnlyAt(events, main.lastGreenCommit)
  {
    BothFailedRebuild(project, main, down, clients);
    var mc := clients.main;
    var number := mc.newBuild(main.lastGreenCommit, None, map[]);
    var head := [Log(Serious, BothFailed), Log(Info, RebuildAt(main.lastGreenCommit)),
                 NewBuild(MainPipeline, main.lastGreenCommit, None, map[]), WaitBuild(MainPipeline, number)];
    assert head[2] in head;
    assert ActionsOf(head) == Actions(true, false, false, false);
    var rebuild := Rebuild(main, mc);
    if rebuild.state == "passed" {
      var d := AnalyzeDownstreamPipeline(project, down, clients.downstream, clients.culpritFinder);
      MainAnalysisActions(main, mc);
      DownstreamAnalysisActions(project, down, clients.downstream, clients.culpritFinder);
      LogsOnly([Log(Good, PassedAtLastGreen)]);
      ActionsOfConcat(head, [Log(Good, PassedAtLastGreen)]);
      ActionsOfConcat3(head + [Log(Good, PassedAtLastGreen)], AnalyzeMainPipeline(main, mc), d.events);
    } else if rebuild.state == "failed" {
      LogsOnly([Log(Serious, FailedAtLastGreen)]);
      ActionsOfConcat(head, [Log(Serious, FailedAtLastGreen)]);
    } else {
      LogsOnly([Log(Serious, RebuildUnknown(rebuild.webUrl))]);
      ActionsOfConcat(head, [Log(Serious, RebuildUnknown(rebuild.webUrl))]);
    }
  }

  /** Both builds failed: the one build requested on the project's own
      pipeline is the rebuild at its last green commit. */
  lemma BothFailedRebuild(project: string, main: MainResult, down: ProjectResult, clients: Clients)
    requires WellFormed(main.tasks) && WellFormed(down.tasks)
    requires Answers(clients.main) && Answers(clients.downstream)
    ensures var events := AnalyzeBothFailed(project, main, down, clients).events;
            && NewBuild(MainPipeline, main.lastGreenCommit, None, map[]) in events
            && RebuildsOnlyAt(events, main.lastGreenCommit)
  {
    var mc := clients.main;
    var number := mc.newBuild(main.lastGreenCommit, None, map[]);
    var rebuild := Rebuild(main, mc);
    if rebuild.state == "passed" {
      var d := AnalyzeDownstreamPipeline(project, down, clients.downstream, clients.culpritFinder);
      MainOnly(AnalyzeMainPipeline(main, mc));
      OffMainOnly(d.events);
      RebuildHeadAt(main.lastGreenCommit, number, Log(Good, PassedAtLastGreen));
      RebuildsAtHead(RebuildHead(main.lastGreenCommit, number) + [Log(Good, PassedAtLastGreen)],
                     AnalyzeMainPipeline(main, mc), d.events, main.lastGreenCommit);
    } else {
      var last := if rebuild.state == "failed" then FailedAtLastGreen else RebuildUnknown(rebuild.webUrl);
      RebuildHeadAt(main.lastGreenCommit, number, Log(Serious, last));
      assert AnalyzeBothFailed(project, main, down, clients).events
        == RebuildHead(main.lastGreenCommit, number) + [Log(Serious, last)];
    }
  }

  /** The rebuild's head and one narrative line request one build: the
      rebuild at the last green commit. */
  lemma RebuildHeadAt(commit: string, number: nat, line: Event)
    requires line.Log?
    ensures var events := RebuildHead(commit, number) + [line];
            NewBuild(MainPipeline, commit, None, map[]) in events && RebuildsOnlyAt(events, commit)
  {
    var events := RebuildHead(commit, number) + [line];
    assert events[2] == NewBuild(MainPipeline, commit, None, map[]);
    forall e | e in events && e.NewBuild? && e.pipeline == MainPipeline
      ensures e == NewBuild(MainPipeline, commit, None, map[])
    {
      var i :| 0 <= i < |events| && events[i] == e;
    }
  }

  /** A trace whose only main-pipeline builds are those of its head. */
  lemma RebuildsAtHead(head: seq<Event>, a: seq<Event>, b: seq<Event>, commit: string)
    requires RebuildsOnlyAt(head, commit)
    requires !Rebuilds(a) && !Rebuilds(b)
    ensures RebuildsOnlyAt(head + a + b, commit)
  {
    forall e | e in head + a + b && e.NewBuild? && e.pipeline == MainPipeline
      ensures e == NewBuild(MainPipeline, commit, None, map[])
    {
      assert e in head + a || e in b;
      assert e in head || e in a;
    }
  }

  /** Lines 274-310 as a decision table: the project is rebuilt iff both
      builds failed; a pipeline is analysed iff its build failed and either
      the other passed or the rebuild at the last green commit passed; an
      analysed pipeline's failing jobs are retried, and an analysed
      downstream pipeline always leads to a bisect request. */
  lemma AnalyzeActions(project: string, main: MainResult, down: ProjectResult, clients: Clients)
    requires Coherent(main.tasks, main.state) && Coherent(down.tasks, down.state)
    requires Answers(clients.main) && Answers(clients.downstream)
    ensures var a := ActionsOf(Analyze(project, main, down, clients).events);
            var rebuildPassed := Rebuild(main, clients.main).state == "passed";
            && (a.rebuild <==> main.state == Failed && down.state == Failed)
            && (a.retryMain <==> main.state == Failed && (down.state == Passed || rebuildPassed))
            && (a.retryDownstream <==> down.state == Failed && (main.state == Passed || rebuildPassed))
            && (a.bisect <==> down.state == Failed && (main.state == Passed || rebuildPassed))
    ensures var events := Analyze(project, main, down, clients).events;
            && RebuildsOnlyAt(events, main.lastGreenCommit)
            && (main.state == Failed && down.state == Failed ==>
                  NewBuild(MainPipeline, main.lastGreenCommit, None, map[]) in events)
  {
    match (main.state, down.state)
    case (Passed, Passed) =>
      LogsOnly([LogSuccess(BothPassed)]);
    case (Failed, Passed) =>
      MainFailedActions(project, main, down, clients);
    case (Passed, Failed) =>
      DownstreamFailedActions(project, main, down, clients);
    case (Failed, Failed) =>
      BothFailedActions(project, main, down, clients);
  }

  lemma MainFailedActions(project: string, main: MainResult, down: ProjectResult, clients: Clients)
    requires WellFormed(main.tasks) && WellFormed(down.tasks)
    requires Answers(clients.main) && Answers(clients.downstream)
    requires main.state == Failed && down.state == Passed
    ensures ActionsOf(Analyze(project, main, down, clients).events) == Actions(false, SomeFailing(main.tasks), false, false)
  {
    MainAnalysisActions(main, clients.main);
    ActionsOfConcat([Log(Warning, MainFailedOnly)], AnalyzeMainPipeline(main, clients.main));
  }

  lemma DownstreamFailedActions(project: string, main: MainResult, down: ProjectResult, clients: Clients)
    requires WellFormed(main.tasks) && WellFormed(down.tasks)
    requires Answers(clients.main) && Answers(clients.downstream)
    requires main.state == Passed && down.state == Failed
    ensures ActionsOf(Analyze(project, main, down, clients).events) == Actions(false, false, SomeFailing(down.tasks), true)
  {
    var d := AnalyzeDownstreamPipeline(project, down, clients.downstream, clients.culpritFinder);
    DownstreamAnalysisActions(project, down, clients.downstream, clients.culpritFinder);
    ActionsOfConcat([Log(Fail, DownstreamFailedOnly)], d.events);
  }

  /** Every call to the main pipeline comes before every call to the
      downstream pipeline or the culprit finder. */
  predicate MainFirst(events: seq<Event>) {
    forall i, j :: 0 <= i < |events| && 0 <= j < |events| && PipelineOf(events[i]) == Some(MainPipeline) && OffMainCall(events[j])
      ==> i < j
  }

  predicate OffMainCall(e: Event) {
    PipelineOf(e) == Some(DownstreamPipeline) || PipelineOf(e) == Some(CulpritFinder)
  }

  /** No call to the downstream pipeline or the culprit finder. */
  predicate StaysMain(events: seq<Event>) {
    forall e :: e in events ==> !OffMainCall(e)
  }

  /** No call to the main pipeline. */
  predicate AvoidsMain(events: seq<Event>) {
    forall e :: e in events ==> PipelineOf(e) != Some(MainPipeline)
  }

  lemma StaysMainConcat(a: seq<Event>, b: seq<Event>)
    requires StaysMain(a) && StaysMain(b)
    ensures StaysMain(a + b)
  {
    assert forall e :: e in a + b ==> e in a || e in b;
  }

  /** A part that calls no other pipeline, followed by one that does not
      call the main pipeline, keeps the main pipeline first. */
  lemma MainFirstConcat(a: seq<Event>, b: seq<Event>)
    requires StaysMain(a) && AvoidsMain(b)
    ensures MainFirst(a + b)
  {
    var s := a + b;
    forall i, j | 0 <= i < |s| && 0 <= j < |s| && PipelineOf(s[i]) == Some(MainPipeline) && OffMainCall(s[j])
      ensures i < j
    {
      if j < |a| {
        assert false;
      }
      if i >= |a| {
        assert false;
      }
    }
  }

  lemma MainAnalysisStaysMain(main: MainResult, c: Client)
    requires WellFormed(main.tasks) && Answers(c)
    ensures StaysMain(AnalyzeMainPipeline(main, c))
  {
  }

  lemma DownstreamAnalysisAvoidsMain(project: string, down: ProjectResult, dc: Client, cf: Client)
    requires WellFormed(down.tasks) && Answers(dc)
    ensures AvoidsMain(AnalyzeDownstreamPipeline(project, down, dc, cf).events)
  {
    OffMainAvoids(AnalyzeDownstreamPipeline(project, down, dc, cf).events);
  }

  lemma OffMainAvoids(events: seq<Event>)
    requires forall e :: e in events ==> OffMain(e)
    ensures AvoidsMain(events)
  {
  }

  /** The analysis never goes back to the main pipeline once it has turned
      to the downstream pipeline or the culprit finder. */
  lemma AnalyzeMainFirst(project: string, main: MainResult, down: ProjectResult, clients: Clients)
    requires WellFormed(main.tasks) && WellFormed(down.tasks)
    requires Answers(clients.main) && Answers(clients.downstream)
    ensures MainFirst(Analyze(project, main, down, clients).events)
  {
    match (main.state, down.state)
    case (Passed, Passed) =>
      SuccessOnly(BothPassed);
    case (Failed, Passed) =>
      MainAnalysisStaysMain(main, clients.main);
      LineThen(Warning, MainFailedOnly, AnalyzeMainPipeline(main, clients.main));
    case (Passed, Failed) =>
      DownstreamAnalysisAvoidsMain(project, down, clients.downstream, clients.culpritFinder);
      LineThen(Fail, DownstreamFailedOnly, AnalyzeDownstreamPipeline(project, down, clients.downstream, clients.culpritFinder).events);
    case (Failed, Failed) =>
      BothFailedMainFirst(project, main, down, clients);
  }

  lemma SuccessOnly(line: Line)
    ensures MainFirst([LogSuccess(line)])
  {
    assert StaysMain([LogSuccess(line)]);
    MainFirstConcat([LogSuccess(line)], []);
  }

  /** A narrative line followed by a part that keeps to one side. */
  lemma LineThen(tone: Tone, line: Line, events: seq<Event>)
    requires StaysMain(events) || AvoidsMain(events)
    ensures MainFirst([Log(tone, line)] + events)
  {
    assert StaysMain([Log(tone, line)]);
    if StaysMain(events) {
      StaysMainConcat([Log(tone, line)], events);
      MainFirstConcat([Log(tone, line)] + events, []);
    } else {
      assert AvoidsMain([Log(tone, line)] + events) by {
        assert forall e :: e in [Log(tone, line)] + events ==> e == Log(tone, line) || e in events;
      }
      MainFirstConcat([], [Log(tone, line)] + events);
    }
  }

  /** The narrative and calls that open the analysis when both builds
      failed: the rebuild at the last green commit. */
  function RebuildHead(lastGreenCommit: string, number: nat): seq<Event> {
    [Log(Serious, BothFailed), Log(Info, RebuildAt(lastGreenCommit)),
     NewBuild(MainPipeline, lastGreenCommit, None, map[]), WaitBuild(MainPipeline, number)]
  }

  lemma RebuildThenBoth(lastGreenCommit: string, number: nat, onMain: seq<Event>, offMain: seq<Event>)
    requires StaysMain(onMain) && AvoidsMain(offMain)
    ensures MainFirst(RebuildHead(lastGreenCommit, number) + [Log(Good, PassedAtLastGreen)] + onMain + offMain)
  {
    var head := RebuildHead(lastGreenCommit, number) + [Log(Good, PassedAtLastGreen)];
    assert StaysMain(head);
    StaysMainConcat(head, onMain);
    MainFirstConcat(head + onMain, offMain);
  }

  lemma RebuildOnly(lastGreenCommit: string, number: nat, last: Line)
    ensures MainFirst(RebuildHead(lastGreenCommit, number) + [Log(Serious, last)])
  {
    var events := RebuildHead(lastGreenCommit, number) + [Log(Serious, last)];
    assert StaysMain(events);
    MainFirstConcat(events, []);
  }

  lemma BothFailedMainFirst(project: string, main: MainResult, down: ProjectResult, clients: Clients)
    requires WellFormed(main.tasks) && WellFormed(down.tasks)
    requires Answers(clients.main) && Answers(clients.downstream)
    ensures MainFirst(AnalyzeBothFailed(project, main, down, clients).events)
  {
    var mc := clients.main;
    var number := mc.newBuild(main.lastGreenCommit, None, map[]);
    var rebuild := Rebuild(main, mc);
    if rebuild.state == "passed" {
      MainAnalysisStaysMain(main, mc);
      DownstreamAnalysisAvoidsMain(project, down, clients.downstream, clients.culpritFinder);
      RebuildThenBoth(main.lastGreenCommit, number, AnalyzeMainPipeline(main, mc),
                      AnalyzeDownstreamPipeline(project, down, clients.downstream, clients.culpritFinder).events);
    } else if rebuild.state == "failed" {
      RebuildOnly(main.lastGreenCommit, number, FailedAtLastGreen);
    } else {
      RebuildOnly(main.lastGreenCommit, number, RebuildUnknown(rebuild.webUrl));
    }
  }

  /** Main build failed, downstream passed, and every failing main task
      passes on retry: the tasks are reported as flaky, nothing is blamed,
      and the analysis ends normally. */
  lemma FlakyMainBuild(project: string, main: MainResult, down: ProjectResult, clients: Clients)
    requires Coherent(main.tasks, main.state) && WellFormed(down.tasks)
    requires Answers(clients.main) && Answers(clients.downstream)
    requires main.state == Failed && down.state == Passed
    requires forall t :: t in main.tasks.entries && !Passing(main.tasks.entries[t]) ==>
               !StillFails(main.buildNumber, main.tasks.entries[t], clients.main)
    ensures var r := Analyze(project, main, down, clients);
            && r.outcome.Success?
            && Log(Good, Flaky) in r.events
            && ListsRecovered(r.events, main.buildNumber, main.tasks, clients.main)
            && !Blames(r.events)
  {
    var events := AnalyzeMainPipeline(main, clients.main);
    var t :| t in main.tasks.entries && !Passing(main.tasks.entries[t]);
    assert SomeRecovered(main.buildNumber, main.tasks, clients.main);
    ActionsOfConcat([Log(Warning, MainFailedOnly)], events);
    assert Log(Good, Flaky) in [Log(Warning, MainFailedOnly)] + events;
    ListsRecoveredWithin(events, [Log(Warning, MainFailedOnly)] + events, main.buildNumber, main.tasks, clients.main);
  }

  /** Some task still failing after the downstream retry has no job in the
      bisect build: the downstream analysis ends by raising, as its last
      narrative line, the missing-job error of the first such task, and
      reports no bisect verdict. */
  lemma MissingBisectJobEnds(project: string, down: ProjectResult, dc: Client, cf: Client)
    requires WellFormed(down.tasks) && Answers(dc)
    requires var bisect := BisectBuild(BisectRequest(project, StillFailing(down, dc)), cf);
             && BisectJobsReadable(bisect.jobs)
             && exists t :: t in StillFailing(down, dc) && LastMatch(bisect.jobs, t).None?
    ensures var r := AnalyzeDownstreamPipeline(project, down, dc, cf);
            var names := StillFailing(down, dc);
            var bisect := BisectBuild(BisectRequest(project, names), cf);
            && (exists i :: StopsAt(names, bisect.jobs, Empty(), i)
                            && EndsRaising(r, MissingBisectJob(names[i], bisect.webUrl)))
            && (forall e :: e in r.events && e.Log? && e.tone == Warning ==> e.line == FailingInDownstream)
  {
    var names := StillFailing(down, dc);
    var bisect := BisectBuild(BisectRequest(project, names), cf);
    var url := bisect.webUrl;
    var matched := MatchBisectJobs(names, bisect.jobs, url, cf);
    MatchBisectJobsReports(names, bisect.jobs, url, cf);
    var t :| t in names && LastMatch(bisect.jobs, t).None?;
    assert !matched.outcome.Success?;
    MatchTasksFailure(names, bisect.jobs, url, cf, Empty());
    var i :| StopsAt(names, bisect.jobs, Empty(), i) && EndsRaising(matched, MissingBisectJob(names[i], url));
  }

  /** The same, seen from the whole analysis when only the downstream
      build failed. */
  lemma DownstreamOnlyMissingJob(project: string, main: MainResult, down: ProjectResult, clients: Clients)
    requires WellFormed(main.tasks) && WellFormed(down.tasks)
    requires Answers(clients.main) && Answers(clients.downstream)
    requires main.state == Passed && down.state == Failed
    requires var bisect := BisectBuild(BisectRequest(project, StillFailing(down, clients.downstream)), clients.culpritFinder);
             && BisectJobsReadable(bisect.jobs)
             && exists t :: t in StillFailing(down, clients.downstream) && LastMatch(bisect.jobs, t).None?
    ensures var r := Analyze(project, main, down, clients);
            && r.outcome.Failure? && r.outcome.error.Raised?
            && EndsRaising(r, r.outcome.error.message)
            && (forall e :: e in r.events && e.Log? && e.tone == Warning ==> e.line == FailingInDownstream)
  {
    var d := AnalyzeDownstreamPipeline(project, down, clients.downstream, clients.culpritFinder);
    MissingBisectJobEnds(project, down, clients.downstream, clients.culpritFinder);
    var events := [Log(Fail, DownstreamFailedOnly)] + d.events;
    assert Analyze(project, main, down, clients) == Step(events, d.outcome);
    assert events[|events| - 1] == d.events[|d.events| - 1];
    assert forall e :: e in events ==> e == Log(Fail, DownstreamFailedOnly) || e in d.events;
  }

  /** Every task has a job in the bisect build, whose jobs can be read. */
  predicate Bisectable(names: seq<string>, jobs: seq<Job>) {
    BisectJobsReadable(jobs) && forall t :: t in names ==> LastMatch(jobs, t).Some?
  }

  /** `events` holds, for every task, its heading and the verdict of the
      last bisect job that matches it. */
  predicate VerdictsReported(events: seq<Event>, names: seq<string>, tasks: Dict<Record>, jobs: seq<Job>, cf: Client)
    requires WellFormed(tasks) && (forall t :: t in names ==> t in tasks.entries) && Bisectable(names, jobs)
  {
    forall t :: t in names ==>
      && Log(Warning, BisectResultFor(tasks.entries[t]["name"])) in events
      && Log(Info, Verbatim(ReportOf(jobs, t, cf).value)) in events
  }

  /** When every task has a bisect job, the bisection ends normally and
      reports every task's verdict. */
  lemma BisectionVerdicts(project: string, names: seq<string>, tasks: Dict<Record>, cf: Client)
    requires WellFormed(tasks) && forall t :: t in names ==> t in tasks.entries
    requires Bisectable(names, BisectBuild(BisectRequest(project, names), cf).jobs)
    ensures var r := Bisection(project, names, tasks, cf);
            && r.outcome.Success?
            && VerdictsReported(r.events, names, tasks, BisectBuild(BisectRequest(project, names), cf).jobs, cf)
  {
    var bisect := BisectBuild(BisectRequest(project, names), cf);
    MatchBisectJobsReports(names, bisect.jobs, bisect.webUrl, cf);
    assert forall i :: 0 <= i < |names| ==> names[i] in names;
  }

  /** Every task still failing after the downstream retry has a job in the
      bisect build: the downstream analysis ends normally and reports, for
      each such task, the verdict of the last bisect job that matches it. */
  lemma BisectVerdicts(project: string, down: ProjectResult, dc: Client, cf: Client)
    requires WellFormed(down.tasks) && Answers(dc)
    requires Bisectable(StillFailing(down, dc), BisectBuild(BisectRequest(project, StillFailing(down, dc)), cf).jobs)
    ensures var r := AnalyzeDownstreamPipeline(project, down, dc, cf);
            var names := StillFailing(down, dc);
            && r.outcome.Success?
            && VerdictsReported(r.events, names, down.tasks, BisectBuild(BisectRequest(project, names), cf).jobs, cf)
  {
    var names := StillFailing(down, dc);
    BisectionVerdicts(project, names, down.tasks, cf);
    var d := AnalyzeDownstreamPipeline(project, down, dc, cf);
    var b := Bisection(project, names, down.tasks, cf);
    SuffixMembers(d.events, b.events);
  }

  lemma SuffixMembers(s: seq<Event>, t: seq<Event>)
    requires |t| <= |s| && s[|s| - |t|..] == t
    ensures forall e :: e in t ==> e in s
  {
    forall e | e in t ensures e in s {
      var k :| 0 <= k < |t| && t[k] == e;
      assert s[|s| - |t| + k] == e;
    }
  }

  /** Without a recent main build the analysis stops at once with the
      logged error, whatever the downstream build says. */
  lemma NoRecentBuildStops(project: string, pipeline: string, lastGreenCommit: string,
                           down: ProjectResult, clients: Clients)
    requires WellFormed(down.tasks)
    requires Answers(clients.main) && Answers(clients.downstream)
    ensures var r := RunProject(project, pipeline, [], lastGreenCommit, down, clients);
            r.outcome == Failure(Raised(NoRecentBuild(pipeline))) && ActionsOf(r.events) == Actions(false, false, false, false)
  {
    LogsOnly([Log(Serious, NoRecentBuild(pipeline))]);
  }
}
