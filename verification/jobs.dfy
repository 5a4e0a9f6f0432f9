/** Turning Buildkite jobs into per-task records: the job-record extractor,
    the task grouper and the derived project state
    (buildkite/bazel_auto_sheriff.py, lines 338-400). */
module Jobs {
  import opened Wrappers
  import opened Strings
  import opened Dicts

  /** A job as the Buildkite API describes it, and the flat record the
      extractor builds from it. JSON values are kept as strings. */
  type Job = map<string, string>
  type Record = map<string, string>

  /** Marks a job whose command runs the CI runner script. */
  const RunnerMarker := "bazelci.py runner"

  /** The argument every record is keyed by. */
  const TaskKey := "task"

  /** The job fields the extractor copies by default. */
  const JobMetadataKeys: seq<string> := ["name", "state", "web_url", "exit_status", "id"]

  function ArgPrefix(key: string): string {
    "--" + key + "="
  }

  /** The command-line tokens of a job: its command split on single spaces. */
  function Args(job: Job): seq<string>
    requires "command" in job
  {
    Split(job["command"], ' ')
  }

  /** Some token passes `key` as `--key=value`. */
  predicate PassesArg(args: seq<string>, key: string) {
    exists i :: 0 <= i < |args| && StartsWith(args[i], ArgPrefix(key))
  }

  /** `v` is the value carried by the last `--key=` token. */
  predicate IsLastArgValue(args: seq<string>, key: string, v: string) {
    exists i ::
      && 0 <= i < |args|
      && StartsWith(args[i], ArgPrefix(key))
      && v == args[i][|ArgPrefix(key)|..]
      && forall j :: i < j < |args| ==> !StartsWith(args[j], ArgPrefix(key))
  }

  /** The index of the last token below `n` that starts with `prefix`. */
  function LastTokenBelow(args: seq<string>, prefix: string, n: nat): (r: Option<nat>)
    requires n <= |args|
    ensures r.None? ==> forall j :: 0 <= j < n ==> !StartsWith(args[j], prefix)
    ensures r.Some? ==> r.value < n && StartsWith(args[r.value], prefix)
    ensures r.Some? ==> forall j :: r.value < j < n ==> !StartsWith(args[j], prefix)
  {
    if n == 0 then None
    else if StartsWith(args[n - 1], prefix) then Some(n - 1)
    else LastTokenBelow(args, prefix, n - 1)
  }

  /** The value the extractor records for `key`: each matching token
      overwrites the previous one, so the last one wins. */
  function LastArg(args: seq<string>, key: string): (r: Option<string>)
    ensures r.None? <==> !PassesArg(args, key)
    ensures r.Some? ==> IsLastArgValue(args, key, r.value)
  {
    var prefix := ArgPrefix(key);
    match LastTokenBelow(args, prefix, |args|)
    case None => None
    case Some(i) => Some(args[i][|prefix|..])
  }

  /** The record built from the command line alone, or `None` as soon as
      one of `keys` is not passed. */
  function ArgsRecord(args: seq<string>, keys: seq<string>): (r: Option<Record>)
    ensures r.Some? <==> forall k :: k in keys ==> PassesArg(args, k)
    ensures r.Some? ==> r.value.Keys == set k | k in keys
    ensures r.Some? ==> forall k :: k in keys ==> IsLastArgValue(args, k, r.value[k])
  {
    if |keys| == 0 then Some(map[])
    else
      match LastArg(args, keys[0])
      case None => None
      case Some(v) =>
        match ArgsRecord(args, keys[1..])
        case None => None
        case Some(rest) => Some(rest[keys[0] := v])
  }

  /** The requested argument keys, with `task` added when missing. */
  function WithTask(keys: seq<string>): (r: seq<string>)
    ensures TaskKey in r
    ensures forall k :: k in r <==> k in keys || k == TaskKey
  {
    if TaskKey in keys then keys else keys + [TaskKey]
  }

  /** The job runs the CI runner script. */
  predicate IsRunnerJob(job: Job) {
    "command" in job && job["command"] != "" && Contains(job["command"], RunnerMarker)
  }

  /** `extract_job_info_by_key`: the record of a runner job, holding the last
      value of every requested `--key=` argument (always including `task`)
      and a verbatim copy of every requested job field; `None` when the job
      is not a runner job or lacks one of them. A job field overrides a
      command-line argument of the same name. */
  function ExtractJobInfo(job: Job, commandKeys: seq<string>, jobKeys: seq<string>): (r: Option<Record>)
    ensures r.Some? <==>
              && IsRunnerJob(job)
              && (forall k :: k in WithTask(commandKeys) ==> PassesArg(Args(job), k))
              && (forall k :: k in jobKeys ==> k in job)
  {
    if !IsRunnerJob(job) then None
    else
      match ArgsRecord(Args(job), WithTask(commandKeys))
      case None => None
      case Some(fromCommand) =>
        if forall k :: k in jobKeys ==> k in job then
          Some(fromCommand + map k | k in jobKeys :: job[k])
        else None
  }

  /** What an extracted record holds: exactly the requested keys, `task`
      among them; the requested job fields verbatim; every other key the
      value of its last `--key=` argument. */
  lemma ExtractedRecord(job: Job, commandKeys: seq<string>, jobKeys: seq<string>)
    requires ExtractJobInfo(job, commandKeys, jobKeys).Some?
    ensures var r := ExtractJobInfo(job, commandKeys, jobKeys).value;
            && TaskKey in r
            && r.Keys == (set k | k in WithTask(commandKeys)) + (set k | k in jobKeys)
            && (forall k :: k in jobKeys ==> r[k] == job[k])
            && (forall k :: k in WithTask(commandKeys) && k !in jobKeys ==> IsLastArgValue(Args(job), k, r[k]))
  {
  }

  /** A record carries the job fields the analysis reads. */
  predicate JobFields(rec: Record) {
    "name" in rec && "state" in rec && "web_url" in rec && "id" in rec
  }

  function JobId(rec: Record): string
    requires JobFields(rec)
  {
    rec["id"]
  }

  /** The records `extract` yields for `jobs`, in job order; a job it
      yields nothing for is dropped. */
  function Collect(jobs: seq<Job>, extract: Job -> Option<Record>): seq<Record> {
    if |jobs| == 0 then []
    else
      var rest := Collect(jobs[1..], extract);
      match extract(jobs[0])
      case None => rest
      case Some(rec) => [rec] + rest
  }

  /** Every collected record comes from some job, every job's record is
      collected, and nothing is dropped iff every job yields a record. */
  lemma {:induction false} CollectMembers(jobs: seq<Job>, extract: Job -> Option<Record>)
    ensures var rs := Collect(jobs, extract);
            && |rs| <= |jobs|
            && (|rs| == |jobs| <==> forall j :: 0 <= j < |jobs| ==> extract(jobs[j]).Some?)
            && (forall i :: 0 <= i < |rs| ==> exists j :: 0 <= j < |jobs| && extract(jobs[j]) == Some(rs[i]))
            && (forall j :: 0 <= j < |jobs| && extract(jobs[j]).Some? ==> extract(jobs[j]).value in rs)
  {
    if |jobs| > 0 {
      CollectMembers(jobs[1..], extract);
      assert forall j :: 1 <= j < |jobs| ==> jobs[1..][j - 1] == jobs[j];
    }
  }

  /** Collecting is done job by job: the records of two runs of jobs are
      those of the first run followed by those of the second. */
  lemma {:induction false} CollectAppend(a: seq<Job>, b: seq<Job>, extract: Job -> Option<Record>)
    ensures Collect(a + b, extract) == Collect(a, extract) + Collect(b, extract)
  {
    if |a| == 0 {
      assert a + b == b;
    } else {
      var h := if extract(a[0]).Some? then [extract(a[0]).value] else [];
      assert (a + b)[0] == a[0] && (a + b)[1..] == a[1..] + b;
      assert Collect(a + b, extract) == h + Collect(a[1..] + b, extract);
      assert Collect(a, extract) == h + Collect(a[1..], extract);
      CollectAppend(a[1..], b, extract);
    }
  }

  /** The record of job `j` is kept at the position after the records of
      the jobs before it: job order is kept, and so is every duplicate. */
  lemma CollectAt(jobs: seq<Job>, extract: Job -> Option<Record>, j: int)
    requires 0 <= j < |jobs| && extract(jobs[j]).Some?
    ensures var k := |Collect(jobs[..j], extract)|;
            k < |Collect(jobs, extract)| && Collect(jobs, extract)[k] == extract(jobs[j]).value
  {
    var rest := [jobs[j]] + jobs[j + 1..];
    assert jobs == jobs[..j] + rest;
    CollectAppend(jobs[..j], rest, extract);
    assert rest[1..] == jobs[j + 1..];
  }

  /** The extractor with the default job fields and the given arguments. */
  function Extractor(commandKeys: seq<string>): Job -> Option<Record> {
    job => ExtractJobInfo(job, commandKeys, JobMetadataKeys)
  }

  /** The records of the runner jobs among `jobs` (line 101, and lines
      430-432 without the bucketing): every record comes from a runner job
      and every runner job's record is kept, in job order. */
  function RunnerRecords(jobs: seq<Job>, commandKeys: seq<string>): (rs: seq<Record>)
    ensures |rs| <= |jobs|
    ensures forall i :: 0 <= i < |rs| ==>
              exists j :: 0 <= j < |jobs| && ExtractJobInfo(jobs[j], commandKeys, JobMetadataKeys) == Some(rs[i])
    ensures forall j :: 0 <= j < |jobs| && ExtractJobInfo(jobs[j], commandKeys, JobMetadataKeys).Some? ==>
              ExtractJobInfo(jobs[j], commandKeys, JobMetadataKeys).value in rs
  {
    CollectMembers(jobs, Extractor(commandKeys));
    Collect(jobs, Extractor(commandKeys))
  }

  /** The records of the runner jobs keep the order of the jobs: the record
      of runner job `j` follows the records of the jobs before it. */
  lemma RunnerRecordsAt(jobs: seq<Job>, commandKeys: seq<string>, j: int)
    requires 0 <= j < |jobs| && ExtractJobInfo(jobs[j], commandKeys, JobMetadataKeys).Some?
    ensures var k := |RunnerRecords(jobs[..j], commandKeys)|;
            && k < |RunnerRecords(jobs, commandKeys)|
            && RunnerRecords(jobs, commandKeys)[k] == ExtractJobInfo(jobs[j], commandKeys, JobMetadataKeys).value
  {
    CollectAt(jobs, Extractor(commandKeys), j);
  }

  /** The record has `task`, the job fields the analysis reads and every
      key of `commandKeys`. */
  predicate Keyed(rec: Record, commandKeys: seq<string>) {
    TaskKey in rec && JobFields(rec) && forall k :: k in commandKeys ==> k in rec
  }

  /** A record extracted with the default job fields has every requested
      key, `task` and the fields the analysis reads. */
  lemma ExtractedKeys(job: Job, commandKeys: seq<string>)
    requires ExtractJobInfo(job, commandKeys, JobMetadataKeys).Some?
    ensures Keyed(ExtractJobInfo(job, commandKeys, JobMetadataKeys).value, commandKeys)
  {
    ExtractedRecord(job, commandKeys, JobMetadataKeys);
    assert "name" in JobMetadataKeys && "state" in JobMetadataKeys && "web_url" in JobMetadataKeys;
    assert "id" in JobMetadataKeys;
  }

  lemma {:induction false} CollectKeyed(jobs: seq<Job>, extract: Job -> Option<Record>, commandKeys: seq<string>)
    requires forall job :: extract(job).Some? ==> Keyed(extract(job).value, commandKeys)
    ensures forall i :: 0 <= i < |Collect(jobs, extract)| ==> Keyed(Collect(jobs, extract)[i], commandKeys)
  {
    if |jobs| > 0 {
      CollectKeyed(jobs[1..], extract, commandKeys);
    }
  }

  lemma RunnerRecordsKeys(jobs: seq<Job>, commandKeys: seq<string>)
    ensures forall i :: 0 <= i < |RunnerRecords(jobs, commandKeys)| ==> Keyed(RunnerRecords(jobs, commandKeys)[i], commandKeys)
  {
    var extract := Extractor(commandKeys);
    forall job | extract(job).Some? ensures Keyed(extract(job).value, commandKeys) {
      ExtractedKeys(job, commandKeys);
    }
    CollectKeyed(jobs, extract, commandKeys);
  }

  /** Every record has a `task` key. */
  predicate AllTasked(records: seq<Record>) {
    forall i :: 0 <= i < |records| ==> TaskKey in records[i]
  }

  /** Some record has task `t`. */
  predicate NamesTask(records: seq<Record>, t: string) {
    exists i :: 0 <= i < |records| && TaskKey in records[i] && records[i][TaskKey] == t
  }

  /** The grouping loop of lines 384-390 over records that all have a
      `task` key: each record, without that key, is stored under its task. */
  function Group(records: seq<Record>): (d: Dict<Record>)
    requires AllTasked(records)
    ensures Valid(d)
  {
    if |records| == 0 then Empty()
    else
      var last := |records| - 1;
      var init := records[..last];
      assert forall i :: 0 <= i < last ==> init[i] == records[i];
      Put(Group(init), records[last][TaskKey], records[last] - {TaskKey})
  }

  /** One more record updates the grouping of the earlier ones. */
  lemma GroupSnoc(init: seq<Record>, rec: Record)
    requires AllTasked(init) && TaskKey in rec
    ensures AllTasked(init + [rec])
    ensures Group(init + [rec]) == Put(Group(init), rec[TaskKey], rec - {TaskKey})
  {
    var records := init + [rec];
    assert records[..|init|] == init;
  }

  /** The tasks grouped are exactly the tasks named. */
  lemma {:induction false} GroupNames(records: seq<Record>)
    requires AllTasked(records)
    ensures forall t :: t in Group(records).entries <==> NamesTask(records, t)
  {
    if |records| > 0 {
      var last := |records| - 1;
      var init := records[..last];
      assert forall i :: 0 <= i < last ==> init[i] == records[i];
      GroupNames(init);
      GroupSnoc(init, records[last]);
      NamesTaskSnoc(init, records[last]);
      assert init + [records[last]] == records;
    }
  }

  lemma NamesTaskSnoc(init: seq<Record>, rec: Record)
    requires TaskKey in rec
    ensures forall t :: NamesTask(init + [rec], t) <==> NamesTask(init, t) || t == rec[TaskKey]
  {
    var records := init + [rec];
    assert records[|init|] == rec;
    forall t | NamesTask(records, t) && t != rec[TaskKey] ensures NamesTask(init, t) {
      var i :| 0 <= i < |records| && TaskKey in records[i] && records[i][TaskKey] == t;
      assert records[i] == init[i];
    }
    forall t | NamesTask(init, t) ensures NamesTask(records, t) {
      var i :| 0 <= i < |init| && TaskKey in init[i] && init[i][TaskKey] == t;
      assert records[i] == init[i];
    }
  }

  /** Every grouped record is some record without its `task` key. */
  lemma {:induction false} GroupEntries(records: seq<Record>)
    requires AllTasked(records)
    ensures forall t :: t in Group(records).entries ==>
              exists i :: 0 <= i < |records| && Group(records).entries[t] == records[i] - {TaskKey}
  {
    if |records| > 0 {
      var last := |records| - 1;
      var init := records[..last];
      assert forall i :: 0 <= i < last ==> init[i] == records[i];
      GroupEntries(init);
      var d := Group(init);
      var e := Group(records);
      assert e == Put(d, records[last][TaskKey], records[last] - {TaskKey});
      forall t | t in e.entries ensures exists i :: 0 <= i < |records| && e.entries[t] == records[i] - {TaskKey} {
        if t == records[last][TaskKey] {
          assert e.entries[t] == records[last] - {TaskKey};
        } else {
          var i :| 0 <= i < |init| && d.entries[t] == init[i] - {TaskKey};
          assert e.entries[t] == records[i] - {TaskKey};
        }
      }
    }
  }

  /** The index of the first record without a `task` key. */
  function FirstUntasked(records: seq<Record>): (i: nat)
    requires !AllTasked(records)
    ensures i < |records| && TaskKey !in records[i]
    ensures forall j :: 0 <= j < i ==> TaskKey in records[j]
  {
    if TaskKey !in records[0] then 0
    else
      assert forall j :: 1 <= j < |records| ==> records[1..][j - 1] == records[j];
      1 + FirstUntasked(records[1..])
  }

  /** `group_job_info_by_task`: maps each task to its record without the
      `task` key, a later record replacing an earlier one of the same task;
      fails on the first record that has no `task` key. */
  function GroupByTask(records: seq<Record>): (r: Result<Dict<Record>, Record>)
    ensures r.Failure? <==> !AllTasked(records)
    ensures r.Failure? ==> exists i ::
              && 0 <= i < |records|
              && r.error == records[i]
              && TaskKey !in records[i]
              && forall j :: 0 <= j < i ==> TaskKey in records[j]
    ensures r.Success? ==> Valid(r.value)
    ensures r.Success? ==> forall t :: t in r.value.entries <==> NamesTask(records, t)
    ensures r.Success? ==> forall t :: t in r.value.entries ==> TaskKey !in r.value.entries[t]
  {
    if AllTasked(records) then
      GroupNames(records);
      GroupEntries(records);
      Success(Group(records))
    else
      Failure(records[FirstUntasked(records)])
  }

  /** The last record of a task is the one the grouping keeps. */
  lemma GroupByTaskLastWins(records: seq<Record>, i: int)
    requires AllTasked(records)
    requires 0 <= i < |records|
    requires forall j :: i < j < |records| ==> records[j][TaskKey] != records[i][TaskKey]
    ensures GroupByTask(records).Success?
    ensures records[i][TaskKey] in GroupByTask(records).value.entries
    ensures GroupByTask(records).value.entries[records[i][TaskKey]] == records[i] - {TaskKey}
  {
    GroupLastWins(records, i);
  }

  lemma {:induction false} GroupLastWins(records: seq<Record>, i: int)
    requires AllTasked(records)
    requires 0 <= i < |records|
    requires forall j :: i < j < |records| ==> records[j][TaskKey] != records[i][TaskKey]
    ensures records[i][TaskKey] in Group(records).entries
    ensures Group(records).entries[records[i][TaskKey]] == records[i] - {TaskKey}
  {
    var last := |records| - 1;
    var init := records[..last];
    var rec := records[last];
    assert init + [rec] == records;
    GroupSnoc(init, rec);
    if i < last {
      assert forall j :: 0 <= j < last ==> init[j] == records[j];
      GroupLastWins(init, i);
      PutOther(Group(init), rec[TaskKey], rec - {TaskKey}, records[i][TaskKey]);
    } else {
      PutSame(Group(init), rec[TaskKey], rec - {TaskKey});
    }
  }

  /** Grouping only removes the `task` key, so the job fields of the
      records survive in every task entry. */
  lemma GroupByTaskKeepsFields(records: seq<Record>)
    requires AllTasked(records)
    requires forall i :: 0 <= i < |records| ==> JobFields(records[i])
    ensures forall t :: t in GroupByTask(records).value.entries ==> JobFields(GroupByTask(records).value.entries[t])
  {
    var d := GroupByTask(records).value;
    GroupEntries(records);
    forall t | t in d.entries ensures JobFields(d.entries[t]) {
      var i :| 0 <= i < |records| && d.entries[t] == records[i] - {TaskKey};
      assert JobFields(records[i]);
    }
  }

  /** The project state a build's tasks add up to. */
  datatype State = Passed | Failed

  /** Every task record has a `state`. */
  predicate HasStates(d: Dict<Record>) {
    forall t :: t in d.entries ==> "state" in d.entries[t]
  }

  function StateOver(keys: seq<string>, entries: map<string, Record>): (s: State)
    requires forall i :: 0 <= i < |keys| ==> keys[i] in entries && "state" in entries[keys[i]]
    ensures s == Passed <==> forall i :: 0 <= i < |keys| ==> entries[keys[i]]["state"] == "passed"
  {
    if |keys| == 0 then Passed
    else if entries[keys[0]]["state"] != "passed" then Failed
    else StateOver(keys[1..], entries)
  }

  /** `get_project_state`: passed iff every task passed; an empty task map
      is passed. */
  function ProjectState(d: Dict<Record>): (s: State)
    requires Valid(d) && HasStates(d)
    ensures s == Passed <==> forall t :: t in d.entries ==> d.entries[t]["state"] == "passed"
    ensures s == Failed <==> exists t :: t in d.entries && d.entries[t]["state"] != "passed"
    ensures |d.keys| == 0 ==> s == Passed
  {
    assert forall t :: t in d.entries ==> exists i :: 0 <= i < |d.keys| && d.keys[i] == t;
    StateOver(d.keys, d.entries)
  }
}
