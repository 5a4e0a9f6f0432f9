/** Splitting one downstream build, which runs every configured project,
    into a result per project (buildkite/bazel_auto_sheriff.py, lines
    403-447). Jobs are correlated to projects through the `--http_config`
    argument of their command line. */
module Downstream {
  import opened Wrappers
  import opened Dicts
  import opened Jobs

  /** One entry of the production project configuration. */
  datatype ProjectConfig = ProjectConfig(name: string, httpConfig: string)

  /** A finished build as the Buildkite API describes it. */
  datatype RawBuild = RawBuild(commit: string, number: nat, jobs: seq<Job>)

  /** The part of the downstream build that belongs to one project. */
  datatype ProjectResult = ProjectResult(
    bazelCommit: string,
    buildNumber: nat,
    commit: string,
    tasks: Dict<Record>,
    state: State)

  /** The arguments downstream jobs are extracted with (besides `task`). */
  const DownstreamArgKeys: seq<string> := ["http_config", "git_commit"]

  /** Maps each configuration to the project declaring it; when two projects
      declare the same one, the later project wins. */
  function ConfigToProject(projects: seq<ProjectConfig>): (m: map<string, string>)
    ensures forall c :: c in m <==> Declared(projects, c)
    ensures forall i :: 0 <= i < |projects| && LastToDeclare(projects, i) ==>
              projects[i].httpConfig in m && m[projects[i].httpConfig] == projects[i].name
  {
    ConfigMapKeys(projects);
    ConfigMapLastWinsAll(projects);
    ConfigMap(projects)
  }

  /** Some project declares configuration `c`. */
  predicate Declared(projects: seq<ProjectConfig>, c: string) {
    exists i :: 0 <= i < |projects| && projects[i].httpConfig == c
  }

  /** No later project declares the configuration of `projects[i]`. */
  predicate LastToDeclare(projects: seq<ProjectConfig>, i: int)
    requires 0 <= i < |projects|
  {
    forall j :: i < j < |projects| ==> projects[j].httpConfig != projects[i].httpConfig
  }

  /** `{p["http_config"]: p["name"] for p in projects}`, one assignment per project. */
  function ConfigMap(projects: seq<ProjectConfig>): map<string, string> {
    if |projects| == 0 then map[]
    else
      var last := |projects| - 1;
      ConfigMap(projects[..last])[projects[last].httpConfig := projects[last].name]
  }

  lemma {:induction false} ConfigMapKeys(projects: seq<ProjectConfig>)
    ensures forall c :: c in ConfigMap(projects) <==> Declared(projects, c)
  {
    if |projects| > 0 {
      var last := |projects| - 1;
      var init := projects[..last];
      ConfigMapKeys(init);
      forall c ensures c in ConfigMap(projects) <==> Declared(projects, c) {
        if Declared(init, c) {
          var i :| 0 <= i < |init| && init[i].httpConfig == c;
          assert projects[i] == init[i];
        }
        if Declared(projects, c) && c != projects[last].httpConfig {
          var i :| 0 <= i < |projects| && projects[i].httpConfig == c;
          assert init[i] == projects[i];
        }
      }
    }
  }

  lemma {:induction false} ConfigMapLastWins(projects: seq<ProjectConfig>, i: int)
    requires 0 <= i < |projects| && LastToDeclare(projects, i)
    ensures projects[i].httpConfig in ConfigMap(projects)
    ensures ConfigMap(projects)[projects[i].httpConfig] == projects[i].name
  {
    var last := |projects| - 1;
    var init := projects[..last];
    if i < last {
      assert forall j :: 0 <= j < last ==> init[j] == projects[j];
      ConfigMapLastWins(init, i);
    }
  }

  lemma ConfigMapLastWinsAll(projects: seq<ProjectConfig>)
    ensures forall i :: 0 <= i < |projects| && LastToDeclare(projects, i) ==>
              projects[i].httpConfig in ConfigMap(projects) && ConfigMap(projects)[projects[i].httpConfig] == projects[i].name
  {
    forall i | 0 <= i < |projects| && LastToDeclare(projects, i)
      ensures projects[i].httpConfig in ConfigMap(projects) && ConfigMap(projects)[projects[i].httpConfig] == projects[i].name
    {
      ConfigMapLastWins(projects, i);
    }
  }

  /** What an extracted downstream record is known to carry. */
  predicate DownstreamFields(rec: Record) {
    "http_config" in rec && "git_commit" in rec && TaskKey in rec && JobFields(rec)
  }

  predicate AllDownstreamFields(records: seq<Record>) {
    forall i :: 0 <= i < |records| ==> DownstreamFields(records[i])
  }

  lemma {:induction false} RunnerRecordsFields(jobs: seq<Job>)
    ensures AllDownstreamFields(RunnerRecords(jobs, DownstreamArgKeys))
  {
    var rs := RunnerRecords(jobs, DownstreamArgKeys);
    RunnerRecordsKeys(jobs, DownstreamArgKeys);
    assert "http_config" in DownstreamArgKeys && "git_commit" in DownstreamArgKeys;
    forall i | 0 <= i < |rs| ensures DownstreamFields(rs[i]) {
      assert "http_config" in rs[i] && "git_commit" in rs[i];
    }
  }

  predicate AllConfigured(records: seq<Record>) {
    forall i :: 0 <= i < |records| ==> "http_config" in records[i]
  }

  /** Every record names a configuration known to `cfg`. */
  predicate AllKnown(records: seq<Record>, cfg: map<string, string>)
    requires AllConfigured(records)
  {
    forall i :: 0 <= i < |records| ==> records[i]["http_config"] in cfg
  }

  /** The record names a configuration that `cfg` assigns to `project`. */
  predicate OwnedBy(rec: Record, cfg: map<string, string>, project: string) {
    "http_config" in rec && rec["http_config"] in cfg && cfg[rec["http_config"]] == project
  }

  /** The records that belong to `project`, in order: the reference for what
      the bucketing loop collects. */
  function RecordsOf(records: seq<Record>, cfg: map<string, string>, project: string): seq<Record> {
    if |records| == 0 then []
    else
      var last := |records| - 1;
      RecordsOf(records[..last], cfg, project) + (if OwnedBy(records[last], cfg, project) then [records[last]] else [])
  }

  /** The reference keeps every record the project owns and nothing else,
      so it is empty iff the project owns no record. */
  lemma {:induction false} RecordsOfMembers(records: seq<Record>, cfg: map<string, string>, project: string)
    ensures var rs := RecordsOf(records, cfg, project);
            && (|rs| > 0 <==> exists i :: 0 <= i < |records| && OwnedBy(records[i], cfg, project))
            && (forall i :: 0 <= i < |rs| ==> rs[i] in records && OwnedBy(rs[i], cfg, project))
            && (forall i :: 0 <= i < |records| && OwnedBy(records[i], cfg, project) ==> records[i] in rs)
  {
    if |records| > 0 {
      var last := |records| - 1;
      var init := records[..last];
      assert forall i :: 0 <= i < last ==> init[i] == records[i];
      RecordsOfMembers(init, cfg, project);
    }
  }

  /** The records of two runs are those of the first run followed by those
      of the second: the reference keeps the records' order and every
      duplicate. */
  lemma {:induction false} RecordsOfAppend(a: seq<Record>, b: seq<Record>, cfg: map<string, string>, project: string)
    ensures RecordsOf(a + b, cfg, project) == RecordsOf(a, cfg, project) + RecordsOf(b, cfg, project)
    decreases |b|
  {
    if |b| == 0 {
      assert a + b == a;
    } else {
      var last := |b| - 1;
      var ab := a + b;
      var tail := if OwnedBy(b[last], cfg, project) then [b[last]] else [];
      assert ab[..|ab| - 1] == a + b[..last];
      assert ab[|ab| - 1] == b[last];
      assert RecordsOf(ab, cfg, project) == RecordsOf(a + b[..last], cfg, project) + tail;
      assert RecordsOf(b, cfg, project) == RecordsOf(b[..last], cfg, project) + tail;
      RecordsOfAppend(a, b[..last], cfg, project);
    }
  }

  /** A single record is kept iff the project owns it. */
  lemma RecordsOfOne(rec: Record, cfg: map<string, string>, project: string)
    ensures RecordsOf([rec], cfg, project) == if OwnedBy(rec, cfg, project) then [rec] else []
  {
    assert [rec][..0] == [];
  }

  /** The loop of lines 430-440: appends each record to its project's list,
      creating the list at the project's first record; fails as soon as a
      record names a configuration no project declares. */
  function Bucket(records: seq<Record>, cfg: map<string, string>): (r: Result<Dict<seq<Record>>, string>)
    requires AllConfigured(records)
    ensures r.Failure? <==> !AllKnown(records, cfg)
    ensures r.Failure? ==> r.error !in cfg
    ensures r.Failure? ==> exists i :: 0 <= i < |records| && r.error == records[i]["http_config"]
    ensures r.Success? ==> Valid(r.value)
  {
    if |records| == 0 then Success(Empty())
    else
      var last := |records| - 1;
      var init := records[..last];
      assert forall i :: 0 <= i < last ==> init[i] == records[i];
      match Bucket(init, cfg)
      case Failure(e) => Failure(e)
      case Success(d) =>
        var config := records[last]["http_config"];
        if config !in cfg then Failure(config)
        else
          var project := cfg[config];
          Success(Put(d, project, (if project in d.entries then d.entries[project] else []) + [records[last]]))
  }

  /** Each project's bucket is exactly its records, in order, and a project
      gets a bucket only when it has a record. */
  lemma {:induction false} BucketCollects(records: seq<Record>, cfg: map<string, string>)
    requires AllConfigured(records) && AllKnown(records, cfg)
    ensures Bucket(records, cfg).Success?
    ensures forall p :: p in Bucket(records, cfg).value.entries ==>
              Bucket(records, cfg).value.entries[p] == RecordsOf(records, cfg, p)
              && |Bucket(records, cfg).value.entries[p]| > 0
    ensures forall p :: p !in Bucket(records, cfg).value.entries ==> RecordsOf(records, cfg, p) == []
  {
    if |records| > 0 {
      var last := |records| - 1;
      var init := records[..last];
      assert forall i :: 0 <= i < last ==> init[i] == records[i];
      BucketCollects(init, cfg);
      var d := Bucket(init, cfg).value;
      var e := Bucket(records, cfg).value;
      var project := cfg[records[last]["http_config"]];
      forall p
        ensures p in e.entries ==> e.entries[p] == RecordsOf(records, cfg, p) && |e.entries[p]| > 0
        ensures p !in e.entries ==> RecordsOf(records, cfg, p) == []
      {
        assert RecordsOf(records, cfg, p)
            == RecordsOf(init, cfg, p) + (if OwnedBy(records[last], cfg, p) then [records[last]] else []);
        assert OwnedBy(records[last], cfg, p) <==> p == project;
      }
    }
  }

  /** A project gets a bucket iff it owns a record, and every bucketed
      record is one of the records. */
  lemma BucketOwners(records: seq<Record>, cfg: map<string, string>)
    requires AllConfigured(records) && AllKnown(records, cfg)
    ensures Bucket(records, cfg).Success?
    ensures var d := Bucket(records, cfg).value;
            forall p :: p in d.entries <==> exists i :: 0 <= i < |records| && OwnedBy(records[i], cfg, p)
    ensures var d := Bucket(records, cfg).value;
            forall p :: p in d.entries ==> forall rec :: rec in d.entries[p] ==> rec in records
  {
    BucketCollects(records, cfg);
    var d := Bucket(records, cfg).value;
    forall p
      ensures p in d.entries <==> exists i :: 0 <= i < |records| && OwnedBy(records[i], cfg, p)
      ensures p in d.entries ==> forall rec :: rec in d.entries[p] ==> rec in records
    {
      RecordsOfMembers(records, cfg, p);
    }
  }

  /** `pr` is the result the sheriff builds for a project from its records
      `own` (lines 434-445). */
  predicate ResultFor(build: RawBuild, own: seq<Record>, pr: ProjectResult) {
    && |own| > 0
    && AllTasked(own)
    && "git_commit" in own[0]
    && pr.bazelCommit == build.commit
    && pr.buildNumber == build.number
    && pr.commit == own[0]["git_commit"]
    && pr.tasks == GroupByTask(own).value
    && (forall t :: t in pr.tasks.entries ==> JobFields(pr.tasks.entries[t]))
    && (pr.state == Passed <==> forall t :: t in pr.tasks.entries ==> pr.tasks.entries[t]["state"] == "passed")
  }

  /** One project's result, built from its non-empty list of records. */
  function ProjectResultOf(build: RawBuild, records: seq<Record>): (r: ProjectResult)
    requires |records| > 0
    requires AllDownstreamFields(records)
    ensures ResultFor(build, records, r)
  {
    assert AllTasked(records) by {
      forall i | 0 <= i < |records| ensures TaskKey in records[i] {
        assert DownstreamFields(records[i]);
      }
    }
    assert forall i :: 0 <= i < |records| ==> JobFields(records[i]) by {
      forall i | 0 <= i < |records| ensures JobFields(records[i]) {
        assert DownstreamFields(records[i]);
      }
    }
    assert DownstreamFields(records[0]);
    var tasks := GroupByTask(records).value;
    GroupByTaskKeepsFields(records);
    ProjectResult(build.commit, build.number, records[0]["git_commit"], tasks, ProjectState(tasks))
  }

  /** One result per bucket, in bucket order. */
  function ResultsOf(build: RawBuild, buckets: Dict<seq<Record>>): (r: Dict<ProjectResult>)
    requires Valid(buckets)
    requires forall p :: p in buckets.entries ==> |buckets.entries[p]| > 0 && AllDownstreamFields(buckets.entries[p])
    ensures Valid(r)
    ensures r.keys == buckets.keys && r.entries.Keys == buckets.entries.Keys
    ensures forall p :: p in r.entries ==> ResultFor(build, buckets.entries[p], r.entries[p])
  {
    Dict(buckets.keys, map p | p in buckets.entries :: ProjectResultOf(build, buckets.entries[p]))
  }

  /** The per-project results of the runner records of a build (lines
      430-445): one result per project that owns a record, keyed and ordered
      by the project's first record, built from exactly that project's
      records; fails with the configuration of a record no project declares. */
  function ResultsByProject(build: RawBuild, records: seq<Record>, cfg: map<string, string>)
    : (r: Result<Dict<ProjectResult>, string>)
    requires AllDownstreamFields(records)
    ensures AllConfigured(records)
    ensures r.Failure? <==> !AllKnown(records, cfg)
    ensures r.Failure? ==> r.error !in cfg
    ensures r.Success? ==> Valid(r.value)
    ensures r.Success? ==> forall p :: p in r.value.entries <==>
              exists i :: 0 <= i < |records| && OwnedBy(records[i], cfg, p)
    ensures r.Success? ==> forall p :: p in r.value.entries ==>
              ResultFor(build, RecordsOf(records, cfg, p), r.value.entries[p])
  {
    assert AllConfigured(records) by {
      forall i | 0 <= i < |records| ensures "http_config" in records[i] {
        assert DownstreamFields(records[i]);
      }
    }
    match Bucket(records, cfg)
    case Failure(config) => Failure(config)
    case Success(buckets) =>
      BucketCollects(records, cfg);
      BucketOwners(records, cfg);
      assert forall p :: p in buckets.entries ==> AllDownstreamFields(buckets.entries[p]) by {
        forall p, i | p in buckets.entries && 0 <= i < |buckets.entries[p]|
          ensures DownstreamFields(buckets.entries[p][i])
        {
          assert buckets.entries[p][i] in buckets.entries[p];
        }
      }
      var result := ResultsOf(build, buckets);
      Success(result)
  }

  /** Some record names a configuration no project declares. */
  predicate SomeUndeclared(records: seq<Record>, projects: seq<ProjectConfig>)
    requires AllConfigured(records)
  {
    exists i :: 0 <= i < |records| && !Declared(projects, records[i]["http_config"])
  }

  /** `get_downstream_result_by_project`: extracts the runner jobs of the
      downstream build with their `--http_config` and `--git_commit`
      arguments and groups them by the project that declares the
      configuration. It fails, with such a configuration, iff some runner
      job names a configuration no project declares; otherwise there is one
      result per project that owns a runner job, built from exactly that
      project's records. */
  function DownstreamResultByProject(build: RawBuild, projects: seq<ProjectConfig>)
    : (r: Result<Dict<ProjectResult>, string>)
    ensures var records := RunnerRecords(build.jobs, DownstreamArgKeys);
            && AllDownstreamFields(records) && AllConfigured(records)
            && (r.Failure? <==> SomeUndeclared(records, projects))
            && (r.Failure? ==> !Declared(projects, r.error))
    ensures var records := RunnerRecords(build.jobs, DownstreamArgKeys);
            var cfg := ConfigToProject(projects);
            r.Success? ==>
              && Valid(r.value)
              && (forall p :: p in r.value.entries <==> exists i :: 0 <= i < |records| && OwnedBy(records[i], cfg, p))
              && (forall p :: p in r.value.entries ==> ResultFor(build, RecordsOf(records, cfg, p), r.value.entries[p]))
  {
    var records := RunnerRecords(build.jobs, DownstreamArgKeys);
    var cfg := ConfigToProject(projects);
    RunnerRecordsFields(build.jobs);
    var r := ResultsByProject(build, records, cfg);
    assert r.Failure? <==> SomeUndeclared(records, projects) by {
      if SomeUndeclared(records, projects) {
        var i :| 0 <= i < |records| && !Declared(projects, records[i]["http_config"]);
        assert records[i]["http_config"] !in cfg;
      }
    }
    r
  }
}
