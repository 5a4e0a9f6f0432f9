/** The boundary between the sheriff and the outside world. The Buildkite
    client is a value of total functions (what each remote call answers), and
    every remote call and every line written to a project's narrative is
    recorded as an `Event`, so an analysis is a pure function from its inputs
    to the sequence of events it causes. */
module Remote {
  import opened Wrappers
  import opened Jobs
  import opened Narrative

  /** The three pipelines the sheriff talks to: the project's own pipeline,
      the shared downstream pipeline and the culprit finder. */
  datatype Pipeline = MainPipeline | DownstreamPipeline | CulpritFinder

  /** The colour a narrative line is written in (the `COLORS` keys). */
  datatype Tone = Serious | Header | Good | Warning | Fail | Info

  datatype Event =
    | Log(tone: Tone, line: Line)                   // appended to the project's narrative
    | LogSuccess(line: Line)                        // appended to the shared success log
    | RetryJob(pipeline: Pipeline, build: nat, jobId: string)
    | WaitJob(pipeline: Pipeline, build: nat, jobId: string)
    | NewBuild(pipeline: Pipeline, commit: string, message: Option<string>, env: map<string, string>)
    | WaitBuild(pipeline: Pipeline, build: nat)
    | FetchLog(pipeline: Pipeline, job: Job)

  /** The pipeline a remote call goes to; narrative lines go nowhere. */
  function PipelineOf(e: Event): Option<Pipeline> {
    match e
    case Log(_, _) => None
    case LogSuccess(_) => None
    case RetryJob(p, _, _) => Some(p)
    case WaitJob(p, _, _) => Some(p)
    case NewBuild(p, _, _, _) => Some(p)
    case WaitBuild(p, _) => Some(p)
    case FetchLog(p, _) => Some(p)
  }

  /** A build once it has reached a terminal state. */
  datatype FinishedBuild = FinishedBuild(state: string, webUrl: string, jobs: seq<Job>)

  /** What a pipeline's Buildkite client answers:
      `trigger_job_retry` (the id of the new job), `wait_job_to_finish`,
      `trigger_new_build` (the new build's number), `wait_build_to_finish`
      and `get_build_log`. */
  datatype Client = Client(
    retryJob: (nat, string) -> string,
    waitJob: (nat, string) -> Record,
    newBuild: (string, Option<string>, map<string, string>) -> nat,
    waitBuild: nat -> FinishedBuild,
    buildLog: Job -> string)

  /** Finished jobs returned by the client carry the fields the narrative
      prints. */
  ghost predicate Answers(c: Client) {
    forall b, j :: JobFields(c.waitJob(b, j))
  }

  /** An exception that ends a project's analysis: a `KeyError` on a missing
      field, or a `BuildkiteException` with the line it was logged as. */
  datatype Fatal = MissingField(key: string) | Raised(message: Line)

  /** The events of a computation and what it came to. */
  datatype Step<T> = Step(events: seq<Event>, outcome: Result<T, Fatal>)
}
