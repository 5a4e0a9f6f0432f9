/** The lines a project's analysis writes to its narrative, by what they
    say. `Render` spells each out exactly as the sheriff prints it
    (buildkite/bazel_auto_sheriff.py, lines 84-310); the colour codes and
    HTML wrapping around them are not modelled. */
module Narrative {
  import opened Strings

  datatype Line =
    | Blank
    | Verbatim(text: string)                        // a bisect report
    | JobLine(name: string, url: string)            // one entry of a job list
    | NoRecentBuild(pipeline: string)
    | StartMain
    | FailingInMain
    | RetryingMain
    | StillFailingMain
    | LastGreenIs(commit: string)
    | StartDownstream
    | FailingInDownstream
    | RetryingDownstream
    | StillFailingDownstream
    | Flaky
    | BisectingStill
    | MissingBisectJob(task: string, buildUrl: string)
    | BisectResultFor(name: string)
    | BothPassed
    | MainFailedOnly
    | DownstreamFailedOnly
    | BothFailed
    | RebuildAt(commit: string)
    | FailedAtLastGreen
    | PassedAtLastGreen
    | RebuildUnknown(url: string)

  /** The text of a line. */
  function Render(line: Line): string {
    match line
    case Blank => ""
    case Verbatim(text) => text
    case JobLine(name, url) => "  " + name + ": " + url
    case NoRecentBuild(pipeline) =>
      "Cannot find finished build in the past day for pipeline " + pipeline
      + ", please try to rerun the pipeline first."
    case StartMain => "Start analyzing failures in main pipeline..."
    case FailingInMain => "The following tasks are failing in main pipeline"
    case RetryingMain => "Retry failed main pipeline tasks..."
    case StillFailingMain =>
      "The following tasks are still failing after retry, they are probably broken due to changes from the project itself."
    case LastGreenIs(commit) => "The last green commit is " + commit + ". Please file bug for the repository."
    case StartDownstream => "Start analyzing failures in downstream pipeline..."
    case FailingInDownstream => "The following tasks are failing in downstream pipeline"
    case RetryingDownstream => "Retry failed downstream pipeline tasks..."
    case StillFailingDownstream =>
      "The following tasks are still failing after retry, they are probably broken due to recent Bazel changes."
    case Flaky => "The following tasks succeeded after retry, they might be flaky"
    case BisectingStill => "Bisect for still failing tasks..."
    case MissingBisectJob(task, buildUrl) => "Bisect job for task " + task + " is missing in " + buildUrl
    case BisectResultFor(name) => "Bisect result for " + name
    case BothPassed => "Project passed in both main build and downstream build."
    case MainFailedOnly => "Project passed in downstream build, but failed in main build."
    case DownstreamFailedOnly => "Project passed in main build, but failed in downstream build."
    case BothFailed => "Project failed in both main build and downstream build."
    case RebuildAt(commit) => "Rebuild at last green commit " + commit + "..."
    case FailedAtLastGreen =>
      "Project failed at last green commit. This is probably caused by an infra change, please ping philwo@ or pcloudy@."
    case PassedAtLastGreen =>
      "Project succeeded at last green commit. Maybe main pipeline and downstream pipeline are broken for different reasons."
    case RebuildUnknown(url) =>
      "Rebuilding project at last green commit failed with unknown reason. Please check " + url
  }

  /** A job line is indented and carries the job's name, then its link at
      the end. */
  lemma RenderJobLine(name: string, url: string)
    ensures var r := Render(JobLine(name, url));
            StartsWith(r, "  ") && Contains(r, name) && EndsWith(r, url)
  {
    ContainsMiddle("  ", name, ": " + url);
    assert Render(JobLine(name, url)) == "  " + name + (": " + url);
  }

  /** The lines about the last green commit name it. */
  lemma RenderCommit(commit: string)
    ensures Contains(Render(LastGreenIs(commit)), commit)
    ensures Contains(Render(RebuildAt(commit)), commit)
  {
    ContainsMiddle("The last green commit is ", commit, ". Please file bug for the repository.");
    ContainsMiddle("Rebuild at last green commit ", commit, "...");
  }

  /** An error names what it is about and, when it is about a build, ends
      with that build's link; a bisect heading ends with the task's name. */
  lemma RenderErrors(pipeline: string, task: string, url: string)
    ensures Contains(Render(NoRecentBuild(pipeline)), pipeline)
    ensures Contains(Render(MissingBisectJob(task, url)), task) && EndsWith(Render(MissingBisectJob(task, url)), url)
    ensures EndsWith(Render(RebuildUnknown(url)), url)
    ensures EndsWith(Render(BisectResultFor(task)), task)
  {
    ContainsMiddle("Cannot find finished build in the past day for pipeline ", pipeline,
                   ", please try to rerun the pipeline first.");
    ContainsMiddle("Bisect job for task ", task, " is missing in " + url);
    assert Render(MissingBisectJob(task, url)) == "Bisect job for task " + task + (" is missing in " + url);
  }
}
