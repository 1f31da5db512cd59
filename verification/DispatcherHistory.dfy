/** What the dispatcher has done for a job, from the steps of the run alone: what was submitted, what the analysis
    met and what the saver answered. */
module DispatcherHistory {
  import opened Basics
  import opened ItemAnalysisDispatcher

  /** The step did something where it came. */
  predicate Counts(skipAi: bool, concurrency: int, steps: seq<Step>, n: nat)
    requires n < |steps|
  {
    Exec(skipAi, concurrency, steps[..n + 1]) != Exec(skipAi, concurrency, steps[..n])
  }

  /** What was submitted under this id. */
  function SpecOf(steps: seq<Step>, j: JobId): Option<Spec>
    decreases |steps|
  {
    var n := |steps| - 1;
    if n < 0 then None
    else if SpecOf(steps[..n], j).Some? then SpecOf(steps[..n], j)
    else if steps[n].Submit? && steps[n].job == j then Some(steps[n].spec)
    else None
  }

  /** What the analysis of this job met. */
  function FindingOf(skipAi: bool, concurrency: int, steps: seq<Step>, j: JobId): Option<Finding>
    decreases |steps|
  {
    var n := |steps| - 1;
    if n < 0 then None
    else if steps[n].Analyse? && steps[n].job == j && Counts(skipAi, concurrency, steps, n) then Some(steps[n].finding)
    else FindingOf(skipAi, concurrency, steps[..n], j)
  }

  datatype SaverAnswer = NoAnswer | Answered(saved: bool) | Raised

  /** What the saver answered for this job. */
  function AnswerOf(skipAi: bool, concurrency: int, steps: seq<Step>, j: JobId): SaverAnswer
    decreases |steps|
  {
    var n := |steps| - 1;
    if n < 0 then NoAnswer
    else if steps[n].SaverReturns? && steps[n].job == j && Counts(skipAi, concurrency, steps, n) then Answered(steps[n].saved)
    else if steps[n].SaverRaises? && steps[n].job == j && Counts(skipAi, concurrency, steps, n) then Raised
    else AnswerOf(skipAi, concurrency, steps[..n], j)
  }

  /** The item is worth a notice: a keyword job has a hit; another job skips the AI, or has a prompt and the AI
      recommends it. */
  predicate Worth(skipAi: bool, spec: Spec, finding: Finding) {
    || (spec.byKeyword && finding.Hits? && finding.count >= 1)
    || (!spec.byKeyword && skipAi)
    || (!spec.byKeyword && !skipAi && spec.hasPrompt && finding.Said? && finding.recommended)
  }

  /** How far a job has come, by its stage. */
  predicate Followed(skipAi: bool, job: Job, spec: Option<Spec>, finding: Option<Finding>, answer: SaverAnswer) {
    && spec == Some(job.spec)
    && (finding.Some? <==> job.stage !in {Waiting, LoadingSeller, Analysing})
    && (finding.Some? ==> (job.recommended <==> Worth(skipAi, job.spec, finding.value)))
    && (answer == NoAnswer <==> job.stage in {Waiting, LoadingSeller, Analysing, Saving})
    && (answer == Raised <==> job.stage == Crashed)
    && (job.saved <==> answer == Answered(true))
  }

  ghost predicate Follows(skipAi: bool, concurrency: int, steps: seq<Step>, j: JobId) {
    var s := Exec(skipAi, concurrency, steps);
    if j in s.jobs
    then Followed(skipAi, s.jobs[j], SpecOf(steps, j), FindingOf(skipAi, concurrency, steps, j), AnswerOf(skipAi, concurrency, steps, j))
    else SpecOf(steps, j) == None && FindingOf(skipAi, concurrency, steps, j) == None
         && AnswerOf(skipAi, concurrency, steps, j) == NoAnswer
  }

  /** The histories after one more step. */
  function NextSpec(spec: Option<Spec>, step: Step, j: JobId): Option<Spec> {
    if spec.None? && step.Submit? && step.job == j then Some(step.spec) else spec
  }

  function NextFinding(finding: Option<Finding>, step: Step, counts: bool, j: JobId): Option<Finding> {
    if step.Analyse? && step.job == j && counts then Some(step.finding) else finding
  }

  function NextAnswer(answer: SaverAnswer, step: Step, counts: bool, j: JobId): SaverAnswer {
    if step.SaverReturns? && step.job == j && counts then Answered(step.saved)
    else if step.SaverRaises? && step.job == j && counts then Raised
    else answer
  }

  lemma OneMoreStep(skipAi: bool, concurrency: int, steps: seq<Step>, n: nat, j: JobId)
    requires n + 1 == |steps|
    ensures var counts := Counts(skipAi, concurrency, steps, n);
            && Exec(skipAi, concurrency, steps) == Apply(skipAi, Exec(skipAi, concurrency, steps[..n]), steps[n])
            && counts == (Exec(skipAi, concurrency, steps) != Exec(skipAi, concurrency, steps[..n]))
            && SpecOf(steps, j) == NextSpec(SpecOf(steps[..n], j), steps[n], j)
            && FindingOf(skipAi, concurrency, steps, j)
               == NextFinding(FindingOf(skipAi, concurrency, steps[..n], j), steps[n], counts, j)
            && AnswerOf(skipAi, concurrency, steps, j)
               == NextAnswer(AnswerOf(skipAi, concurrency, steps[..n], j), steps[n], counts, j)
  {
    assert steps[..n + 1] == steps;
  }

  lemma StepFollows(skipAi: bool, s: State, step: Step, j: JobId, spec: Option<Spec>, finding: Option<Finding>, answer: SaverAnswer)
    requires if j in s.jobs then Followed(skipAi, s.jobs[j], spec, finding, answer)
             else spec == None && finding == None && answer == NoAnswer
    ensures var t := Apply(skipAi, s, step);
            if j in t.jobs
            then Followed(skipAi, t.jobs[j], NextSpec(spec, step, j), NextFinding(finding, step, t != s, j),
                          NextAnswer(answer, step, t != s, j))
            else NextSpec(spec, step, j) == None && NextFinding(finding, step, t != s, j) == None
                 && NextAnswer(answer, step, t != s, j) == NoAnswer
  {
    var t := Apply(skipAi, s, step);
    if (step.Analyse? || step.SaverReturns? || step.SaverRaises?) && step.job == j {
      assert t != s ==> j in s.jobs && t.jobs[j].stage != s.jobs[j].stage;
    }
  }

  lemma {:induction false} RunFollows(skipAi: bool, concurrency: int, steps: seq<Step>, j: JobId)
    ensures Follows(skipAi, concurrency, steps, j)
    decreases |steps|
  {
    if steps != [] {
      var n := |steps| - 1;
      RunFollows(skipAi, concurrency, steps[..n], j);
      OneMoreStep(skipAi, concurrency, steps, n, j);
      StepFollows(skipAi, Exec(skipAi, concurrency, steps[..n]), steps[n], j, SpecOf(steps[..n], j),
                  FindingOf(skipAi, concurrency, steps[..n], j), AnswerOf(skipAi, concurrency, steps[..n], j));
    }
  }

  /** Over all interleavings, a job that ran to its end was submitted and analysed, and has had exactly one
      notice if what the analysis met is worth one, and none otherwise, whatever the saver answered. */
  lemma NoticesAreDue(skipAi: bool, concurrency: int, steps: seq<Step>, j: JobId)
    requires At(Exec(skipAi, concurrency, steps), j, Finished)
    ensures var job := Exec(skipAi, concurrency, steps).jobs[j];
            var spec, finding := SpecOf(steps, j), FindingOf(skipAi, concurrency, steps, j);
            && spec.Some? && finding.Some?
            && job.notifierCalls == (if Worth(skipAi, spec.value, finding.value) then 1 else 0)
            && job.saverCalls == 1 && AnswerOf(skipAi, concurrency, steps, j).Answered?
  {
    RunFollows(skipAi, concurrency, steps, j);
    ExecKeepsInv(skipAi, concurrency, steps);
    assert CallsMatchStage(Exec(skipAi, concurrency, steps).jobs[j]);
  }

  /** A job has crashed exactly when its saver raised. */
  lemma CrashesAreRaises(skipAi: bool, concurrency: int, steps: seq<Step>, j: JobId)
    ensures At(Exec(skipAi, concurrency, steps), j, Crashed) <==> AnswerOf(skipAi, concurrency, steps, j) == Raised
  {
    RunFollows(skipAi, concurrency, steps, j);
  }

  /** The jobs for which the saver answered that it has saved. */
  function SavedFor(skipAi: bool, concurrency: int, steps: seq<Step>): set<JobId> {
    set j | j in Exec(skipAi, concurrency, steps).jobs && AnswerOf(skipAi, concurrency, steps, j) == Answered(true)
  }

  /** The counter is their number. */
  lemma CounterCountsSaved(skipAi: bool, concurrency: int, steps: seq<Step>)
    ensures Exec(skipAi, concurrency, steps).completed == |SavedFor(skipAi, concurrency, steps)|
  {
    var s := Exec(skipAi, concurrency, steps);
    ExecKeepsInv(skipAi, concurrency, steps);
    forall j | j in s.jobs ensures s.jobs[j].saved <==> AnswerOf(skipAi, concurrency, steps, j) == Answered(true) {
      RunFollows(skipAi, concurrency, steps, j);
    }
    assert SavedJobs(s) == SavedFor(skipAi, concurrency, steps);
  }
}
