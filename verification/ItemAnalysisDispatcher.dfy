/** The dispatcher that analyses and saves items with bounded concurrency.

    A step is the code between two await points of `_process_job`, or one move of the event loop:
    a done-callback, or the loop of `join`. A step that cannot be taken leaves the state alone. */
module ItemAnalysisDispatcher {
  import opened Basics

  type JobId = nat

  /** What the job asks for: keyword mode, and whether it has a prompt. */
  datatype Spec = Spec(byKeyword: bool, hasPrompt: bool)

  /** What the analysis meets: keyword hits, an image download or an AI call that raises, no AI
      result, or an AI result with its recommendation. */
  datatype Finding = Hits(count: nat) | DownloadRaises | AiRaises | NoResult | Said(recommended: bool)

  /** `_build_analysis_result`, reduced to the recommendation it carries. */
  function Recommends(skipAi: bool, spec: Spec, finding: Finding): bool {
    if spec.byKeyword then finding.Hits? && finding.count > 0
    else if skipAi then true
    else if finding == DownloadRaises || !spec.hasPrompt then false
    else finding == Said(true)
  }

  datatype Stage = Waiting | LoadingSeller | Analysing | Saving | Notifying | Finished | Crashed

  /** `saverCalls`, `notifierCalls` and `saved` are history. */
  datatype Job = Job(spec: Spec, stage: Stage, recommended: bool, saverCalls: nat, notifierCalls: nat, saved: bool)

  datatype Joiner = Absent | Gathering(waitingFor: set<JobId>) | Returned | Failed

  datatype State = State(jobs: map<JobId, Job>, permits: int, tasks: set<JobId>, completed: nat, joiner: Joiner)

  datatype Step =
    | Submit(job: JobId, spec: Spec)
    | Enter(job: JobId)
    | SellerArrives(job: JobId)
    | Analyse(job: JobId, finding: Finding)
    | SaverReturns(job: JobId, saved: bool)
    | SaverRaises(job: JobId)
    | NotifierEnds(job: JobId)
    | Discard(job: JobId)
    | JoinBegins
    | JoinWakes

  function Init(concurrency: int): State {
    State(map[], Max(1, concurrency), {}, 0, Absent)
  }

  predicate At(s: State, j: JobId, stage: Stage) {
    j in s.jobs && s.jobs[j].stage == stage
  }

  function Put(s: State, j: JobId, job: Job): State {
    s.(jobs := s.jobs[j := job])
  }

  predicate Over(job: Job) {
    job.stage == Finished || job.stage == Crashed
  }

  /** The test at the head of the loop in `join`. */
  function JoinChecks(s: State): State {
    s.(joiner := if s.tasks == {} then Returned else Gathering(s.tasks))
  }

  predicate AllOver(s: State, js: set<JobId>) {
    forall j | j in js :: j in s.jobs && Over(s.jobs[j])
  }

  predicate AnyCrashed(s: State, js: set<JobId>) {
    exists j | j in js :: At(s, j, Crashed)
  }

  function Entered(s: State, j: JobId): State
    requires j in s.jobs
  {
    Put(s, j, s.jobs[j].(stage := LoadingSeller)).(permits := s.permits - 1)
  }

  function Analysed(skipAi: bool, s: State, j: JobId, finding: Finding): State
    requires j in s.jobs
  {
    var job := s.jobs[j];
    Put(s, j, job.(stage := Saving, recommended := Recommends(skipAi, job.spec, finding), saverCalls := job.saverCalls + 1))
  }

  function Saved(s: State, j: JobId, saved: bool): State
    requires j in s.jobs
  {
    var job := s.jobs[j].(saved := saved);
    var counted := s.(completed := s.completed + if saved then 1 else 0);
    if job.recommended then Put(counted, j, job.(stage := Notifying, notifierCalls := job.notifierCalls + 1))
    else Put(counted, j, job.(stage := Finished)).(permits := s.permits + 1)
  }

  function Ended(s: State, j: JobId, stage: Stage): State
    requires j in s.jobs
  {
    Put(s, j, s.jobs[j].(stage := stage)).(permits := s.permits + 1)
  }

  function Apply(skipAi: bool, s: State, step: Step): State {
    match step
    case Submit(j, spec) =>
      if j in s.jobs then s
      else Put(s, j, Job(spec, Waiting, false, 0, 0, false)).(tasks := s.tasks + {j})
    case Enter(j) => if At(s, j, Waiting) && s.permits > 0 then Entered(s, j) else s
    case SellerArrives(j) =>
      if At(s, j, LoadingSeller) then Put(s, j, s.jobs[j].(stage := Analysing)) else s
    case Analyse(j, finding) => if At(s, j, Analysing) then Analysed(skipAi, s, j, finding) else s
    case SaverReturns(j, saved) => if At(s, j, Saving) then Saved(s, j, saved) else s
    case SaverRaises(j) => if At(s, j, Saving) then Ended(s, j, Crashed) else s
    case NotifierEnds(j) => if At(s, j, Notifying) then Ended(s, j, Finished) else s
    case Discard(j) => if j in s.jobs && Over(s.jobs[j]) then s.(tasks := s.tasks - {j}) else s
    case JoinBegins => if s.joiner.Gathering? then s else JoinChecks(s)
    case JoinWakes =>
      if !s.joiner.Gathering? then s
      else if AnyCrashed(s, s.joiner.waitingFor) then s.(joiner := Failed)
      else if AllOver(s, s.joiner.waitingFor) then JoinChecks(s)
      else s
  }

  function Run(skipAi: bool, s: State, steps: seq<Step>): State
    decreases |steps|
  {
    if steps == [] then s else Apply(skipAi, Run(skipAi, s, steps[..|steps| - 1]), steps[|steps| - 1])
  }

  function Exec(skipAi: bool, concurrency: int, steps: seq<Step>): State {
    Run(skipAi, Init(concurrency), steps)
  }

  lemma {:induction false} RunAppend(skipAi: bool, s: State, first: seq<Step>, rest: seq<Step>)
    ensures Run(skipAi, s, first + rest) == Run(skipAi, Run(skipAi, s, first), rest)
    decreases |rest|
  {
    if rest == [] {
      assert first + rest == first;
    } else {
      assert (first + rest)[..|first + rest| - 1] == first + rest[..|rest| - 1];
      RunAppend(skipAi, s, first, rest[..|rest| - 1]);
    }
  }

  lemma RunOne(skipAi: bool, s: State, step: Step)
    ensures Run(skipAi, s, [step]) == Apply(skipAi, s, step)
  {
    assert [step][..0] == [];
  }

  // ----- the class -------------------------------------------------------------------------

  /** The dispatcher's own fields, `_semaphore`, `_tasks` and `completed_count`, and the coroutines
      it drives. Each method is one segment between two awaits. */
  class Dispatcher {
    const skipAi: bool
    var permits: int
    var tasks: set<JobId>
    var completedCount: nat
    var jobs: map<JobId, Job>
    var joiner: Joiner

    function View(): State
      reads this
    {
      State(jobs, permits, tasks, completedCount, joiner)
    }

    constructor (concurrency: int, skipAi: bool)
      ensures View() == Init(concurrency) && this.skipAi == skipAi
    {
      this.skipAi := skipAi;
      permits := Max(1, concurrency);
      tasks, completedCount, jobs, joiner := {}, 0, map[], Absent;
    }

    method SubmitJob(j: JobId, spec: Spec)
      requires j !in jobs
      modifies this
      ensures View() == Apply(skipAi, old(View()), Submit(j, spec))
    {
      jobs := jobs[j := Job(spec, Waiting, false, 0, 0, false)];
      tasks := tasks + {j};
    }

    /** `async with self._semaphore`: waits while no permit is left. */
    method Acquire(j: JobId) returns (entered: bool)
      requires At(View(), j, Waiting)
      modifies this
      ensures View() == Apply(skipAi, old(View()), Enter(j))
      ensures entered == (old(permits) > 0)
    {
      entered := permits > 0;
      if entered {
        permits := permits - 1;
        jobs := jobs[j := jobs[j].(stage := LoadingSeller)];
      }
    }

    /** The call of the saver, with the analysis result that precedes it. */
    method CallSaver(j: JobId, finding: Finding)
      requires At(View(), j, Analysing)
      modifies this
      ensures View() == Apply(skipAi, old(View()), Analyse(j, finding))
    {
      var job := jobs[j];
      var recommended := Recommends(skipAi, job.spec, finding);
      jobs := jobs[j := job.(stage := Saving, recommended := recommended, saverCalls := job.saverCalls + 1)];
    }

    /** After the saver: count a true answer, then notify or leave the semaphore. */
    method AfterSaver(j: JobId, saved: bool)
      requires At(View(), j, Saving)
      modifies this
      ensures View() == Apply(skipAi, old(View()), SaverReturns(j, saved))
    {
      var job := jobs[j].(saved := saved);
      if saved {
        completedCount := completedCount + 1;
      }
      if job.recommended {
        job := job.(stage := Notifying, notifierCalls := job.notifierCalls + 1);
      } else {
        job := job.(stage := Finished);
        permits := permits + 1;
      }
      jobs := jobs[j := job];
    }

    /** One turn of the loop in `join`: returns, or gathers every task present. */
    method JoinTurn()
      requires !joiner.Gathering? || (AllOver(View(), joiner.waitingFor) && !AnyCrashed(View(), joiner.waitingFor))
      modifies this`joiner
      ensures View() == Apply(skipAi, old(View()), if old(joiner).Gathering? then JoinWakes else JoinBegins)
    {
      if tasks == {} {
        joiner := Returned;
      } else {
        joiner := Gathering(tasks);
      }
    }
  }

  // ----- the invariant ---------------------------------------------------------------------

  predicate PastSemaphore(job: Job) {
    job.stage != Waiting && !Over(job)
  }

  function Inside(s: State): set<JobId> {
    set j | j in s.jobs && PastSemaphore(s.jobs[j])
  }

  /** The jobs whose saver returned true. */
  function SavedJobs(s: State): set<JobId> {
    set j | j in s.jobs && s.jobs[j].saved
  }

  /** Calls made so far, by stage. */
  predicate CallsMatchStage(job: Job) {
    match job.stage
    case Waiting => job.saverCalls == 0 && job.notifierCalls == 0 && !job.saved
    case LoadingSeller => job.saverCalls == 0 && job.notifierCalls == 0 && !job.saved
    case Analysing => job.saverCalls == 0 && job.notifierCalls == 0 && !job.saved
    case Saving => job.saverCalls == 1 && job.notifierCalls == 0 && !job.saved
    case Notifying => job.saverCalls == 1 && job.notifierCalls == 1 && job.recommended
    case Finished => job.saverCalls == 1 && job.notifierCalls == if job.recommended then 1 else 0
    case Crashed => job.saverCalls == 1 && job.notifierCalls == 0 && !job.saved
  }

  ghost predicate Inv(capacity: int, s: State) {
    && 0 <= s.permits && s.permits + |Inside(s)| == capacity
    && s.completed == |SavedJobs(s)|
    && (forall j | j in s.jobs :: CallsMatchStage(s.jobs[j]))
    && s.tasks <= s.jobs.Keys
    && (forall j | j in s.jobs && j !in s.tasks :: Over(s.jobs[j]))
    && (s.joiner.Gathering? ==> s.joiner.waitingFor <= s.jobs.Keys)
  }

  /** One job changes; the two sets follow it. */
  lemma PutSets(s: State, t: State, j: JobId)
    requires j in t.jobs && t.jobs == s.jobs[j := t.jobs[j]]
    ensures Inside(t) == (if PastSemaphore(t.jobs[j]) then Inside(s) + {j} else Inside(s) - {j})
    ensures SavedJobs(t) == (if t.jobs[j].saved then SavedJobs(s) + {j} else SavedJobs(s) - {j})
  {
  }

  function Bit(b: bool): int {
    if b then 1 else 0
  }

  /** A change of one job keeps the invariant when permits and counter move with it. */
  lemma JobChangeKeepsInv(capacity: int, s: State, t: State, j: JobId)
    requires Inv(capacity, s)
    requires j in t.jobs && t.jobs == s.jobs[j := t.jobs[j]] && CallsMatchStage(t.jobs[j])
    requires t.permits >= 0 && t.joiner == s.joiner
    requires t.permits == s.permits + Bit(j in s.jobs && PastSemaphore(s.jobs[j])) - Bit(PastSemaphore(t.jobs[j]))
    requires t.completed == s.completed + Bit(t.jobs[j].saved) - Bit(j in s.jobs && s.jobs[j].saved)
    requires t.tasks == if j in s.jobs then s.tasks else s.tasks + {j}
    requires j in s.jobs && Over(s.jobs[j]) ==> Over(t.jobs[j])
    ensures Inv(capacity, t)
  {
    PutSizes(s, t, j);
  }

  /** The sizes of the two sets move with the changed job. */
  lemma PutSizes(s: State, t: State, j: JobId)
    requires j in t.jobs && t.jobs == s.jobs[j := t.jobs[j]]
    ensures |Inside(t)| == |Inside(s)| + Bit(PastSemaphore(t.jobs[j])) - Bit(j in s.jobs && PastSemaphore(s.jobs[j]))
    ensures |SavedJobs(t)| == |SavedJobs(s)| + Bit(t.jobs[j].saved) - Bit(j in s.jobs && s.jobs[j].saved)
  {
    PutSets(s, t, j);
    assert j in Inside(s) <==> j in s.jobs && PastSemaphore(s.jobs[j]);
    assert j in SavedJobs(s) <==> j in s.jobs && s.jobs[j].saved;
  }

  lemma SameJobsKeepInv(capacity: int, s: State, t: State)
    requires Inv(capacity, s)
    requires t.jobs == s.jobs && t.permits == s.permits && t.completed == s.completed && t.tasks <= s.tasks
    requires forall j | j in s.tasks && j !in t.tasks :: Over(s.jobs[j])
    requires t.joiner.Gathering? ==> t.joiner.waitingFor <= s.jobs.Keys
    ensures Inv(capacity, t)
  {
    assert Inside(t) == Inside(s) && SavedJobs(t) == SavedJobs(s);
  }

  lemma ApplyKeepsInv(skipAi: bool, capacity: int, s: State, step: Step)
    requires Inv(capacity, s)
    ensures Inv(capacity, Apply(skipAi, s, step))
  {
    match step
    case Submit(j, _) => JobStepKeepsInv(skipAi, capacity, s, step, j);
    case Enter(j) => JobStepKeepsInv(skipAi, capacity, s, step, j);
    case SellerArrives(j) => JobStepKeepsInv(skipAi, capacity, s, step, j);
    case Analyse(j, _) => JobStepKeepsInv(skipAi, capacity, s, step, j);
    case SaverReturns(j, _) => JobStepKeepsInv(skipAi, capacity, s, step, j);
    case SaverRaises(j) => JobStepKeepsInv(skipAi, capacity, s, step, j);
    case NotifierEnds(j) => JobStepKeepsInv(skipAi, capacity, s, step, j);
    case Discard(_) => SameJobsKeepInv(capacity, s, Apply(skipAi, s, step));
    case JoinBegins => SameJobsKeepInv(capacity, s, Apply(skipAi, s, step));
    case JoinWakes => SameJobsKeepInv(capacity, s, Apply(skipAi, s, step));
  }

  lemma JobStepKeepsInv(skipAi: bool, capacity: int, s: State, step: Step, j: JobId)
    requires Inv(capacity, s)
    requires !step.Discard? && !step.JoinBegins? && !step.JoinWakes? && step.job == j
    ensures Inv(capacity, Apply(skipAi, s, step))
  {
    JobStepShape(skipAi, s, step, j);
    var t := Apply(skipAi, s, step);
    if t != s {
      assert j in s.jobs ==> CallsMatchStage(s.jobs[j]);
      JobChangeKeepsInv(capacity, s, t, j);
    }
  }

  /** A job step either does nothing or changes exactly its job, with permits and counter to match. */
  lemma JobStepShape(skipAi: bool, s: State, step: Step, j: JobId)
    requires !step.Discard? && !step.JoinBegins? && !step.JoinWakes? && step.job == j
    requires j in s.jobs ==> CallsMatchStage(s.jobs[j])
    requires s.permits >= 0
    ensures var t := Apply(skipAi, s, step);
            || t == s
            || (&& j in t.jobs && t.jobs == s.jobs[j := t.jobs[j]] && CallsMatchStage(t.jobs[j])
                && t.permits >= 0 && t.joiner == s.joiner
                && t.permits == s.permits + Bit(j in s.jobs && PastSemaphore(s.jobs[j])) - Bit(PastSemaphore(t.jobs[j]))
                && t.completed == s.completed + Bit(t.jobs[j].saved) - Bit(j in s.jobs && s.jobs[j].saved)
                && t.tasks == (if j in s.jobs then s.tasks else s.tasks + {j})
                && (j in s.jobs ==> !Over(s.jobs[j])))
  {
  }

  lemma {:induction false} ExecKeepsInv(skipAi: bool, concurrency: int, steps: seq<Step>)
    ensures Inv(Max(1, concurrency), Exec(skipAi, concurrency, steps))
    decreases |steps|
  {
    if steps == [] {
      assert Inside(Init(concurrency)) == {} && SavedJobs(Init(concurrency)) == {};
    } else {
      ExecKeepsInv(skipAi, concurrency, steps[..|steps| - 1]);
      ApplyKeepsInv(skipAi, Max(1, concurrency), Exec(skipAi, concurrency, steps[..|steps| - 1]), steps[|steps| - 1]);
    }
  }

  // ----- what every run guarantees ---------------------------------------------------------

  ghost predicate Reachable(skipAi: bool, concurrency: int, s: State) {
    exists steps :: s == Exec(skipAi, concurrency, steps)
  }

  lemma ReachableInv(skipAi: bool, concurrency: int, s: State)
    requires Reachable(skipAi, concurrency, s)
    ensures Inv(Max(1, concurrency), s)
  {
    var steps :| s == Exec(skipAi, concurrency, steps);
    ExecKeepsInv(skipAi, concurrency, steps);
  }

  /** Never more jobs past the semaphore than max(1, concurrency); every saver and notifier is called
      at most once per job; the counter is the number of jobs whose saver returned true. */
  lemma BoundedConcurrency(skipAi: bool, concurrency: int, s: State)
    requires Reachable(skipAi, concurrency, s)
    ensures |Inside(s)| <= Max(1, concurrency)
    ensures s.completed == |SavedJobs(s)|
    ensures forall j | j in s.jobs :: s.jobs[j].saverCalls <= 1 && s.jobs[j].notifierCalls <= s.jobs[j].saverCalls
  {
    ReachableInv(skipAi, concurrency, s);
    forall j | j in s.jobs ensures s.jobs[j].saverCalls <= 1 && s.jobs[j].notifierCalls <= s.jobs[j].saverCalls {
      assert CallsMatchStage(s.jobs[j]);
    }
  }

  /** A job that ran to its end: saved exactly once, announced exactly when recommended. */
  predicate Complete(job: Job) {
    job.stage == Finished && job.saverCalls == 1 && job.notifierCalls == if job.recommended then 1 else 0
  }

  /** When `join` returns, every job submitted so far is over. All of them ran to their end exactly
      when no saver raised; a crash that `gather` did not see is not reported by `join`. */
  lemma JoinReturnsWhenAllOver(skipAi: bool, concurrency: int, s: State, step: Step)
    requires Reachable(skipAi, concurrency, s)
    requires s.joiner != Returned && Apply(skipAi, s, step).joiner == Returned
    ensures var t := Apply(skipAi, s, step);
            && t.jobs == s.jobs && t.tasks == {}
            && (forall j | j in t.jobs :: Over(t.jobs[j]) && t.jobs[j].saverCalls == 1)
            && ((forall j | j in t.jobs :: Complete(t.jobs[j])) <==> forall j | j in t.jobs :: !At(t, j, Crashed))
  {
    ReachableInv(skipAi, concurrency, s);
    assert forall j | j in s.jobs :: CallsMatchStage(s.jobs[j]);
  }

  // ----- which crashes join reports ------------------------------------------------------------

  /** The jobs that the latest call of `join` has found in the task set at one of its checks. */
  function Gathered(skipAi: bool, concurrency: int, steps: seq<Step>): set<JobId>
    decreases |steps|
  {
    if steps == [] then {}
    else
      var init, step := steps[..|steps| - 1], steps[|steps| - 1];
      GatheredNext(Exec(skipAi, concurrency, init), step, Gathered(skipAi, concurrency, init))
  }

  predicate ChecksAgain(s: State, step: Step) {
    step.JoinWakes? && s.joiner.Gathering? && !AnyCrashed(s, s.joiner.waitingFor) && AllOver(s, s.joiner.waitingFor)
  }

  function GatheredNext(s: State, step: Step, gathered: set<JobId>): set<JobId> {
    if step.JoinBegins? && !s.joiner.Gathering? then s.tasks
    else if ChecksAgain(s, step) then gathered + s.tasks
    else gathered
  }

  predicate EndedWell(s: State, j: JobId) {
    j in s.jobs && Over(s.jobs[j]) && !At(s, j, Crashed)
  }

  /** What a call of `join` knows about the jobs it has gathered. */
  ghost predicate JoinKnows(s: State, gathered: set<JobId>) {
    match s.joiner
    case Absent => true
    case Gathering(waitingFor) => waitingFor <= gathered && forall j | j in gathered && j !in waitingFor :: EndedWell(s, j)
    case Returned => forall j | j in gathered :: EndedWell(s, j)
    case Failed => exists j | j in gathered :: At(s, j, Crashed)
  }

  lemma OverStays(skipAi: bool, s: State, step: Step, j: JobId)
    requires j in s.jobs && Over(s.jobs[j])
    ensures j in Apply(skipAi, s, step).jobs && Apply(skipAi, s, step).jobs[j] == s.jobs[j]
  {
  }

  lemma StepKeepsKnowledge(skipAi: bool, s: State, step: Step, gathered: set<JobId>)
    requires JoinKnows(s, gathered)
    ensures JoinKnows(Apply(skipAi, s, step), GatheredNext(s, step, gathered))
  {
    var t := Apply(skipAi, s, step);
    forall j | j in s.jobs && Over(s.jobs[j]) ensures j in t.jobs && t.jobs[j] == s.jobs[j] {
      OverStays(skipAi, s, step, j);
    }
    if s.joiner.Failed? && !step.JoinBegins? {
      var j :| j in gathered && At(s, j, Crashed);
      assert At(t, j, Crashed);
    }
    if step.JoinWakes? && s.joiner.Gathering? && AnyCrashed(s, s.joiner.waitingFor) {
      var j :| j in s.joiner.waitingFor && At(s, j, Crashed);
      assert j in gathered && At(t, j, Crashed);
    }
  }

  lemma {:induction false} RunKeepsKnowledge(skipAi: bool, concurrency: int, steps: seq<Step>)
    ensures JoinKnows(Exec(skipAi, concurrency, steps), Gathered(skipAi, concurrency, steps))
    decreases |steps|
  {
    if steps != [] {
      var init := steps[..|steps| - 1];
      RunKeepsKnowledge(skipAi, concurrency, init);
      StepKeepsKnowledge(skipAi, Exec(skipAi, concurrency, init), steps[|steps| - 1], Gathered(skipAi, concurrency, init));
    }
  }

  /** A call of `join` that has ended has failed exactly when some crashed job was still in the task set at
      one of its checks. So a crash goes unreported exactly when the job's done-callback ran before every
      check, be that before `join` was called or while it was waiting for others. */
  lemma JoinReportsIff(skipAi: bool, concurrency: int, steps: seq<Step>)
    requires Exec(skipAi, concurrency, steps).joiner in {Returned, Failed}
    ensures var s := Exec(skipAi, concurrency, steps);
            s.joiner == Failed <==> exists j | j in Gathered(skipAi, concurrency, steps) :: At(s, j, Crashed)
  {
    RunKeepsKnowledge(skipAi, concurrency, steps);
  }

  /** The moves of one job from its submission to the crash of its saver, and its done-callback. */
  function CrashingMoves(j: JobId, spec: Spec): seq<Step> {
    [Submit(j, spec), Enter(j), SellerArrives(j)] + [Analyse(j, NoResult), SaverRaises(j), Discard(j)]
  }

  lemma RunThree(skipAi: bool, s: State, a: Step, b: Step, c: Step)
    ensures Run(skipAi, s, [a, b, c]) == Apply(skipAi, Apply(skipAi, Apply(skipAi, s, a), b), c)
  {
    RunOne(skipAi, s, a);
    assert [a, b][..1] == [a] && [a, b, c][..2] == [a, b];
  }

  lemma FirstMoves(skipAi: bool, s: State, j: JobId, spec: Spec)
    requires j !in s.jobs && s.permits > 0
    ensures Run(skipAi, s, [Submit(j, spec), Enter(j), SellerArrives(j)])
         == s.(jobs := s.jobs[j := Job(spec, Analysing, false, 0, 0, false)], tasks := s.tasks + {j}, permits := s.permits - 1)
  {
    RunThree(skipAi, s, Submit(j, spec), Enter(j), SellerArrives(j));
    var t := Apply(skipAi, Apply(skipAi, s, Submit(j, spec)), Enter(j));
    assert t.jobs == s.jobs[j := Job(spec, LoadingSeller, false, 0, 0, false)];
  }

  lemma LastMoves(skipAi: bool, s: State, j: JobId)
    requires At(s, j, Analysing)
    ensures var t := Run(skipAi, s, [Analyse(j, NoResult), SaverRaises(j), Discard(j)]);
            && At(t, j, Crashed) && t.jobs.Keys == s.jobs.Keys && (forall k | k in s.jobs && k != j :: t.jobs[k] == s.jobs[k])
            && t.tasks == s.tasks - {j} && t.permits == s.permits + 1 && t.joiner == s.joiner
  {
    RunThree(skipAi, s, Analyse(j, NoResult), SaverRaises(j), Discard(j));
  }

  /** Whatever else goes on, a new job can crash and be discarded while `join` waits for others. */
  lemma CrashAside(skipAi: bool, s: State, j: JobId, spec: Spec)
    requires j !in s.jobs && j !in s.tasks && s.permits > 0
    ensures var t := Run(skipAi, s, CrashingMoves(j, spec));
            && At(t, j, Crashed) && (forall k | k in s.jobs :: k in t.jobs && t.jobs[k] == s.jobs[k])
            && t.tasks == s.tasks && t.permits == s.permits && t.joiner == s.joiner
  {
    var first, last := [Submit(j, spec), Enter(j), SellerArrives(j)], [Analyse(j, NoResult), SaverRaises(j), Discard(j)];
    FirstMoves(skipAi, s, j, spec);
    LastMoves(skipAi, Run(skipAi, s, first), j);
    RunAppend(skipAi, s, first, last);
  }

  /** `join` waits for job 0; job 1 is submitted, crashes and is discarded; job 0 ends; `join` returns. */
  function UnreportedRun(spec: Spec): seq<Step> {
    JoinedRun(spec) + CrashingMoves(1, spec) + EndingMoves()
  }

  function JoinedRun(spec: Spec): seq<Step> {
    [Submit(0, spec), Enter(0), SellerArrives(0)] + [JoinBegins]
  }

  function EndingMoves(): seq<Step> {
    [Analyse(0, NoResult), SaverReturns(0, false)] + [NotifierEnds(0), Discard(0), JoinWakes]
  }

  lemma JoinedState(skipAi: bool, spec: Spec)
    ensures var s := Exec(skipAi, 2, JoinedRun(spec));
            && s.joiner == Gathering({0}) && s.jobs == map[0 := Job(spec, Analysing, false, 0, 0, false)]
            && s.tasks == {0} && s.permits == 1
  {
    var first := [Submit(0, spec), Enter(0), SellerArrives(0)];
    FirstMoves(skipAi, Init(2), 0, spec);
    RunAppend(skipAi, Init(2), first, [JoinBegins]);
    RunOne(skipAi, Run(skipAi, Init(2), first), JoinBegins);
    assert {} + {0} == {0};
  }

  lemma AnalysedAndSaved(skipAi: bool, s: State)
    requires At(s, 0, Analysing)
    ensures var t := Run(skipAi, s, [Analyse(0, NoResult), SaverReturns(0, false)]);
            && (At(t, 0, Notifying) || At(t, 0, Finished)) && t.jobs.Keys == s.jobs.Keys
            && (forall k | k in s.jobs && k != 0 :: t.jobs[k] == s.jobs[k]) && t.tasks == s.tasks && t.joiner == s.joiner
  {
    RunOne(skipAi, s, Analyse(0, NoResult));
    assert [Analyse(0, NoResult), SaverReturns(0, false)][..1] == [Analyse(0, NoResult)];
  }

  lemma EndedAndJoined(skipAi: bool, s: State)
    requires At(s, 0, Notifying) || At(s, 0, Finished)
    requires s.tasks == {0} && s.joiner == Gathering({0})
    ensures var t := Run(skipAi, s, [NotifierEnds(0), Discard(0), JoinWakes]);
            t.joiner == Returned && t.jobs.Keys == s.jobs.Keys && forall k | k in s.jobs && k != 0 :: t.jobs[k] == s.jobs[k]
  {
    RunThree(skipAi, s, NotifierEnds(0), Discard(0), JoinWakes);
  }

  /** A crash that happens after `join` began can go unreported as well. */
  lemma JoinMayMissACrash(skipAi: bool, spec: Spec)
    ensures Exec(skipAi, 2, JoinedRun(spec)).joiner.Gathering? && 1 !in Exec(skipAi, 2, JoinedRun(spec)).jobs
    ensures Exec(skipAi, 2, UnreportedRun(spec)).joiner == Returned && At(Exec(skipAi, 2, UnreportedRun(spec)), 1, Crashed)
  {
    JoinedState(skipAi, spec);
    var s := Exec(skipAi, 2, JoinedRun(spec));
    CrashAside(skipAi, s, 1, spec);
    RunAppend(skipAi, Init(2), JoinedRun(spec), CrashingMoves(1, spec));
    var t := Run(skipAi, s, CrashingMoves(1, spec));
    RunAppend(skipAi, Init(2), JoinedRun(spec) + CrashingMoves(1, spec), EndingMoves());
    var mid := [Analyse(0, NoResult), SaverReturns(0, false)];
    AnalysedAndSaved(skipAi, t);
    EndedAndJoined(skipAi, Run(skipAi, t, mid));
    RunAppend(skipAi, t, mid, [NotifierEnds(0), Discard(0), JoinWakes]);
  }

  // ----- draining --------------------------------------------------------------------------------

  /** The jobs that can move on their own: those inside, and a waiting one while a permit is left. */
  predicate CanMove(s: State, j: JobId) {
    j in s.jobs && (PastSemaphore(s.jobs[j]) || (s.jobs[j].stage == Waiting && s.permits > 0))
  }

  /** No deadlock: while some job is not over, some job can move. */
  lemma SomebodyCanMove(skipAi: bool, concurrency: int, s: State, j: JobId)
    requires Reachable(skipAi, concurrency, s) && j in s.jobs && !Over(s.jobs[j])
    ensures exists k :: CanMove(s, k)
  {
    ReachableInv(skipAi, concurrency, s);
    if s.permits > 0 || PastSemaphore(s.jobs[j]) {
      assert CanMove(s, j);
    } else {
      assert |Inside(s)| >= 1;
      var k := Member(Inside(s));
      assert CanMove(s, k);
    }
  }

  /** Work left in a job: how many moves it can still make. */
  function Rank(job: Job): nat {
    match job.stage
    case Waiting => 5
    case LoadingSeller => 4
    case Analysing => 3
    case Saving => 2
    case Notifying => 1
    case _ => 0
  }

  lemma MovesLowerRank(skipAi: bool, s: State, step: Step)
    requires !step.Submit? && Apply(skipAi, s, step).jobs != s.jobs
    ensures !step.JoinBegins? && !step.JoinWakes?
    ensures var t := Apply(skipAi, s, step);
            && step.job in s.jobs && t.jobs == s.jobs[step.job := t.jobs[step.job]]
            && Rank(t.jobs[step.job]) < Rank(s.jobs[step.job])
  {
  }

  /** The work left in all jobs. */
  function TotalRank(jobs: map<JobId, Job>): nat
    decreases |jobs|
  {
    if jobs.Keys == {} then 0
    else
      var keys: set<int> := set j | j in jobs :: j;
      assert Member(jobs.Keys) in keys;
      var j := Least(keys);
      Rank(jobs[j]) + TotalRank(jobs - {j})
  }

  lemma {:induction false} TotalUnfolds(jobs: map<JobId, Job>) returns (j: JobId)
    requires jobs.Keys != {}
    ensures j in jobs && TotalRank(jobs) == Rank(jobs[j]) + TotalRank(jobs - {j})
  {
    var keys: set<int> := set j | j in jobs :: j;
    assert Member(jobs.Keys) in keys;
    j := Least(keys);
  }

  lemma {:induction false} TotalWithout(jobs: map<JobId, Job>, k: JobId)
    requires k in jobs
    ensures TotalRank(jobs) == Rank(jobs[k]) + TotalRank(jobs - {k})
    decreases |jobs|
  {
    var j := TotalUnfolds(jobs);
    if j != k {
      TotalWithout(jobs - {j}, k);
      TotalWithout(jobs - {k}, j);
      assert jobs - {j} - {k} == jobs - {k} - {j};
    }
  }

  /** Looks that a gathering `join` still has to take before the task set changes again. */
  function LooksLeft(s: State): nat {
    if !s.joiner.Gathering? then 0 else if s.joiner.waitingFor == s.tasks then 1 else 2
  }

  /** The work left: the moves of the jobs, a done-callback for every task, and the looks of `join`. */
  function Work(s: State): nat {
    TotalRank(s.jobs) + 2 * |s.tasks| + LooksLeft(s)
  }

  /** A step that changes something and neither submits a job nor calls `join`. */
  predicate IsMove(skipAi: bool, s: State, step: Step) {
    !step.Submit? && !step.JoinBegins? && Apply(skipAi, s, step) != s
  }

  predicate Moves(skipAi: bool, s: State, steps: seq<Step>)
    decreases |steps|
  {
    steps != [] ==>
      && Moves(skipAi, s, steps[..|steps| - 1])
      && IsMove(skipAi, Run(skipAi, s, steps[..|steps| - 1]), steps[|steps| - 1])
  }

  lemma MoveLowersTotal(skipAi: bool, s: State, step: Step)
    requires !step.Submit? && Apply(skipAi, s, step).jobs != s.jobs
    ensures TotalRank(Apply(skipAi, s, step).jobs) < TotalRank(s.jobs)
    ensures Apply(skipAi, s, step).tasks == s.tasks && Apply(skipAi, s, step).joiner == s.joiner
  {
    MovesLowerRank(skipAi, s, step);
    var t := Apply(skipAi, s, step);
    TotalWithout(s.jobs, step.job);
    TotalWithout(t.jobs, step.job);
    assert t.jobs - {step.job} == s.jobs - {step.job};
  }

  lemma JobMoves(skipAi: bool, s: State, step: Step)
    requires !step.Submit? && !step.JoinBegins? && !step.Discard? && !step.JoinWakes?
    ensures var t := Apply(skipAi, s, step); t == s || (step.job in s.jobs && t.jobs[step.job] != s.jobs[step.job])
  {
  }

  /** A step that leaves the jobs alone is a done-callback, or a look of `join`. */
  lemma OtherMoves(skipAi: bool, s: State, step: Step)
    requires IsMove(skipAi, s, step) && Apply(skipAi, s, step).jobs == s.jobs
    ensures var t := Apply(skipAi, s, step);
            || (step.Discard? && step.job in s.tasks && t == s.(tasks := s.tasks - {step.job}))
            || (step.JoinWakes? && t == s.(joiner := t.joiner) && LooksLeft(t) < LooksLeft(s))
  {
    if !step.Discard? && !step.JoinWakes? {
      JobMoves(skipAi, s, step);
    }
  }

  lemma MoveLowersWork(skipAi: bool, s: State, step: Step)
    requires IsMove(skipAi, s, step)
    ensures Work(Apply(skipAi, s, step)) < Work(s)
  {
    if Apply(skipAi, s, step).jobs != s.jobs {
      MoveLowersTotal(skipAi, s, step);
    } else {
      OtherMoves(skipAi, s, step);
    }
  }

  lemma {:induction false} MovesAreBounded(skipAi: bool, s: State, steps: seq<Step>)
    requires Moves(skipAi, s, steps)
    ensures |steps| + Work(Run(skipAi, s, steps)) <= Work(s)
    decreases |steps|
  {
    if steps != [] {
      MovesAreBounded(skipAi, s, steps[..|steps| - 1]);
      MoveLowersWork(skipAi, Run(skipAi, s, steps[..|steps| - 1]), steps[|steps| - 1]);
    }
  }

  /** A move that a job which can move makes. */
  function MoveOf(job: Job, j: JobId): Step {
    match job.stage
    case Waiting => Enter(j)
    case LoadingSeller => SellerArrives(j)
    case Analysing => Analyse(j, NoResult)
    case Saving => SaverRaises(j)
    case _ => NotifierEnds(j)
  }

  lemma CanMoveMoves(skipAi: bool, s: State, j: JobId)
    requires CanMove(s, j)
    ensures IsMove(skipAi, s, MoveOf(s.jobs[j], j))
  {
    assert Apply(skipAi, s, MoveOf(s.jobs[j], j)).jobs[j] != s.jobs[j];
  }

  /** Nothing is left to do: every job is over, every done-callback has run and `join` has ended. */
  predicate AtRest(s: State) {
    AllOver(s, s.jobs.Keys) && s.tasks == {} && !s.joiner.Gathering?
  }

  lemma SomethingMoves(skipAi: bool, concurrency: int, s: State) returns (step: Step)
    requires Reachable(skipAi, concurrency, s) && !AtRest(s)
    ensures IsMove(skipAi, s, step)
  {
    ReachableInv(skipAi, concurrency, s);
    if j :| j in s.jobs && !Over(s.jobs[j]) {
      SomebodyCanMove(skipAi, concurrency, s, j);
      var k :| CanMove(s, k);
      CanMoveMoves(skipAi, s, k);
      step := MoveOf(s.jobs[k], k);
    } else if k :| k in s.tasks {
      assert k in s.jobs && k !in Apply(skipAi, s, Discard(k)).tasks;
      step := Discard(k);
    } else {
      step := JoinWakes;
    }
  }

  /** Without new jobs a dispatcher drains and `join` ends: from every reachable state no run of moves is longer
      than the work left, and one that cannot be continued has every job over, every done-callback run and no
      `join` waiting. */
  lemma Drains(skipAi: bool, concurrency: int, s: State, steps: seq<Step>)
    requires Reachable(skipAi, concurrency, s) && Moves(skipAi, s, steps)
    ensures |steps| <= Work(s)
    ensures var t := Run(skipAi, s, steps);
            (forall step: Step :: !IsMove(skipAi, t, step)) <==> AtRest(t)
  {
    MovesAreBounded(skipAi, s, steps);
    var t := Run(skipAi, s, steps);
    RunReachable(skipAi, concurrency, s, steps);
    if !AtRest(t) {
      var step := SomethingMoves(skipAi, concurrency, t);
    } else {
      forall step: Step ensures !IsMove(skipAi, t, step) {
        RestIsQuiet(skipAi, t, step);
      }
    }
  }

  lemma RestIsQuiet(skipAi: bool, s: State, step: Step)
    requires AtRest(s)
    ensures !IsMove(skipAi, s, step)
  {
  }

  lemma RunReachable(skipAi: bool, concurrency: int, s: State, steps: seq<Step>)
    requires Reachable(skipAi, concurrency, s)
    ensures Reachable(skipAi, concurrency, Run(skipAi, s, steps))
  {
    var before :| s == Exec(skipAi, concurrency, before);
    RunAppend(skipAi, Init(concurrency), before, steps);
    assert Run(skipAi, s, steps) == Exec(skipAi, concurrency, before + steps);
  }
}
