/** The step list of a task-generation job.

    Two programs keep it: the worker, which rewrites the `steps_json` list of a job row for
    every progress event, and `TaskGenerationService`, which updates a job object in place.
    The module models both and compares them. */
module GenerationSteps {
  import opened Basics

  datatype StepStatus = StepPending | StepRunning | StepCompleted | StepFailed

  datatype Step = Step(key: string, status: StepStatus, message: string)

  /** One progress event: the step it names and its text. */
  datatype Progress = Progress(key: string, message: string)

  // ----- positions ---------------------------------------------------------------------

  /** Position of the first step named `key` at or after `from`, or -1. */
  function IndexFrom(steps: seq<Step>, key: string, from: nat): (i: int)
    requires from <= |steps|
    ensures i == -1 || from <= i < |steps|
    ensures i != -1 ==> steps[i].key == key && forall j | from <= j < i :: steps[j].key != key
    ensures i == -1 ==> forall j | from <= j < |steps| :: steps[j].key != key
    decreases |steps| - from
  {
    if from == |steps| then -1
    else if steps[from].key == key then from
    else IndexFrom(steps, key, from + 1)
  }

  function IndexOf(steps: seq<Step>, key: Option<string>): (i: int)
    ensures -1 <= i < |steps|
    ensures i != -1 ==> key == Some(steps[i].key) && forall j | 0 <= j < i :: steps[j].key != steps[i].key
    ensures i == -1 && key.Some? ==> forall j | 0 <= j < |steps| :: steps[j].key != key.value
  {
    match key
    case None => -1
    case Some(k) => IndexFrom(steps, k, 0)
  }

  predicate Known(steps: seq<Step>, key: string) {
    IndexOf(steps, Some(key)) != -1
  }

  function Keys(steps: seq<Step>): seq<string> {
    seq(|steps|, i requires 0 <= i < |steps| => steps[i].key)
  }

  lemma SameKeysSameIndex(a: seq<Step>, b: seq<Step>, key: string, from: nat)
    requires Keys(a) == Keys(b) && from <= |a|
    ensures |a| == |b| && IndexFrom(a, key, from) == IndexFrom(b, key, from)
    decreases |a| - from
  {
    assert |Keys(a)| == |a| && |Keys(b)| == |b|;
    if from < |a| {
      assert Keys(a)[from] == a[from].key && Keys(b)[from] == b[from].key;
      SameKeysSameIndex(a, b, key, from + 1);
    }
  }

  // ----- the worker's list functions -----------------------------------------------------

  function AppliedStep(step: Step, index: int, target: int, message: string): Step {
    if target >= 0 && index < target && step.status != StepFailed then
      step.(status := StepCompleted)
    else if index == target then
      step.(status := StepRunning, message := message)
    else if step.status != StepFailed then
      step.(status := StepPending, message := "")
    else
      step
  }

  function Applied(steps: seq<Step>, key: Option<string>, message: string): seq<Step> {
    var target := IndexOf(steps, key);
    seq(|steps|, i requires 0 <= i < |steps| => AppliedStep(steps[i], i, target, message))
  }

  /** `apply_step_progress`: a copy of the list is rewritten position by position. */
  method ApplyStepProgress(steps: seq<Step>, key: Option<string>, message: string)
    returns (updated: seq<Step>)
    ensures updated == Applied(steps, key, message)
  {
    updated := steps;
    var target := -1;
    var index := 0;
    while index < |updated|
      invariant 0 <= index <= |updated|
      invariant updated == steps && target == -1
      invariant key.Some? ==> IndexFrom(steps, key.value, 0) == IndexFrom(steps, key.value, index)
    {
      if Some(updated[index].key) == key {
        target := index;
        break;
      }
      index := index + 1;
    }
    assert target == IndexOf(steps, key);
    index := 0;
    while index < |updated|
      invariant 0 <= index <= |updated| == |steps|
      invariant forall i | 0 <= i < index :: updated[i] == AppliedStep(steps[i], i, target, message)
      invariant forall i | index <= i < |steps| :: updated[i] == steps[i]
    {
      var current := updated[index].status;
      if target >= 0 && index < target && current != StepFailed {
        updated := updated[index := updated[index].(status := StepCompleted)];
      } else if index == target {
        updated := updated[index := updated[index].(status := StepRunning, message := message)];
      } else if current != StepFailed {
        updated := updated[index := updated[index].(status := StepPending, message := "")];
      }
      index := index + 1;
    }
  }

  function AllDone(steps: seq<Step>): seq<Step> {
    seq(|steps|, i requires 0 <= i < |steps| =>
      if steps[i].status != StepFailed then steps[i].(status := StepCompleted) else steps[i])
  }

  function FailedAt(steps: seq<Step>, key: Option<string>, message: string): seq<Step> {
    var target := IndexOf(steps, key);
    if target == -1 then steps
    else steps[target := steps[target].(status := StepFailed, message := message)]
  }

  /** `finalize_steps` with final status "completed" or "failed". The source tests the step key
      for truth, so the empty key counts as no key. */
  method FinalizeSteps(steps: seq<Step>, success: bool, message: string, key: Option<string>)
    returns (updated: seq<Step>)
    ensures success ==> updated == AllDone(steps)
    ensures !success ==> updated == FailedAt(steps, if key == Some("") then None else key, message)
  {
    updated := steps;
    var index := 0;
    if success {
      while index < |updated|
        invariant 0 <= index <= |updated| == |steps|
        invariant forall i | 0 <= i < index :: updated[i] == AllDone(steps)[i]
        invariant forall i | index <= i < |steps| :: updated[i] == steps[i]
      {
        if updated[index].status != StepFailed {
          updated := updated[index := updated[index].(status := StepCompleted)];
        }
        index := index + 1;
      }
    } else if key.Some? && key.value != "" {
      while index < |updated|
        invariant 0 <= index <= |updated|
        invariant updated == steps
        invariant IndexFrom(steps, key.value, 0) == IndexFrom(steps, key.value, index)
      {
        if updated[index].key == key.value {
          updated := updated[index := updated[index].(status := StepFailed, message := message)];
          return;
        }
        index := index + 1;
      }
    }
  }

  // ----- the service ----------------------------------------------------------------------

  datatype JobPhase = Queued | InProgress | Done | Broken

  datatype Job = Job(phase: JobPhase, steps: seq<Step>, currentStep: Option<string>, message: string,
                     error: Option<string>)

  datatype ServiceError = UnknownJob | UnknownStep

  function AdvancedStep(step: Step, index: int, target: int, message: string): Step {
    if step.status == StepFailed then step
    else if index < target then step.(status := StepCompleted)
    else if index == target then step.(status := StepRunning, message := message)
    else if step.status != StepPending then step.(status := StepPending, message := "")
    else step
  }

  function Advanced(steps: seq<Step>, key: string, message: string): seq<Step> {
    var target := IndexOf(steps, Some(key));
    seq(|steps|, i requires 0 <= i < |steps| => AdvancedStep(steps[i], i, target, message))
  }

  /** The step that `fail` blames: the one it is given, else the current one; "" counts as none. */
  function Blamed(key: Option<string>, current: Option<string>): Option<string> {
    if key.Some? && key.value != "" then key else current
  }

  function BlamedStep(key: Option<string>, current: Option<string>): Option<string> {
    var blamed := Blamed(key, current);
    if blamed == Some("") then None else blamed
  }

  class TaskGenerationService {
    var jobs: map<string, Job>

    constructor ()
      ensures jobs == map[]
    {
      jobs := map[];
    }

    /** `advance`: an unknown job or step is an error that changes nothing. */
    method Advance(jobId: string, key: string, message: string) returns (error: Option<ServiceError>)
      modifies this
      ensures jobId !in old(jobs) <==> error == Some(UnknownJob)
      ensures jobId in old(jobs) && !Known(old(jobs)[jobId].steps, key) <==> error == Some(UnknownStep)
      ensures error.Some? ==> jobs == old(jobs)
      ensures error.None? ==>
                jobs == old(jobs)[jobId :=
                  Job(InProgress, Advanced(old(jobs)[jobId].steps, key, message), Some(key), message,
                      old(jobs)[jobId].error)]
    {
      if jobId !in jobs {
        return Some(UnknownJob);
      }
      var job := jobs[jobId];
      var target := IndexOf(job.steps, Some(key));
      if target == -1 {
        return Some(UnknownStep);
      }
      job := job.(phase := InProgress, currentStep := Some(key), message := message);
      ghost var before := job.steps;
      var steps := job.steps;
      var index := 0;
      while index < |steps|
        invariant 0 <= index <= |steps| == |before|
        invariant forall i | 0 <= i < index :: steps[i] == AdvancedStep(before[i], i, target, message)
        invariant forall i | index <= i < |before| :: steps[i] == before[i]
      {
        if steps[index].status != StepFailed {
          if index < target {
            steps := steps[index := steps[index].(status := StepCompleted)];
          } else if index == target {
            steps := steps[index := steps[index].(status := StepRunning, message := message)];
          } else if steps[index].status != StepPending {
            steps := steps[index := steps[index].(status := StepPending, message := "")];
          }
        }
        index := index + 1;
      }
      assert steps == Advanced(before, key, message);
      jobs := jobs[jobId := job.(steps := steps)];
      return None;
    }

    /** `complete`: every step that has not failed becomes completed. */
    method Complete(jobId: string, message: string) returns (error: Option<ServiceError>)
      modifies this
      ensures jobId !in old(jobs) <==> error == Some(UnknownJob)
      ensures error.Some? ==> jobs == old(jobs)
      ensures error.None? ==>
                jobs == old(jobs)[jobId := Job(Done, AllDone(old(jobs)[jobId].steps), None, message, None)]
    {
      if jobId !in jobs {
        return Some(UnknownJob);
      }
      var steps := CompleteAll(jobs[jobId].steps);
      jobs := jobs[jobId := Job(Done, steps, None, message, None)];
      return None;
    }

    static method CompleteAll(given: seq<Step>) returns (steps: seq<Step>)
      ensures steps == AllDone(given)
    {
      steps := given;
      for index := 0 to |steps|
        invariant |steps| == |given|
        invariant forall i | 0 <= i < index :: steps[i] == AllDone(given)[i]
        invariant forall i | index <= i < |given| :: steps[i] == given[i]
      {
        if steps[index].status != StepFailed {
          steps := steps[index := steps[index].(status := StepCompleted)];
        }
      }
    }

    /** `fail`: the blamed step, when there is one and it exists, becomes failed. */
    method Fail(jobId: string, text: string, key: Option<string>) returns (error: Option<ServiceError>)
      modifies this
      ensures jobId !in old(jobs) <==> error == Some(UnknownJob)
      ensures error.Some? ==> jobs == old(jobs)
      ensures error.None? ==>
                var job := old(jobs)[jobId];
                jobs == old(jobs)[jobId :=
                  Job(Broken, FailedAt(job.steps, BlamedStep(key, job.currentStep), text),
                      Blamed(key, job.currentStep), text, Some(text))]
    {
      if jobId !in jobs {
        return Some(UnknownJob);
      }
      var job := jobs[jobId];
      var blamed := if key.Some? && key.value != "" then key else job.currentStep;
      job := job.(phase := Broken, error := Some(text), message := text, currentStep := blamed);
      if blamed.Some? && blamed.value != "" {
        var index := IndexOf(job.steps, blamed);
        if index != -1 {
          job := job.(steps := job.steps[index := job.steps[index].(status := StepFailed, message := text)]);
        }
      }
      jobs := jobs[jobId := job];
      return None;
    }
  }

  // ----- what a run of progress events leaves behind ---------------------------------------

  predicate AllPending(steps: seq<Step>) {
    forall i | 0 <= i < |steps| :: steps[i].status == StepPending && steps[i].message == ""
  }

  /** completed* running pending*, with the running step at `k` and empty pending messages. */
  predicate Shape(steps: seq<Step>, k: int) {
    && 0 <= k < |steps|
    && (forall i | 0 <= i < k :: steps[i].status == StepCompleted)
    && steps[k].status == StepRunning
    && (forall i | k < i < |steps| :: steps[i].status == StepPending && steps[i].message == "")
  }

  function WorkerRun(steps: seq<Step>, events: seq<Progress>): seq<Step>
    decreases |events|
  {
    if events == [] then steps
    else
      var last := events[|events| - 1];
      Applied(WorkerRun(steps, events[..|events| - 1]), Some(last.key), last.message)
  }

  function ServiceRun(steps: seq<Step>, events: seq<Progress>): seq<Step>
    decreases |events|
  {
    if events == [] then steps
    else
      var last := events[|events| - 1];
      Advanced(ServiceRun(steps, events[..|events| - 1]), last.key, last.message)
  }

  lemma AppliedKeepsKeys(steps: seq<Step>, key: Option<string>, message: string)
    ensures Keys(Applied(steps, key, message)) == Keys(steps)
  {
  }

  /** Whatever events arrive, in whatever order, the list shows everything before the last named
      step as completed, that step as running with the last text, and everything after as pending. */
  lemma {:induction false} ProgressShape(steps: seq<Step>, events: seq<Progress>)
    requires AllPending(steps)
    requires forall e | e in events :: Known(steps, e.key)
    ensures Keys(WorkerRun(steps, events)) == Keys(steps)
    ensures events == [] ==> AllPending(WorkerRun(steps, events))
    ensures events != [] ==>
              var last := events[|events| - 1];
              var k := IndexOf(steps, Some(last.key));
              && Shape(WorkerRun(steps, events), k)
              && WorkerRun(steps, events)[k].message == last.message
    decreases |events|
  {
    if events != [] {
      var init, last := events[..|events| - 1], events[|events| - 1];
      assert forall e | e in init :: e in events;
      ProgressShape(steps, init);
      var before := WorkerRun(steps, init);
      SameKeysSameIndex(before, steps, last.key, 0);
      assert last in events;
      NextShape(before, last, if init == [] then -1 else IndexOf(steps, Some(init[|init| - 1].key)));
    }
  }

  /** One event on a list that has a shape already, or is all pending. */
  lemma {:induction false} NextShape(before: seq<Step>, event: Progress, k: int)
    requires (k == -1 && AllPending(before)) || Shape(before, k)
    requires Known(before, event.key)
    ensures var next, t := Applied(before, Some(event.key), event.message), IndexOf(before, Some(event.key));
            Keys(next) == Keys(before) && Shape(next, t) && next[t].message == event.message
  {
    AppliedKeepsKeys(before, Some(event.key), event.message);
    assert forall i | 0 <= i < |before| :: before[i].status != StepFailed;
  }

  /** The two programs rewrite the list alike exactly when the named step has not failed and no
      pending step after it still carries a message. */
  lemma TwinsAgreeIff(steps: seq<Step>, key: string, message: string)
    requires Known(steps, key)
    ensures Applied(steps, Some(key), message) == Advanced(steps, key, message)
            <==> var t := IndexOf(steps, Some(key));
                 && steps[t].status != StepFailed
                 && forall i | t < i < |steps| && steps[i].status == StepPending :: steps[i].message == ""
  {
    var t := IndexOf(steps, Some(key));
    var a, b := Applied(steps, Some(key), message), Advanced(steps, key, message);
    if a == b {
      assert a[t] == AppliedStep(steps[t], t, t, message) && b[t] == AdvancedStep(steps[t], t, t, message);
      forall i | t < i < |steps| && steps[i].status == StepPending
        ensures steps[i].message == ""
      {
        assert a[i] == AppliedStep(steps[i], i, t, message) && b[i] == AdvancedStep(steps[i], i, t, message);
      }
    } else {
      assert |a| == |b|;
      var i :| 0 <= i < |a| && a[i] != b[i];
    }
  }

  /** From a fresh job both programs hold the same list after every run of known events. */
  lemma {:induction false} TwinsAgreeOverRuns(steps: seq<Step>, events: seq<Progress>)
    requires AllPending(steps)
    requires forall e | e in events :: Known(steps, e.key)
    ensures WorkerRun(steps, events) == ServiceRun(steps, events)
    decreases |events|
  {
    if events != [] {
      var init, last := events[..|events| - 1], events[|events| - 1];
      assert last in events && forall e | e in init :: e in events;
      TwinsAgreeOverRuns(steps, init);
      TwinsAgreeOnNext(steps, init, last);
    }
  }

  lemma TwinsAgreeOnNext(steps: seq<Step>, init: seq<Progress>, last: Progress)
    requires AllPending(steps)
    requires forall e | e in init :: Known(steps, e.key)
    requires Known(steps, last.key)
    ensures Applied(WorkerRun(steps, init), Some(last.key), last.message)
            == Advanced(WorkerRun(steps, init), last.key, last.message)
  {
    ProgressShape(steps, init);
    var before := WorkerRun(steps, init);
    SameKeysSameIndex(before, steps, last.key, 0);
    NoFailureYet(before, if init == [] then -1 else IndexOf(steps, Some(init[|init| - 1].key)));
    TwinsAgreeIff(before, last.key, last.message);
  }

  lemma NoFailureYet(steps: seq<Step>, k: int)
    requires (k == -1 && AllPending(steps)) || Shape(steps, k)
    ensures forall i | 0 <= i < |steps| :: steps[i].status != StepFailed
    ensures forall i | 0 <= i < |steps| && steps[i].status == StepPending :: steps[i].message == ""
  {
  }

  /** A successful end leaves every step completed. A failed end that blames the last step
      leaves completed* failed pending*, and the service, which blames its current step, agrees. */
  lemma EndShape(steps: seq<Step>, events: seq<Progress>, text: string)
    requires AllPending(steps)
    requires forall e | e in events :: Known(steps, e.key) && e.key != ""
    ensures forall s | s in AllDone(WorkerRun(steps, events)) :: s.status == StepCompleted
    ensures events != [] ==>
              var last := Some(events[|events| - 1].key);
              var k := IndexOf(steps, last);
              var ended := FailedAt(WorkerRun(steps, events), last, text);
              && |ended| == |steps| && 0 <= k < |steps|
              && (forall i | 0 <= i < k :: ended[i].status == StepCompleted)
              && ended[k].status == StepFailed && ended[k].message == text
              && (forall i | k < i < |ended| :: ended[i].status == StepPending)
              && ended == FailedAt(ServiceRun(steps, events), BlamedStep(None, last), text)
  {
    ProgressShape(steps, events);
    TwinsAgreeOverRuns(steps, events);
    var run := WorkerRun(steps, events);
    if events != [] {
      var key := events[|events| - 1].key;
      assert events[|events| - 1] in events;
      SameKeysSameIndex(run, steps, key, 0);
      NoFailureYet(run, IndexOf(steps, Some(key)));
    } else {
      NoFailureYet(run, -1);
    }
  }

  /** `fail` marks one step: the first of the given name, or of the current one when none is given; an empty name
      counts as none, and every other step stays. */
  lemma FailMarksOne(steps: seq<Step>, key: Option<string>, current: Option<string>, text: string)
    ensures var named := if key.Some? && key.value != "" then key else if current == Some("") then None else current;
            var after := FailedAt(steps, BlamedStep(key, current), text);
            && |after| == |steps|
            && (named.Some? ==> Blamed(key, current) == named)
            && forall i | 0 <= i < |steps| ::
                 after[i] == if named == Some(steps[i].key) && (forall j | 0 <= j < i :: steps[j].key != steps[i].key)
                             then Step(steps[i].key, StepFailed, text) else steps[i]
  {
  }
}
