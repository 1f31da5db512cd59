/** The worker-job protocol: one table, any number of producers and workers.

    A step is one SQL statement or one event of a process. The SELECT and the conditional UPDATE
    of a claim are separate steps, so other workers may run in between. A claim driven by a Redis
    message may name any row at all, which covers lost, duplicated, stale and reordered messages.
    A step that its process cannot take leaves the state alone, so every sequence of steps is a
    run and "for all runs" is "for all sequences of steps". */
module JobProtocol {
  import opened Basics
  import GenerationSteps
  import opened JobTable

  /** What a worker process is doing. `Handling(id, written)`: inside a job handler, `written`
      once the handler has stored a final status. */
  datatype Phase = Down | Idle | Selected(id: JobId) | Handling(id: JobId, written: bool)

  /** A start or stop request whose duplicate check has passed and whose INSERT is still to come. */
  datatype Request = Request(kind: JobKind, taskId: int)

  /** `claims` and `requeues` count, per job, the successful claims and the times stale-clearing
      returned it to pending. They are history: no step reads them. */
  datatype State = State(
    rows: Table, nextId: nat, phases: map<WorkerName, Phase>, requests: map<nat, Request>,
    claims: map<JobId, nat>, requeues: map<JobId, nat>)

  /** The statements that end a job. */
  datatype FinalWrite =
    | Finish(status: JobStatus, process: Option<int>)
    | Complete(taskId: int, told: Option<seq<GenerationSteps.Step>>)
    | GiveUp(told: Option<seq<GenerationSteps.Step>>)

  function FinalUpdate(rows: Table, id: JobId, write: FinalWrite): Table {
    match write
    case Finish(status, process) => FinishUpdate(rows, id, status, process)
    case Complete(taskId, told) => CompleteUpdate(rows, id, taskId, told)
    case GiveUp(told) => FailUpdate(rows, id, told)
  }

  predicate EndsJob(write: FinalWrite) {
    write.Finish? ==> Terminal(write.status)
  }

  datatype Step =
    | CheckRequest(producer: nat, kind: JobKind, taskId: int)
    | InsertRequest(producer: nat)
    | InsertKeyed(kind: JobKind, key: string, steps: seq<GenerationSteps.Step>)
    | SelectLowest(w: WorkerName)
    | SelectNamed(w: WorkerName, id: JobId)
    | Claim(w: WorkerName)
    | Report(w: WorkerName, told: Option<seq<GenerationSteps.Step>>)
    | NoteProcess(w: WorkerName, pid: int)
    | WriteFinal(w: WorkerName, write: FinalWrite)
    | Raise(w: WorkerName)
    | Return(w: WorkerName)
    | Crash(w: WorkerName)
    | Restart(w: WorkerName)

  /** A statement of a handler on its own row. */
  predicate IsHandlerStep(step: Step) {
    step.Report? || step.NoteProcess? || step.WriteFinal? || step.Raise?
  }

  function Init(workers: set<WorkerName>): State {
    State(map[], 1, map w | w in workers :: Down, map[], map[], map[])
  }

  function PhaseOf(s: State, w: WorkerName): Phase {
    if w in s.phases then s.phases[w] else Down
  }

  function SetPhase(s: State, w: WorkerName, phase: Phase): State {
    s.(phases := s.phases[w := phase])
  }

  function Insert(s: State, row: Row): State {
    s.(rows := s.rows[s.nextId := row], nextId := s.nextId + 1,
       claims := s.claims[s.nextId := 0], requeues := s.requeues[s.nextId := 0])
  }

  predicate Stale(row: Row, w: WorkerName) {
    row.status == Claimed && row.worker == Some(w)
  }

  /** Start and stop jobs are the ones guarded against duplicates. */
  predicate Guarded(kind: JobKind) {
    kind == StartTask || kind == StopTask
  }

  predicate KeyFree(rows: Table, key: string) {
    forall id | id in rows :: rows[id].key != Some(key)
  }

  /** `serial` says that producers hold a lock per (task, kind) from the check to the INSERT. */
  function Apply(serial: bool, s: State, step: Step): State {
    match step
    case CheckRequest(p, kind, taskId) =>
      if taskId <= 0 || !Guarded(kind) || p in s.requests || HasActive(s.rows, kind, taskId) then s
      else if serial && Request(kind, taskId) in s.requests.Values then s
      else s.(requests := s.requests[p := Request(kind, taskId)])
    case InsertRequest(p) =>
      if p !in s.requests then s
      else
        var r := s.requests[p];
        Insert(s, NewRow(r.kind, r.taskId, None, [])).(requests := Without(s.requests, p))
    case InsertKeyed(kind, key, steps) =>
      if Guarded(kind) || key == "" || !KeyFree(s.rows, key) then s
      else Insert(s, NewRow(kind, 0, Some(key), steps))
    case SelectLowest(w) =>
      if PhaseOf(s, w) != Idle || LowestPending(s.rows).None? then s
      else SetPhase(s, w, Selected(LowestPending(s.rows).value))
    case SelectNamed(w, id) =>
      if PhaseOf(s, w) != Idle || !IsPending(s.rows, id) then s
      else SetPhase(s, w, Selected(id))
    case Claim(w) =>
      if !PhaseOf(s, w).Selected? then s
      else
        var id := PhaseOf(s, w).id;
        if IsPending(s.rows, id) then
          SetPhase(s, w, Handling(id, false)).(
            rows := ClaimUpdate(s.rows, id, w),
            claims := s.claims[id := (if id in s.claims then s.claims[id] else 0) + 1])
        else SetPhase(s, w, Idle)
    case Report(w, told) =>
      var phase := PhaseOf(s, w);
      if !phase.Handling? || phase.written then s
      else s.(rows := ProgressUpdate(s.rows, phase.id, told))
    case NoteProcess(w, pid) =>
      var phase := PhaseOf(s, w);
      if !phase.Handling? || phase.written then s
      else s.(rows := ProcessUpdate(s.rows, phase.id, pid))
    case WriteFinal(w, write) =>
      var phase := PhaseOf(s, w);
      if !phase.Handling? || phase.written || !EndsJob(write) then s
      else SetPhase(s, w, Handling(phase.id, true)).(rows := FinalUpdate(s.rows, phase.id, write))
    case Raise(w) =>
      var phase := PhaseOf(s, w);
      if !phase.Handling? then s
      else SetPhase(s, w, Idle).(rows := FinishUpdate(s.rows, phase.id, Failed, None))
    case Return(w) =>
      var phase := PhaseOf(s, w);
      if phase.Handling? && phase.written then SetPhase(s, w, Idle) else s
    case Crash(w) =>
      if w in s.phases then SetPhase(s, w, Down) else s
    case Restart(w) =>
      if w !in s.phases || s.phases[w] != Down then s
      else
        SetPhase(s, w, Idle).(
          rows := ClearStale(s.rows, w),
          requeues := map id | id in s.requeues ::
            s.requeues[id] + if id in s.rows && Stale(s.rows[id], w) then 1 else 0)
  }

  function Exec(serial: bool, s: State, steps: seq<Step>): State
    decreases |steps|
  {
    if steps == [] then s
    else Apply(serial, Exec(serial, s, steps[..|steps| - 1]), steps[|steps| - 1])
  }

  lemma ExecAppend(serial: bool, s: State, first: seq<Step>, rest: seq<Step>)
    ensures Exec(serial, s, first + rest) == Exec(serial, Exec(serial, s, first), rest)
    decreases |rest|
  {
    if rest == [] {
      assert first + rest == first;
    } else {
      var init := rest[..|rest| - 1];
      assert (first + rest)[..|first + rest| - 1] == first + init;
      ExecAppend(serial, s, first, init);
    }
  }

  // ----- the invariant ---------------------------------------------------------------------

  /** A worker inside a handler owns its row; the row is claimed or running until the handler
      has written a final status. */
  predicate OwnsWhatItHandles(s: State, w: WorkerName) {
    PhaseOf(s, w).Handling? ==>
      var id := PhaseOf(s, w).id;
      && id in s.rows
      && s.rows[id].worker == Some(w)
      && (if PhaseOf(s, w).written then Terminal(s.rows[id].status)
          else s.rows[id].status == Claimed || s.rows[id].status == Running)
  }

  /** A claimed row belongs to a worker that is handling it or is down. */
  predicate ClaimedIsHeld(s: State, id: JobId)
    requires id in s.rows
  {
    s.rows[id].status == Claimed ==>
      && s.rows[id].worker.Some?
      && s.rows[id].worker.value in s.phases
      && (PhaseOf(s, s.rows[id].worker.value) == Handling(id, false)
          || PhaseOf(s, s.rows[id].worker.value) == Down)
  }

  predicate Counted(s: State, id: JobId)
    requires id in s.rows
  {
    && id in s.claims && id in s.requeues
    && s.claims[id] == s.requeues[id] + if s.rows[id].status == Pending then 0 else 1
  }

  ghost predicate Inv(s: State) {
    && (forall id | id in s.rows :: id < s.nextId)
    && (forall w | w in s.phases :: OwnsWhatItHandles(s, w))
    && (forall id | id in s.rows :: ClaimedIsHeld(s, id))
    && (forall id | id in s.rows :: Counted(s, id))
  }

  lemma ApplyKeepsInv(serial: bool, s: State, step: Step)
    requires Inv(s)
    ensures Inv(Apply(serial, s, step))
  {
    match step
    case CheckRequest(_, _, _) =>
    case InsertRequest(_) => InsertStepKeepsInv(serial, s, step);
    case InsertKeyed(_, _, _) => InsertStepKeepsInv(serial, s, step);
    case Claim(w) => ClaimKeepsInv(serial, s, w);
    case Report(_, _) => HandlerStepKeepsInv(serial, s, step);
    case NoteProcess(_, _) => HandlerStepKeepsInv(serial, s, step);
    case WriteFinal(_, _) => HandlerStepKeepsInv(serial, s, step);
    case Raise(_) => HandlerStepKeepsInv(serial, s, step);
    case Restart(w) => RestartKeepsInv(serial, s, w);
    case _ => PhaseStepKeepsInv(serial, s, step);
  }

  lemma HandlerStepKeepsInv(serial: bool, s: State, step: Step)
    requires Inv(s) && IsHandlerStep(step)
    ensures Inv(Apply(serial, s, step))
  {
    assert step.w in s.phases ==> OwnsWhatItHandles(s, step.w);
    HandlerWriteKeepsInv(s, Apply(serial, s, step), step.w);
  }

  lemma InsertStepKeepsInv(serial: bool, s: State, step: Step)
    requires Inv(s) && (step.InsertRequest? || step.InsertKeyed?)
    ensures Inv(Apply(serial, s, step))
  {
    if step.InsertKeyed? {
      var row := NewRow(step.kind, 0, Some(step.key), step.steps);
      InsertKeepsInv(s, row, Insert(s, row));
    } else if step.producer in s.requests {
      var r := s.requests[step.producer];
      var row := NewRow(r.kind, r.taskId, None, []);
      InsertKeepsInv(s, row, Insert(s, row).(requests := Without(s.requests, step.producer)));
    }
  }

  lemma PhaseStepKeepsInv(serial: bool, s: State, step: Step)
    requires Inv(s) && (step.SelectLowest? || step.SelectNamed? || step.Return? || step.Crash?)
    ensures Inv(Apply(serial, s, step))
  {
    PhaseChangeKeepsInv(s, Apply(serial, s, step), step.w);
  }

  /** A worker that holds no unfinished job may go idle or select; any worker may go down. */
  lemma PhaseChangeKeepsInv(s: State, t: State, w: WorkerName)
    requires Inv(s)
    requires t == s || (
      && w in s.phases
      && t.rows == s.rows && t.nextId == s.nextId && t.claims == s.claims && t.requeues == s.requeues
      && t.phases == s.phases[w := PhaseOf(t, w)] && !PhaseOf(t, w).Handling?
      && (PhaseOf(t, w) == Down || (PhaseOf(s, w) != Down && (PhaseOf(s, w).Handling? ==> PhaseOf(s, w).written))))
    ensures Inv(t)
  {
    forall v | v in t.phases ensures OwnsWhatItHandles(t, v) {
      assert OwnsWhatItHandles(s, v);
    }
    forall id | id in t.rows ensures ClaimedIsHeld(t, id) && Counted(t, id) {
      assert ClaimedIsHeld(s, id) && Counted(s, id);
    }
  }

  lemma InsertKeepsInv(s: State, row: Row, t: State)
    requires Inv(s) && row.status == Pending
    requires t == Insert(s, row).(requests := t.requests)
    ensures Inv(t)
  {
    forall v | v in t.phases ensures OwnsWhatItHandles(t, v) {
      assert OwnsWhatItHandles(s, v);
    }
    forall id | id in t.rows ensures ClaimedIsHeld(t, id) && Counted(t, id) {
      assert id in s.rows ==> ClaimedIsHeld(s, id) && Counted(s, id);
    }
  }

  lemma ClaimKeepsInv(serial: bool, s: State, w: WorkerName)
    requires Inv(s)
    ensures Inv(Apply(serial, s, Claim(w)))
  {
    var t := Apply(serial, s, Claim(w));
    if PhaseOf(s, w).Selected? && IsPending(s.rows, PhaseOf(s, w).id) {
      assert w in s.phases;
      assert Counted(s, PhaseOf(s, w).id);
      forall v | v in t.phases ensures OwnsWhatItHandles(t, v) {
        assert OwnsWhatItHandles(s, v);
      }
      forall id | id in t.rows ensures ClaimedIsHeld(t, id) && Counted(t, id) {
        assert ClaimedIsHeld(s, id) && Counted(s, id);
      }
    } else {
      PhaseChangeKeepsInv(s, t, w);
    }
  }

  /** A handler writes only to its own row, and only to move it on from claimed or running. */
  lemma HandlerWriteKeepsInv(s: State, t: State, w: WorkerName)
    requires Inv(s)
    requires t == s || (
      && PhaseOf(s, w).Handling?
      && var id := PhaseOf(s, w).id;
      && t.rows.Keys == s.rows.Keys && t.nextId == s.nextId && t.claims == s.claims && t.requeues == s.requeues
      && (forall other | other in s.rows && other != id :: t.rows[other] == s.rows[other])
      && (id in t.rows ==> t.rows[id].worker == s.rows[id].worker)
      && (id in t.rows ==> t.rows[id].status == s.rows[id].status || t.rows[id].status in {Running, Completed, Failed})
      && ((t.phases == s.phases[w := Idle] && id in t.rows && t.rows[id].status == Failed)
          || (t.phases == s.phases && id in t.rows && !Terminal(t.rows[id].status) && !PhaseOf(s, w).written)
          || (t.phases == s.phases[w := Handling(id, true)] && id in t.rows && Terminal(t.rows[id].status))))
    ensures Inv(t)
  {
    if t != s {
      assert w in s.phases && OwnsWhatItHandles(s, w);
      var id := PhaseOf(s, w).id;
      forall i | i in t.rows ensures ClaimedIsHeld(t, i) && Counted(t, i) {
        assert ClaimedIsHeld(s, i) && Counted(s, i);
      }
      forall v | v in t.phases ensures OwnsWhatItHandles(t, v) {
        assert OwnsWhatItHandles(s, v);
      }
    }
  }

  lemma RestartKeepsInv(serial: bool, s: State, w: WorkerName)
    requires Inv(s)
    ensures Inv(Apply(serial, s, Restart(w)))
  {
    var t := Apply(serial, s, Restart(w));
    if t != s {
      forall i | i in t.rows ensures ClaimedIsHeld(t, i) && Counted(t, i) {
        assert ClaimedIsHeld(s, i) && Counted(s, i);
      }
      forall v | v in t.phases ensures OwnsWhatItHandles(t, v) {
        assert OwnsWhatItHandles(s, v);
      }
    }
  }

  lemma {:induction false} ExecKeepsInv(serial: bool, s: State, steps: seq<Step>)
    requires Inv(s)
    ensures Inv(Exec(serial, s, steps))
    decreases |steps|
  {
    if steps != [] {
      ExecKeepsInv(serial, s, steps[..|steps| - 1]);
      ApplyKeepsInv(serial, Exec(serial, s, steps[..|steps| - 1]), steps[|steps| - 1]);
    }
  }

  // ----- safety over all runs --------------------------------------------------------------

  /** In every reachable state a job is in the hands of at most one worker, whose name is on the row. */
  lemma Exclusive(serial: bool, workers: set<WorkerName>, steps: seq<Step>, v: WorkerName, w: WorkerName)
    requires var s := Exec(serial, Init(workers), steps);
             PhaseOf(s, v).Handling? && PhaseOf(s, w).Handling? && PhaseOf(s, v).id == PhaseOf(s, w).id
    ensures v == w
    ensures var s := Exec(serial, Init(workers), steps);
            var id := PhaseOf(s, w).id;
            id in s.rows && s.rows[id].worker == Some(w) && s.rows[id].status != Pending
  {
    ExecKeepsInv(serial, Init(workers), steps);
    var s := Exec(serial, Init(workers), steps);
    assert OwnsWhatItHandles(s, v) && OwnsWhatItHandles(s, w);
  }

  /** The successful claims of a job are exactly its returns to pending, plus one once it has left
      pending for good or for now. */
  lemma ClaimsCounted(serial: bool, workers: set<WorkerName>, steps: seq<Step>, id: JobId)
    requires id in Exec(serial, Init(workers), steps).rows
    ensures var s := Exec(serial, Init(workers), steps);
            && id in s.claims && id in s.requeues
            && s.claims[id] <= 1 + s.requeues[id]
            && (s.claims[id] == 1 + s.requeues[id] <==> s.rows[id].status != Pending)
  {
    ExecKeepsInv(serial, Init(workers), steps);
    assert Counted(Exec(serial, Init(workers), steps), id);
  }

  /** A step changes an existing row only as a claim of a pending row, or on behalf of the worker
      whose name the row carries. */
  lemma OnlyTheOwnerWrites(serial: bool, workers: set<WorkerName>, steps: seq<Step>, step: Step, id: JobId)
    requires id in Exec(serial, Init(workers), steps).rows
    ensures var s := Exec(serial, Init(workers), steps);
            var t := Apply(serial, s, step);
            && id in t.rows
            && (t.rows[id] != s.rows[id] ==>
                  || (step.Claim? && s.rows[id].status == Pending && t.rows[id].worker == Some(step.w))
                  || ((IsHandlerStep(step) || step.Restart?) && s.rows[id].worker == Some(step.w)))
  {
    ExecKeepsInv(serial, Init(workers), steps);
    OwnerStep(serial, Exec(serial, Init(workers), steps), step, id);
  }

  lemma OwnerStep(serial: bool, s: State, step: Step, id: JobId)
    requires Inv(s) && id in s.rows
    ensures var t := Apply(serial, s, step);
            && id in t.rows
            && (t.rows[id] != s.rows[id] ==>
                  || (step.Claim? && s.rows[id].status == Pending && t.rows[id].worker == Some(step.w))
                  || ((IsHandlerStep(step) || step.Restart?) && s.rows[id].worker == Some(step.w)))
  {
    assert id < s.nextId;
    if IsHandlerStep(step) {
      assert step.w in s.phases ==> OwnsWhatItHandles(s, step.w);
    }
  }

  lemma TerminalStep(serial: bool, s: State, step: Step, id: JobId)
    requires Inv(s) && id in s.rows && Terminal(s.rows[id].status)
    ensures var t := Apply(serial, s, step); id in t.rows && Terminal(t.rows[id].status)
  {
    if IsHandlerStep(step) {
      assert step.w in s.phases ==> OwnsWhatItHandles(s, step.w);
    } else {
      QuietStep(serial, s, step, id);
    }
  }

  predicate Finished(s: State, id: JobId) {
    id in s.rows && Terminal(s.rows[id].status)
  }

  lemma {:induction false} FinishedRun(serial: bool, s: State, steps: seq<Step>, id: JobId)
    requires Inv(s) && Finished(s, id)
    ensures Finished(Exec(serial, s, steps), id)
    decreases |steps|
  {
    if steps != [] {
      var init := steps[..|steps| - 1];
      FinishedRun(serial, s, init, id);
      ExecKeepsInv(serial, s, init);
      TerminalStep(serial, Exec(serial, s, init), steps[|steps| - 1], id);
    }
  }

  /** Once a row is completed or failed it stays in that set, whatever happens afterwards. */
  lemma TerminalIsClosed(serial: bool, workers: set<WorkerName>, before: seq<Step>, after: seq<Step>, id: JobId)
    requires Finished(Exec(serial, Init(workers), before), id)
    ensures Finished(Exec(serial, Init(workers), before + after), id)
  {
    ExecKeepsInv(serial, Init(workers), before);
    FinishedRun(serial, Exec(serial, Init(workers), before), after, id);
    ExecAppend(serial, Init(workers), before, after);
  }

  predicate IsCompleted(s: State, id: JobId) {
    id in s.rows && s.rows[id].status == Completed
  }

  predicate IsFailed(s: State, id: JobId) {
    id in s.rows && s.rows[id].status == Failed
  }

  /** Exactly when a step changes the status of a completed row of a reachable state: its handler raises
      after the final write, and the status becomes failed. */
  lemma CompletedChangesIff(serial: bool, workers: set<WorkerName>, steps: seq<Step>, step: Step, id: JobId)
    requires IsCompleted(Exec(serial, Init(workers), steps), id)
    ensures var s := Exec(serial, Init(workers), steps);
            && (!IsCompleted(Apply(serial, s, step), id) <==> step.Raise? && PhaseOf(s, step.w) == Handling(id, true))
            && (!IsCompleted(Apply(serial, s, step), id) ==> IsFailed(Apply(serial, s, step), id))
  {
    ExecKeepsInv(serial, Init(workers), steps);
    CompletedStep(serial, Exec(serial, Init(workers), steps), step, id);
  }

  lemma CompletedStep(serial: bool, s: State, step: Step, id: JobId)
    requires Inv(s) && IsCompleted(s, id)
    ensures !IsCompleted(Apply(serial, s, step), id) <==> step.Raise? && PhaseOf(s, step.w) == Handling(id, true)
    ensures !IsCompleted(Apply(serial, s, step), id) ==> IsFailed(Apply(serial, s, step), id)
  {
    if IsHandlerStep(step) {
      assert step.w in s.phases ==> OwnsWhatItHandles(s, step.w);
    } else {
      QuietStep(serial, s, step, id);
    }
  }

  /** Steps outside handlers leave a terminal row as it is. */
  lemma QuietStep(serial: bool, s: State, step: Step, id: JobId)
    requires Inv(s) && id in s.rows && Terminal(s.rows[id].status) && !IsHandlerStep(step)
    ensures id in Apply(serial, s, step).rows && Apply(serial, s, step).rows[id] == s.rows[id]
  {
    assert id < s.nextId;
  }

  /** A worker that has claimed job 1, the only job there is. */
  predicate ClaimedFirst(s: State, w: WorkerName) {
    && s.phases == map[w := Handling(1, false)]
    && s.rows == map[1 := NewRow(GenerateTask, 0, Some("k"), []).(status := Claimed, worker := Some(w))]
  }

  /** A worker that is up, with job 1 waiting and no other job. */
  predicate OneWaiting(s: State, w: WorkerName) {
    s.phases == map[w := Idle] && s.rows == map[1 := NewRow(GenerateTask, 0, Some("k"), [])]
  }

  lemma InsertFirst(serial: bool, w: WorkerName)
    ensures OneWaiting(Apply(serial, Apply(serial, Init({w}), Restart(w)), InsertKeyed(GenerateTask, "k", [])), w)
  {
    var s := Apply(serial, Init({w}), Restart(w));
    assert s.rows == map[] && s.phases == map[w := Idle] && s.nextId == 1;
  }

  lemma ClaimWaiting(serial: bool, s: State, w: WorkerName)
    requires OneWaiting(s, w)
    ensures ClaimedFirst(Apply(serial, Apply(serial, s, SelectNamed(w, 1)), Claim(w)), w)
  {
    var t := Apply(serial, s, SelectNamed(w, 1));
    assert t.phases == map[w := Selected(1)] && t.rows == s.rows;
  }

  lemma ClaimFirst(serial: bool, w: WorkerName)
    ensures ClaimedFirst(
              Exec(serial, Init({w}), [Restart(w), InsertKeyed(GenerateTask, "k", []), SelectNamed(w, 1), Claim(w)]), w)
  {
    InsertFirst(serial, w);
    ClaimWaiting(serial, Apply(serial, Apply(serial, Init({w}), Restart(w)), InsertKeyed(GenerateTask, "k", [])), w);
    ExecFour(serial, Init({w}), Restart(w), InsertKeyed(GenerateTask, "k", []), SelectNamed(w, 1), Claim(w));
  }

  /** Inside the terminal set a row may still move: a handler that raises after it has stored
      "completed" has its job rewritten to "failed". */
  lemma CompletedMayBecomeFailed(serial: bool, w: WorkerName)
    ensures exists steps ::
              var s := Exec(serial, Init({w}), steps);
              && IsCompleted(s, 1) && IsFailed(Apply(serial, s, Raise(w)), 1)
  {
    var steps := [Restart(w), InsertKeyed(GenerateTask, "k", []), SelectNamed(w, 1), Claim(w)];
    ClaimFirst(serial, w);
    RaiseAfterFinal(serial, Exec(serial, Init({w}), steps), w);
    ExecLast(serial, Init({w}), steps, WriteFinal(w, Complete(7, None)));
    var longer := steps + [WriteFinal(w, Complete(7, None))];
    assert IsCompleted(Exec(serial, Init({w}), longer), 1);
  }

  lemma RaiseAfterFinal(serial: bool, s: State, w: WorkerName)
    requires ClaimedFirst(s, w)
    ensures var t := Apply(serial, s, WriteFinal(w, Complete(7, None)));
            IsCompleted(t, 1) && IsFailed(Apply(serial, t, Raise(w)), 1)
  {
  }

  lemma ExecLast(serial: bool, s: State, init: seq<Step>, last: Step)
    ensures Exec(serial, s, init + [last]) == Apply(serial, Exec(serial, s, init), last)
  {
    assert (init + [last])[..|init + [last]| - 1] == init;
  }

  lemma ExecFour(serial: bool, s: State, a: Step, b: Step, c: Step, d: Step)
    ensures Exec(serial, s, [a, b, c, d])
            == Apply(serial, Apply(serial, Apply(serial, Apply(serial, s, a), b), c), d)
  {
    ExecLast(serial, s, [], a);
    ExecLast(serial, s, [a], b);
    ExecLast(serial, s, [a, b], c);
    ExecLast(serial, s, [a, b, c], d);
    assert [] + [a] == [a] && [a] + [b] == [a, b] && [a, b] + [c] == [a, b, c];
    assert [a, b, c] + [d] == [a, b, c, d];
  }

  // ----- requests --------------------------------------------------------------------------

  /** When a start or stop request passes its check: for a positive task id without a pending or claimed row of that
      task and kind, and, where checks and INSERTs are serialised, without another one in between. */
  lemma RequestPassesIff(serial: bool, s: State, p: nat, kind: JobKind, taskId: int)
    requires p !in s.requests
    ensures var t := Apply(serial, s, CheckRequest(p, kind, taskId));
            var passes := taskId >= 1 && kind in {StartTask, StopTask}
                          && !(exists id | id in s.rows :: s.rows[id].kind == kind && s.rows[id].taskId == taskId
                                                          && s.rows[id].status in {Pending, Claimed})
                          && !(serial && exists q | q in s.requests :: s.requests[q] == Request(kind, taskId));
            && (p in t.requests <==> passes)
            && t == (if passes then s.(requests := s.requests[p := Request(kind, taskId)]) else s)
  {
    if id :| id in s.rows && s.rows[id].kind == kind && s.rows[id].taskId == taskId && s.rows[id].status in {Pending, Claimed} {
      assert Active(s.rows[id], kind, taskId);
    }
    if HasActive(s.rows, kind, taskId) {
      var id :| id in s.rows && Active(s.rows[id], kind, taskId);
    }
  }

  /** A request that has passed becomes a pending row under the next id; a keyed job does exactly when its key is new. */
  lemma InsertsIff(serial: bool, s: State, p: nat, kind: JobKind, key: string, steps: seq<GenerationSteps.Step>)
    ensures var t := Apply(serial, s, InsertRequest(p));
            if p in s.requests
            then t.rows == s.rows[s.nextId := Row(s.requests[p].kind, s.requests[p].taskId, None, Pending, None, None, [])]
                 && t.nextId == s.nextId + 1 && t.requests == s.requests - {p}
            else t == s
    ensures var t := Apply(serial, s, InsertKeyed(kind, key, steps));
            if kind !in {StartTask, StopTask} && key != "" && forall id | id in s.rows :: s.rows[id].key != Some(key)
            then t.rows == s.rows[s.nextId := Row(kind, 0, Some(key), Pending, None, None, steps)] && t.nextId == s.nextId + 1
            else t == s
  {
  }

  /** No run ever has two rows with one key. */
  lemma {:induction false} KeysStayUnique(serial: bool, workers: set<WorkerName>, steps: seq<Step>)
    ensures KeysUnique(Exec(serial, Init(workers), steps).rows)
    decreases |steps|
  {
    if steps != [] {
      var s, last := Exec(serial, Init(workers), steps[..|steps| - 1]), steps[|steps| - 1];
      KeysStayUnique(serial, workers, steps[..|steps| - 1]);
      ExecKeepsInv(serial, Init(workers), steps[..|steps| - 1]);
      StepKeepsKeys(serial, s, last);
    }
  }

  lemma StepKeepsKeys(serial: bool, s: State, step: Step)
    requires Inv(s) && KeysUnique(s.rows)
    ensures KeysUnique(Apply(serial, s, step).rows)
  {
    var t := Apply(serial, s, step);
    forall i | i in t.rows ensures (i in s.rows && t.rows[i].key == s.rows[i].key) || (i == s.nextId && NewKey(s, t.rows[i])) {
      KeyStays(serial, s, step, i);
    }
  }

  predicate NewKey(s: State, row: Row) {
    row.key.Some? ==> forall id | id in s.rows :: s.rows[id].key != row.key
  }

  lemma KeyStays(serial: bool, s: State, step: Step, i: JobId)
    requires Inv(s) && i in Apply(serial, s, step).rows
    ensures var t := Apply(serial, s, step);
            (i in s.rows && t.rows[i].key == s.rows[i].key) || (i == s.nextId && NewKey(s, t.rows[i]))
  {
    if IsHandlerStep(step) {
      assert step.w in s.phases ==> OwnsWhatItHandles(s, step.w);
    }
  }

  // ----- recovery --------------------------------------------------------------------------

  /** A worker that starts again makes exactly the rows that are still claimed in its name pending, in nobody's name,
      and touches no other row. */
  lemma StaleRowsReturn(serial: bool, s: State, w: WorkerName, id: JobId)
    requires w in s.phases && s.phases[w] == Down && id in s.rows
    ensures var t := Apply(serial, s, Restart(w));
            && t.rows.Keys == s.rows.Keys
            && t.rows[id] == if s.rows[id].status == Claimed && s.rows[id].worker == Some(w)
                             then s.rows[id].(status := Pending, worker := None) else s.rows[id]
  {
  }

  /** A job in the hands of a worker that crashes and restarts is returned to pending exactly when
      it was still claimed; a running or finished row is left as it was. */
  lemma CrashRecovery(serial: bool, workers: set<WorkerName>, steps: seq<Step>, w: WorkerName)
    requires PhaseOf(Exec(serial, Init(workers), steps), w).Handling?
    ensures var s := Exec(serial, Init(workers), steps);
            var id := PhaseOf(s, w).id;
            var t := Apply(serial, Apply(serial, s, Crash(w)), Restart(w));
            && PhaseOf(t, w) == Idle
            && id in s.rows && id in t.rows
            && (t.rows[id].status == Pending <==> s.rows[id].status == Claimed)
            && (s.rows[id].status != Claimed ==> t.rows[id] == s.rows[id])
            && forall other | other in t.rows :: !Stale(t.rows[other], w)
  {
    ExecKeepsInv(serial, Init(workers), steps);
    var s := Exec(serial, Init(workers), steps);
    assert OwnsWhatItHandles(s, w);
  }

  /** A running row that nobody handles. */
  predicate Orphan(s: State, id: JobId) {
    id in s.rows && s.rows[id].status == Running && forall w | w in s.phases :: !Handles(s, w, id)
  }

  predicate Handles(s: State, w: WorkerName, id: JobId) {
    PhaseOf(s, w).Handling? && PhaseOf(s, w).id == id
  }

  lemma OrphanRowKept(serial: bool, s: State, step: Step, id: JobId)
    requires Inv(s) && Orphan(s, id)
    ensures var t := Apply(serial, s, step); id in t.rows && t.rows[id] == s.rows[id]
  {
    assert id < s.nextId;
    if IsHandlerStep(step) {
      assert step.w in s.phases ==> OwnsWhatItHandles(s, step.w) && !Handles(s, step.w, id);
    }
  }

  /** Only a claim, of a pending row, makes a worker handle a job it did not handle before. */
  lemma HandlesOnlyByClaim(serial: bool, s: State, step: Step, w: WorkerName, id: JobId)
    requires Handles(Apply(serial, s, step), w, id) && !Handles(s, w, id)
    ensures IsPending(s.rows, id)
  {
  }

  lemma OrphanStep(serial: bool, s: State, step: Step, id: JobId)
    requires Inv(s) && Orphan(s, id)
    ensures var t := Apply(serial, s, step); Orphan(t, id) && t.rows[id] == s.rows[id]
  {
    OrphanRowKept(serial, s, step, id);
    OrphanStaysUnhandled(serial, s, step, id);
  }

  lemma OrphanStaysUnhandled(serial: bool, s: State, step: Step, id: JobId)
    requires Orphan(s, id)
    ensures forall w | w in Apply(serial, s, step).phases :: !Handles(Apply(serial, s, step), w, id)
  {
    var t := Apply(serial, s, step);
    forall w | w in t.phases ensures !Handles(t, w, id) {
      assert w in s.phases ==> !Handles(s, w, id);
      if Handles(t, w, id) {
        HandlesOnlyByClaim(serial, s, step, w, id);
      }
    }
  }

  lemma {:induction false} OrphanRun(serial: bool, s: State, steps: seq<Step>, id: JobId)
    requires Inv(s) && Orphan(s, id)
    ensures var t := Exec(serial, s, steps); Orphan(t, id) && t.rows[id] == s.rows[id]
    decreases |steps|
  {
    if steps != [] {
      var init := steps[..|steps| - 1];
      OrphanRun(serial, s, init, id);
      ExecKeepsInv(serial, s, init);
      OrphanStep(serial, Exec(serial, s, init), steps[|steps| - 1], id);
    }
  }

  /** Stale-clearing looks at claimed rows only: a row whose worker died while it was running is
      never touched again, by any continuation of the run. */
  lemma OrphanIsNeverRecovered(serial: bool, workers: set<WorkerName>, before: seq<Step>, after: seq<Step>, id: JobId)
    requires Orphan(Exec(serial, Init(workers), before), id)
    ensures var s, t := Exec(serial, Init(workers), before), Exec(serial, Init(workers), before + after);
            Orphan(t, id) && id in s.rows && t.rows[id] == s.rows[id]
  {
    ExecKeepsInv(serial, Init(workers), before);
    OrphanRun(serial, Exec(serial, Init(workers), before), after, id);
    ExecAppend(serial, Init(workers), before, after);
  }

  // ----- duplicate requests ----------------------------------------------------------------

  predicate SameRequest(a: Row, b: Row) {
    a.kind == b.kind && a.taskId == b.taskId && Active(a, a.kind, a.taskId) && Active(b, b.kind, b.taskId)
  }

  /** At most one pending-or-claimed row per (task, start) and per (task, stop). */
  predicate UniqueRequests(rows: Table) {
    forall i, j | i in rows && j in rows && i != j && Guarded(rows[i].kind) :: !SameRequest(rows[i], rows[j])
  }

  /** While a request waits for its INSERT, no active row and no other waiting request clashes. */
  ghost predicate RequestsReserved(s: State) {
    && (forall p | p in s.requests ::
          Guarded(s.requests[p].kind) && !HasActive(s.rows, s.requests[p].kind, s.requests[p].taskId))
    && (forall p, q | p in s.requests && q in s.requests && p != q :: s.requests[p] != s.requests[q])
  }

  /** What a request asks for and a handler reads of its row. */
  predicate SameOrder(a: Row, b: Row) {
    a.kind == b.kind && a.taskId == b.taskId && a.steps == b.steps
  }

  predicate StaysOrdered(before: Row, after: Row) {
    && after.kind == before.kind
    && (after.status in {Pending, Claimed} ==> before.status in {Pending, Claimed} && SameOrder(after, before))
  }

  lemma HandlersEndRequests(serial: bool, s: State, step: Step, id: JobId)
    requires Inv(s) && id in s.rows && IsHandlerStep(step)
    ensures var t := Apply(serial, s, step); id in t.rows && StaysOrdered(s.rows[id], t.rows[id])
  {
    assert step.w in s.phases ==> OwnsWhatItHandles(s, step.w);
  }

  /** No step but an INSERT makes a row active that was not active before, and an active row keeps what it
      asks for. */
  lemma ActiveOnlyByInsert(serial: bool, s: State, step: Step, id: JobId)
    requires Inv(s) && id in s.rows
    ensures var t := Apply(serial, s, step); id in t.rows && StaysOrdered(s.rows[id], t.rows[id])
  {
    assert id < s.nextId;
    if IsHandlerStep(step) {
      HandlersEndRequests(serial, s, step, id);
    }
  }

  lemma NoNewActive(serial: bool, s: State, step: Step, kind: JobKind, taskId: int)
    requires Inv(s) && Guarded(kind) && !HasActive(s.rows, kind, taskId)
    requires step.InsertRequest? && step.producer in s.requests ==>
               s.requests[step.producer] != Request(kind, taskId)
    ensures !HasActive(Apply(serial, s, step).rows, kind, taskId)
  {
    var t := Apply(serial, s, step);
    forall id | id in t.rows ensures !Active(t.rows[id], kind, taskId) {
      if id in s.rows {
        ActiveOnlyByInsert(serial, s, step, id);
        assert !Active(s.rows[id], kind, taskId);
      }
    }
  }

  lemma SerialStepReserves(s: State, step: Step)
    requires Inv(s) && RequestsReserved(s)
    ensures RequestsReserved(Apply(true, s, step))
  {
    var t := Apply(true, s, step);
    forall p | p in t.requests
      ensures Guarded(t.requests[p].kind) && !HasActive(t.rows, t.requests[p].kind, t.requests[p].taskId)
    {
      if p in s.requests {
        NoNewActive(true, s, step, s.requests[p].kind, s.requests[p].taskId);
      }
    }
  }

  lemma SerialStepUnique(s: State, step: Step)
    requires Inv(s) && UniqueRequests(s.rows) && RequestsReserved(s)
    ensures UniqueRequests(Apply(true, s, step).rows)
  {
    var t := Apply(true, s, step);
    if step.InsertRequest? {
      if step.producer in s.requests {
        InsertUnique(s, t, step.producer);
      }
    } else {
      forall i, j | i in t.rows && j in t.rows && i != j && Guarded(t.rows[i].kind)
        ensures !SameRequest(t.rows[i], t.rows[j])
      {
        if i !in s.rows {
          NewIsUnguarded(s, step, i);
        } else if j !in s.rows {
          NewIsUnguarded(s, step, j);
        } else {
          assert !SameRequest(s.rows[i], s.rows[j]) by {
            ActiveOnlyByInsert(true, s, step, i);
          }
          PairStaysApart(s, step, i, j);
        }
      }
    }
  }

  lemma NewIsUnguarded(s: State, step: Step, i: JobId)
    requires !step.InsertRequest? && i in Apply(true, s, step).rows && i !in s.rows
    ensures !Guarded(Apply(true, s, step).rows[i].kind)
  {
  }

  lemma PairStaysApart(s: State, step: Step, i: JobId, j: JobId)
    requires Inv(s) && i in s.rows && j in s.rows && i != j && Guarded(s.rows[i].kind)
    requires !SameRequest(s.rows[i], s.rows[j])
    ensures var t := Apply(true, s, step); i in t.rows && j in t.rows && !SameRequest(t.rows[i], t.rows[j])
  {
    ActiveOnlyByInsert(true, s, step, i);
    ActiveOnlyByInsert(true, s, step, j);
  }

  lemma InsertUnique(s: State, t: State, p: nat)
    requires UniqueRequests(s.rows) && p in s.requests
    requires !HasActive(s.rows, s.requests[p].kind, s.requests[p].taskId)
    requires t.rows == s.rows[s.nextId := NewRow(s.requests[p].kind, s.requests[p].taskId, None, [])]
    requires forall id | id in s.rows :: id < s.nextId
    ensures UniqueRequests(t.rows)
  {
    forall i, j | i in t.rows && j in t.rows && i != j && Guarded(t.rows[i].kind)
      ensures !SameRequest(t.rows[i], t.rows[j])
    {
      assert i in s.rows ==> !Active(s.rows[i], s.requests[p].kind, s.requests[p].taskId);
      assert j in s.rows ==> !Active(s.rows[j], s.requests[p].kind, s.requests[p].taskId);
      assert i in s.rows && j in s.rows ==> !SameRequest(s.rows[i], s.rows[j]);
    }
  }

  /** If check and INSERT of a request are serialised per (task, kind), every run keeps at most one
      live request per task and kind, through claims, crashes and stale-clearing alike. */
  lemma {:induction false} SerialRequestsAreUnique(workers: set<WorkerName>, steps: seq<Step>)
    ensures UniqueRequests(Exec(true, Init(workers), steps).rows)
    ensures RequestsReserved(Exec(true, Init(workers), steps))
    decreases |steps|
  {
    if steps != [] {
      var init := steps[..|steps| - 1];
      SerialRequestsAreUnique(workers, init);
      ExecKeepsInv(true, Init(workers), init);
      SerialStepReserves(Exec(true, Init(workers), init), steps[|steps| - 1]);
      SerialStepUnique(Exec(true, Init(workers), init), steps[|steps| - 1]);
    }
  }

  /** One INSERT keeps requests unique exactly when, at that moment, no live request of the same
      task and kind exists: the check has to be still true, not to have been true. */
  lemma InsertKeepsUniqueIff(serial: bool, workers: set<WorkerName>, steps: seq<Step>, p: nat)
    requires var s := Exec(serial, Init(workers), steps);
             UniqueRequests(s.rows) && p in s.requests && Guarded(s.requests[p].kind)
    ensures var s := Exec(serial, Init(workers), steps);
            UniqueRequests(Apply(serial, s, InsertRequest(p)).rows)
            <==> !HasActive(s.rows, s.requests[p].kind, s.requests[p].taskId)
  {
    ExecKeepsInv(serial, Init(workers), steps);
    var s := Exec(serial, Init(workers), steps);
    var r := s.requests[p];
    var t := Apply(serial, s, InsertRequest(p));
    if HasActive(s.rows, r.kind, r.taskId) {
      var id :| id in s.rows && Active(s.rows[id], r.kind, r.taskId);
      assert id < s.nextId && SameRequest(t.rows[s.nextId], t.rows[id]);
    } else {
      InsertUnique(s, t, p);
    }
  }

  /** Without serialisation two producers can both pass the check before either inserts. */
  lemma UnserialisedRequestsClash(taskId: int)
    requires taskId > 0
    ensures var steps := [CheckRequest(0, StartTask, taskId), CheckRequest(1, StartTask, taskId),
                          InsertRequest(0), InsertRequest(1)];
            !UniqueRequests(Exec(false, Init({}), steps).rows)
  {
    var a, b := CheckRequest(0, StartTask, taskId), CheckRequest(1, StartTask, taskId);
    var s1 := Apply(false, Init({}), a);
    assert s1.requests == map[0 := Request(StartTask, taskId)] && s1.rows == map[];
    var s2 := Apply(false, s1, b);
    assert s2.requests == map[0 := Request(StartTask, taskId), 1 := Request(StartTask, taskId)];
    var s3 := Apply(false, s2, InsertRequest(0));
    var s4 := Apply(false, s3, InsertRequest(1));
    ExecFour(false, Init({}), a, b, InsertRequest(0), InsertRequest(1));
    assert 1 in s4.rows && 2 in s4.rows && SameRequest(s4.rows[1], s4.rows[2]);
  }
}
