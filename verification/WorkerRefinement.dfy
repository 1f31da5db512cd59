/** The worker loop among other workers. Its SQL statements run on a shared table, and between any two of
    them the others take whatever protocol steps they like. Every such run is a run of the job protocol, and a
    job ends as if its worker had been alone. `WorkerFleet` puts any number of such loops together. */
module WorkerRefinement {
  import opened Basics
  import opened JobTable
  import GenerationSteps
  import Protocol = JobProtocol
  import Worker = WorkerLoop

  // ----- handlers as lists of statements -------------------------------------------------------

  /** `Rescue` is the statement of `main` for a handler that raised. */
  datatype Stmt =
    | Progress(told: Option<seq<GenerationSteps.Step>>)
    | SetProcess(pid: int)
    | Write(write: Protocol.FinalWrite)
    | Rescue

  type Script = seq<Stmt>

  function Perform(rows: Table, id: JobId, stmt: Stmt): Table {
    match stmt
    case Progress(told) => ProgressUpdate(rows, id, told)
    case SetProcess(pid) => ProcessUpdate(rows, id, pid)
    case Write(write) => Protocol.FinalUpdate(rows, id, write)
    case Rescue => FinishUpdate(rows, id, Failed, None)
  }

  function PerformAll(rows: Table, id: JobId, script: Script): Table
    decreases |script|
  {
    if script == [] then rows else PerformAll(Perform(rows, id, script[0]), id, script[1..])
  }

  function Ending(write: Protocol.FinalWrite, raises: bool): Script {
    [Write(write)] + if raises then [Rescue] else []
  }

  function StartScript(s: Worker.World, task: Worker.TaskId, env: Worker.Env): Script {
    if task !in s.tasks || !s.tasks[task].enabled then [Write(Protocol.Finish(Failed, None))]
    else if Worker.AliveEntry(s, task) then [Write(Protocol.Finish(Completed, Some(s.running[task])))]
    else if env.launchRaises then [Rescue]
    else [SetProcess(s.nextPid)] + Ending(Protocol.Finish(Completed, Some(s.nextPid)), env.publishRaises)
  }

  function StopScript(s: Worker.World, task: Worker.TaskId, env: Worker.Env): Script {
    if Worker.AliveEntry(s, task) && env.stop != Worker.ChildExits then [Rescue]
    else Ending(Protocol.Finish(Completed, None), env.publishRaises)
  }

  function OutputScript(steps: seq<GenerationSteps.Step>, last: Option<string>, text: string,
                        lines: seq<Worker.Line>, env: Worker.Env): Script
    decreases |lines|
  {
    if lines == [] then
      var message := if text != "" && text != Worker.QUEUED_TEXT then text else env.exitText;
      [Write(Protocol.GiveUp(Some(if env.exitOk then steps else GenerationSteps.FailedAt(steps, last, message))))]
    else
      match lines[0]
      case ProgressLine(step, words) =>
        var said := if words != "" then words else text;
        var key := if step == Some("") then None else step;
        var next := GenerationSteps.Applied(steps, key, said);
        [Progress(Some(next))] + OutputScript(next, key, said, lines[1..], env)
      case ResultLine(taskId) =>
        if taskId.None? then [Rescue]
        else Ending(Protocol.Complete(taskId.value, Some(GenerationSteps.AllDone(steps))), env.publishRaises || env.waitRaises)
      case MalformedResult => Ending(Protocol.GiveUp(Some(steps)), env.waitRaises)
      case ErrorLine(error) => Ending(Protocol.GiveUp(Some(GenerationSteps.FailedAt(steps, last, error))), env.waitRaises)
      case Noise => OutputScript(steps, last, text, lines[1..], env)
  }

  function ResultScript(lines: seq<Worker.Line>, env: Worker.Env): Script
    decreases |lines|
  {
    if lines == [] then [Write(Protocol.GiveUp(None))]
    else
      match lines[0]
      case ResultLine(taskId) =>
        if taskId.None? then [Rescue]
        else Ending(Protocol.Complete(taskId.value, None), env.publishRaises || env.waitRaises)
      case MalformedResult => Ending(Protocol.GiveUp(None), env.waitRaises)
      case ErrorLine(_) => Ending(Protocol.GiveUp(None), env.waitRaises)
      case _ => ResultScript(lines[1..], env)
  }

  /** What the handler of a job executes, from the row it selected and the worker's own state. */
  function ScriptOf(s: Worker.World, row: Row, env: Worker.Env): Script {
    match row.kind
    case StartTask => StartScript(s, row.taskId, env)
    case StopTask => StopScript(s, row.taskId, env)
    case GenerateTask =>
      if !env.payloadOk then [Write(Protocol.GiveUp(None))]
      else if env.launchRaises then [Rescue]
      else OutputScript(row.steps, None, Worker.QUEUED_TEXT, env.lines, env)
    case ReanalyzeResult =>
      if !env.payloadOk then [Write(Protocol.GiveUp(None))]
      else [Progress(None)] + if env.launchRaises then [Rescue] else ResultScript(env.lines, env)
    case OtherKind => [Write(Protocol.Finish(Failed, None))]
  }

  lemma EndingPerforms(rows: Table, id: JobId, write: Protocol.FinalWrite, raises: bool)
    ensures PerformAll(rows, id, Ending(write, raises)) == Worker.Rescued(Protocol.FinalUpdate(rows, id, write), id, raises)
  {
    var script := Ending(write, raises);
    assert script[1..] == if raises then [Rescue] else [];
    if raises {
      assert [Rescue][1..] == [];
    }
  }

  lemma OnePerforms(rows: Table, id: JobId, stmt: Stmt)
    ensures PerformAll(rows, id, [stmt]) == Perform(rows, id, stmt)
  {
    assert [stmt][1..] == [];
  }

  lemma ConsPerforms(rows: Table, id: JobId, stmt: Stmt, rest: Script)
    ensures PerformAll(rows, id, [stmt] + rest) == PerformAll(Perform(rows, id, stmt), id, rest)
  {
    assert ([stmt] + rest)[1..] == rest;
  }

  lemma {:induction false} OutputPerforms(
      rows: Table, id: JobId, steps: seq<GenerationSteps.Step>, last: Option<string>, text: string,
      lines: seq<Worker.Line>, env: Worker.Env)
    ensures PerformAll(rows, id, OutputScript(steps, last, text, lines, env))
         == Worker.Generated(rows, id, steps, last, text, lines, env)
    decreases |lines|
  {
    if lines == [] {
      var message := if text != "" && text != Worker.QUEUED_TEXT then text else env.exitText;
      OnePerforms(rows, id, Write(Protocol.GiveUp(Some(if env.exitOk then steps else GenerationSteps.FailedAt(steps, last, message)))));
    } else {
      match lines[0]
      case ProgressLine(step, words) =>
        var said := if words != "" then words else text;
        var key := if step == Some("") then None else step;
        var next := GenerationSteps.Applied(steps, key, said);
        OutputPerforms(ProgressUpdate(rows, id, Some(next)), id, next, key, said, lines[1..], env);
        ConsPerforms(rows, id, Progress(Some(next)), OutputScript(next, key, said, lines[1..], env));
      case ResultLine(taskId) =>
        OnePerforms(rows, id, Rescue);
        if taskId.Some? {
          EndingPerforms(rows, id, Protocol.Complete(taskId.value, Some(GenerationSteps.AllDone(steps))), env.publishRaises || env.waitRaises);
        }
      case MalformedResult => EndingPerforms(rows, id, Protocol.GiveUp(Some(steps)), env.waitRaises);
      case ErrorLine(error) =>
        EndingPerforms(rows, id, Protocol.GiveUp(Some(GenerationSteps.FailedAt(steps, last, error))), env.waitRaises);
      case Noise => OutputPerforms(rows, id, steps, last, text, lines[1..], env);
    }
  }

  lemma {:induction false} ResultPerforms(rows: Table, id: JobId, lines: seq<Worker.Line>, env: Worker.Env)
    ensures PerformAll(rows, id, ResultScript(lines, env)) == Worker.Reanalyzed(rows, id, lines, env)
    decreases |lines|
  {
    if lines == [] {
      OnePerforms(rows, id, Write(Protocol.GiveUp(None)));
    } else {
      match lines[0]
      case ResultLine(taskId) =>
        OnePerforms(rows, id, Rescue);
        if taskId.Some? {
          EndingPerforms(rows, id, Protocol.Complete(taskId.value, None), env.publishRaises || env.waitRaises);
        }
      case MalformedResult => EndingPerforms(rows, id, Protocol.GiveUp(None), env.waitRaises);
      case ErrorLine(_) => EndingPerforms(rows, id, Protocol.GiveUp(None), env.waitRaises);
      case _ => ResultPerforms(rows, id, lines[1..], env);
    }
  }

  lemma StartPerforms(s: Worker.World, id: JobId, env: Worker.Env)
    requires id in s.rows
    ensures PerformAll(s.rows, id, StartScript(s, s.rows[id].taskId, env)) == Worker.StartHandled(s, id, env).rows
  {
    var task := s.rows[id].taskId;
    OnePerforms(s.rows, id, Write(Protocol.Finish(Failed, None)));
    OnePerforms(s.rows, id, Rescue);
    if Worker.AliveEntry(s, task) {
      OnePerforms(s.rows, id, Write(Protocol.Finish(Completed, Some(s.running[task]))));
    }
    var write := Protocol.Finish(Completed, Some(s.nextPid));
    ConsPerforms(s.rows, id, SetProcess(s.nextPid), Ending(write, env.publishRaises));
    EndingPerforms(ProcessUpdate(s.rows, id, s.nextPid), id, write, env.publishRaises);
  }

  lemma StopPerforms(s: Worker.World, id: JobId, env: Worker.Env)
    requires id in s.rows
    ensures PerformAll(s.rows, id, StopScript(s, s.rows[id].taskId, env)) == Worker.StopHandled(s, id, env).rows
  {
    OnePerforms(s.rows, id, Rescue);
    EndingPerforms(s.rows, id, Protocol.Finish(Completed, None), env.publishRaises);
  }

  /** Executed without interruption, the statements do to the table what the handler does. */
  lemma ScriptIsHandler(s: Worker.World, id: JobId, env: Worker.Env)
    requires id in s.rows
    ensures PerformAll(s.rows, id, ScriptOf(s, s.rows[id], env)) == Worker.HandledJob(s, id, env).rows
  {
    OnePerforms(s.rows, id, Write(Protocol.GiveUp(None)));
    OnePerforms(s.rows, id, Rescue);
    match s.rows[id].kind
    case StartTask => StartPerforms(s, id, env);
    case StopTask => StopPerforms(s, id, env);
    case GenerateTask => OutputPerforms(s.rows, id, s.rows[id].steps, None, Worker.QUEUED_TEXT, env.lines, env);
    case ReanalyzeResult =>
      var told := ProgressUpdate(s.rows, id, None);
      OnePerforms(told, id, Rescue);
      ResultPerforms(told, id, env.lines, env);
      ConsPerforms(s.rows, id, Progress(None), if env.launchRaises then [Rescue] else ResultScript(env.lines, env));
    case OtherKind => OnePerforms(s.rows, id, Write(Protocol.Finish(Failed, None)));
  }

  // ----- statements among other workers ----------------------------------------------------------

  type Gap = seq<Protocol.Step>

  function GapAt(gaps: seq<Gap>, i: nat): Gap {
    if i < |gaps| then gaps[i] else []
  }

  function From(gaps: seq<Gap>, i: nat): seq<Gap> {
    if i <= |gaps| then gaps[i..] else []
  }

  /** A worker's step, and not a producer's. */
  predicate OfWorker(step: Protocol.Step) {
    !step.CheckRequest? && !step.InsertRequest? && !step.InsertKeyed?
  }

  predicate Foreign(step: Protocol.Step, w: WorkerName) {
    OfWorker(step) ==> step.w != w
  }

  predicate AllForeign(gaps: seq<Gap>, w: WorkerName) {
    forall i, k | 0 <= i < |gaps| && 0 <= k < |gaps[i]| :: Foreign(gaps[i][k], w)
  }

  /** The three ways a claim looks for a row. */
  datatype Wanted = Lowest | ById(id: JobId) | ByJobKey(key: string)

  function Look(rows: Table, wanted: Wanted): (found: Option<JobId>)
    ensures found.Some? ==> IsPending(rows, found.value)
  {
    match wanted
    case Lowest => LowestPending(rows)
    case ById(id) => if IsPending(rows, id) then Some(id) else None
    case ByJobKey(key) =>
      if ByKey(rows, key).Some? && IsPending(rows, ByKey(rows, key).value) then ByKey(rows, key) else None
  }

  /** The attempts of `next_job_sync`, in order. */
  function Wants(redis: bool, d: Worker.Delivery): seq<Wanted> {
    (if redis && d.Message? && d.jobId > 0 then [ById(d.jobId)] else [])
    + (if redis && d.Message? && d.key != "" then [ByJobKey(d.key)] else [])
    + [Lowest]
  }

  datatype Selected = Selected(id: JobId, row: Row)

  /** One attempt: SELECT, and then the UPDATE, which changes a row only if it is still pending. */
  function TryClaim(serial: bool, c: Protocol.State, w: WorkerName, wanted: Wanted, gaps: seq<Gap>)
    : (Protocol.State, Option<Selected>)
  {
    var a := Protocol.Exec(serial, c, GapAt(gaps, 0));
    var found := Look(a.rows, wanted);
    if found.None? then (a, None)
    else
      var b := Protocol.Exec(serial, a, GapAt(gaps, 1));
      if IsPending(b.rows, found.value)
      then (b.(rows := ClaimUpdate(b.rows, found.value, w)), Some(Selected(found.value, a.rows[found.value])))
      else (b, None)
  }

  function ClaimAmong(serial: bool, c: Protocol.State, w: WorkerName, wants: seq<Wanted>, gaps: seq<Gap>)
    : (Protocol.State, Option<Selected>)
    decreases |wants|
  {
    if wants == [] then (c, None)
    else
      var (d, selected) := TryClaim(serial, c, w, wants[0], gaps);
      if selected.Some? then (d, selected) else ClaimAmong(serial, d, w, wants[1..], From(gaps, 2))
  }

  function PerformAmong(serial: bool, c: Protocol.State, id: JobId, script: Script, gaps: seq<Gap>): Protocol.State
    decreases |script|
  {
    if script == [] then c
    else
      var a := Protocol.Exec(serial, c, GapAt(gaps, 0));
      PerformAmong(serial, a.(rows := Perform(a.rows, id, script[0])), id, script[1..], From(gaps, 1))
  }

  /** What the others do during the claim and during the handler of one round. */
  datatype Gaps = Gaps(claim: seq<Gap>, handler: seq<Gap>)

  /** One round of the loop on the shared table. The rows of `s` are not used. */
  function RoundAmong(serial: bool, redis: bool, w: WorkerName, c: Protocol.State, s: Worker.World,
                      input: Worker.Input, gaps: Gaps): (Protocol.State, Worker.World, Worker.Outcome)
  {
    var before := Worker.Before(s, input);
    if input.monitorRaises && Worker.DeadEntries(before) != {} then
      (c, Worker.MonitorCut(before, input.polledFirst), Worker.Died)
    else
      var seen := Worker.Monitored(before);
      if redis && Worker.Fatal(input.delivery) then (c, seen, Worker.Died)
      else
        var (d, selected) := ClaimAmong(serial, c, w, Wants(redis, input.delivery), gaps.claim);
        if selected.None? then (d, seen, Worker.IdleRound)
        else
          var local := LocalWorld(seen, input, selected.value, w);
          (PerformAmong(serial, d, selected.value.id, ScriptOf(local, selected.value.row, input.env), gaps.handler),
           Worker.HandledJob(local, selected.value.id, input.env), Worker.Handled(selected.value.id))
  }

  /** The worker's own state when the handler of a selected job begins. */
  function LocalWorld(seen: Worker.World, input: Worker.Input, selected: Selected, w: WorkerName): (local: Worker.World)
    ensures selected.id in local.rows
  {
    Worker.Exits(
      Worker.Changed(seen.(rows := map[selected.id := selected.row], log := seen.log + [selected.id]), input.enabled),
      input.exitsAfter)
  }

  function LoopAmong(serial: bool, redis: bool, w: WorkerName, c: Protocol.State, s: Worker.World,
                     inputs: seq<Worker.Input>, gaps: seq<Gaps>): Protocol.State
    requires |gaps| == |inputs|
    decreases |inputs|
  {
    if inputs == [] then c
    else
      var (d, t, o) := RoundAmong(serial, redis, w, c, s, inputs[0], gaps[0]);
      if o == Worker.Died then d else LoopAmong(serial, redis, w, d, t, inputs[1..], gaps[1..])
  }

  // ----- every run is a protocol run ---------------------------------------------------------------

  /** The protocol state has the same table, requests and other workers; only this worker's phase and the
      counters of history, which no statement reads, are the protocol's own. */
  predicate Matches(c: Protocol.State, u: Protocol.State, w: WorkerName) {
    && c.rows == u.rows && c.nextId == u.nextId && c.requests == u.requests
    && w in u.phases && w in c.phases && c.phases.Keys == u.phases.Keys
    && forall v | v in c.phases && v != w :: c.phases[v] == u.phases[v]
  }

  predicate MatchesIn(c: Protocol.State, u: Protocol.State, w: WorkerName, phase: Protocol.Phase) {
    Matches(c, u, w) && u.phases[w] == phase
  }

  lemma ForeignRequest(serial: bool, c: Protocol.State, u: Protocol.State, w: WorkerName, step: Protocol.Step)
    requires Matches(c, u, w) && (step.CheckRequest? || step.InsertRequest? || step.InsertKeyed?)
    ensures MatchesIn(Protocol.Apply(serial, c, step), Protocol.Apply(serial, u, step), w, u.phases[w])
  {
    RequestEffect(serial, c, step);
    RequestEffect(serial, u, step);
    RequestsAlike(serial, c, u, step);
  }

  /** A producer's step leaves the phases alone. */
  lemma RequestEffect(serial: bool, s: Protocol.State, step: Protocol.Step)
    requires step.CheckRequest? || step.InsertRequest? || step.InsertKeyed?
    ensures Protocol.Apply(serial, s, step).phases == s.phases
  {
  }

  /** It reads and writes the table, the next id and the requests only. */
  lemma RequestsAlike(serial: bool, c: Protocol.State, u: Protocol.State, step: Protocol.Step)
    requires c.rows == u.rows && c.nextId == u.nextId && c.requests == u.requests
    requires step.CheckRequest? || step.InsertRequest? || step.InsertKeyed?
    ensures var d, v := Protocol.Apply(serial, c, step), Protocol.Apply(serial, u, step);
            d.rows == v.rows && d.nextId == v.nextId && d.requests == v.requests
  {
  }

  /** What a worker's step does to the table and to its phase: nothing else matters to it. */
  function Effect(rows: Table, phase: Protocol.Phase, step: Protocol.Step): (Table, Protocol.Phase)
    requires OfWorker(step)
  {
    match step
    case SelectLowest(_) =>
      if phase == Protocol.Idle && LowestPending(rows).Some? then (rows, Protocol.Selected(LowestPending(rows).value))
      else (rows, phase)
    case SelectNamed(_, id) =>
      if phase == Protocol.Idle && IsPending(rows, id) then (rows, Protocol.Selected(id)) else (rows, phase)
    case Claim(w) =>
      if !phase.Selected? then (rows, phase)
      else if IsPending(rows, phase.id) then (ClaimUpdate(rows, phase.id, w), Protocol.Handling(phase.id, false))
      else (rows, Protocol.Idle)
    case Report(_, told) =>
      if phase.Handling? && !phase.written then (ProgressUpdate(rows, phase.id, told), phase) else (rows, phase)
    case NoteProcess(_, pid) =>
      if phase.Handling? && !phase.written then (ProcessUpdate(rows, phase.id, pid), phase) else (rows, phase)
    case WriteFinal(_, write) =>
      if phase.Handling? && !phase.written && Protocol.EndsJob(write)
      then (Protocol.FinalUpdate(rows, phase.id, write), Protocol.Handling(phase.id, true))
      else (rows, phase)
    case Raise(_) =>
      if phase.Handling? then (FinishUpdate(rows, phase.id, Failed, None), Protocol.Idle) else (rows, phase)
    case Return(_) => (rows, if phase.Handling? && phase.written then Protocol.Idle else phase)
    case Crash(_) => (rows, Protocol.Down)
    case Restart(w) => if phase == Protocol.Down then (ClearStale(rows, w), Protocol.Idle) else (rows, phase)
    case _ => (rows, phase)
  }

  /** What becomes of the parts of a state that the statements read. */
  predicate Becomes(s: Protocol.State, t: Protocol.State, rows: Table, v: WorkerName, phase: Protocol.Phase) {
    t.rows == rows && t.nextId == s.nextId && t.requests == s.requests && t.phases == s.phases[v := phase]
  }

  lemma StepEffect(serial: bool, s: Protocol.State, step: Protocol.Step)
    requires OfWorker(step) && step.w in s.phases
    ensures var (rows, phase) := Effect(s.rows, s.phases[step.w], step);
            Becomes(s, Protocol.Apply(serial, s, step), rows, step.w, phase)
  {
    if Protocol.IsHandlerStep(step) {
      HandlerEffect(serial, s, step);
    } else {
      ControlEffect(serial, s, step);
    }
  }

  lemma HandlerEffect(serial: bool, s: Protocol.State, step: Protocol.Step)
    requires Protocol.IsHandlerStep(step) && step.w in s.phases
    ensures var (rows, phase) := Effect(s.rows, s.phases[step.w], step);
            Becomes(s, Protocol.Apply(serial, s, step), rows, step.w, phase)
  {
  }

  lemma ControlEffect(serial: bool, s: Protocol.State, step: Protocol.Step)
    requires OfWorker(step) && !Protocol.IsHandlerStep(step) && step.w in s.phases
    ensures var (rows, phase) := Effect(s.rows, s.phases[step.w], step);
            Becomes(s, Protocol.Apply(serial, s, step), rows, step.w, phase)
  {
  }

  lemma UnknownWorker(serial: bool, s: Protocol.State, step: Protocol.Step)
    requires OfWorker(step) && step.w !in s.phases
    ensures Protocol.Apply(serial, s, step) == s
  {
  }

  lemma OtherBecomes(c: Protocol.State, u: Protocol.State, c2: Protocol.State, u2: Protocol.State, w: WorkerName,
                     v: WorkerName, rows: Table, phase: Protocol.Phase)
    requires Matches(c, u, w) && v != w && v in c.phases
    requires Becomes(c, c2, rows, v, phase) && Becomes(u, u2, rows, v, phase)
    ensures MatchesIn(c2, u2, w, u.phases[w])
  {
  }

  lemma ForeignStep(serial: bool, c: Protocol.State, u: Protocol.State, w: WorkerName, step: Protocol.Step)
    requires Matches(c, u, w) && Foreign(step, w)
    ensures MatchesIn(Protocol.Apply(serial, c, step), Protocol.Apply(serial, u, step), w, u.phases[w])
  {
    if !OfWorker(step) {
      ForeignRequest(serial, c, u, w, step);
    } else if step.w !in c.phases {
      UnknownWorker(serial, c, step);
      UnknownWorker(serial, u, step);
    } else {
      StepEffect(serial, c, step);
      StepEffect(serial, u, step);
      var (rows, phase) := Effect(c.rows, c.phases[step.w], step);
      OtherBecomes(c, u, Protocol.Apply(serial, c, step), Protocol.Apply(serial, u, step), w, step.w, rows, phase);
    }
  }

  lemma {:induction false} ForeignGap(serial: bool, c: Protocol.State, u: Protocol.State, w: WorkerName, gap: Gap)
    requires Matches(c, u, w) && forall k | 0 <= k < |gap| :: Foreign(gap[k], w)
    ensures MatchesIn(Protocol.Exec(serial, c, gap), Protocol.Exec(serial, u, gap), w, u.phases[w])
    decreases |gap|
  {
    if gap != [] {
      var init := gap[..|gap| - 1];
      ForeignGap(serial, c, u, w, init);
      ForeignStep(serial, Protocol.Exec(serial, c, init), Protocol.Exec(serial, u, init), w, gap[|gap| - 1]);
    }
  }

  lemma GapsForeign(gaps: seq<Gap>, w: WorkerName, i: nat)
    requires AllForeign(gaps, w)
    ensures forall k | 0 <= k < |GapAt(gaps, i)| :: Foreign(GapAt(gaps, i)[k], w)
    ensures AllForeign(From(gaps, i), w)
  {
  }

  // ----- the steps of such a run -------------------------------------------------------------------

  predicate OwnStep(step: Protocol.Step, w: WorkerName) {
    || step == Protocol.SelectLowest(w) || step == Protocol.Claim(w) || step == Protocol.Return(w)
    || (step.SelectNamed? && step.w == w)
    || (Protocol.IsHandlerStep(step) && step.w == w)
  }

  ghost predicate InSome(step: Protocol.Step, gaps: seq<Gap>) {
    exists i | 0 <= i < |gaps| :: step in gaps[i]
  }

  /** Every step is the worker's own or one of those that the others take. */
  ghost predicate Made(steps: seq<Protocol.Step>, w: WorkerName, gaps: seq<Gap>) {
    forall k | 0 <= k < |steps| :: OwnStep(steps[k], w) || InSome(steps[k], gaps)
  }

  lemma GapMade(gaps: seq<Gap>, w: WorkerName, i: nat)
    ensures Made(GapAt(gaps, i), w, gaps)
  {
  }

  lemma LaterMade(steps: seq<Protocol.Step>, w: WorkerName, gaps: seq<Gap>, i: nat)
    requires Made(steps, w, From(gaps, i))
    ensures Made(steps, w, gaps)
  {
    forall k | 0 <= k < |steps| ensures OwnStep(steps[k], w) || InSome(steps[k], gaps) {
      if !OwnStep(steps[k], w) {
        var j :| 0 <= j < |From(gaps, i)| && steps[k] in From(gaps, i)[j];
        assert steps[k] in gaps[i + j];
      }
    }
  }

  /** A state reached from another by the worker's own steps and those of the others. */
  ghost predicate Reaches(serial: bool, u: Protocol.State, v: Protocol.State, w: WorkerName, gaps: seq<Gap>) {
    exists steps :: Made(steps, w, gaps) && v == Protocol.Exec(serial, u, steps)
  }

  lemma ReachesSelf(serial: bool, u: Protocol.State, w: WorkerName, gaps: seq<Gap>)
    ensures Reaches(serial, u, u, w, gaps)
  {
    assert Made([], w, gaps) && u == Protocol.Exec(serial, u, []);
  }

  lemma ReachesGap(serial: bool, u: Protocol.State, w: WorkerName, gaps: seq<Gap>, i: nat)
    ensures Reaches(serial, u, Protocol.Exec(serial, u, GapAt(gaps, i)), w, gaps)
  {
    GapMade(gaps, w, i);
  }

  lemma ReachesOwn(serial: bool, u: Protocol.State, w: WorkerName, gaps: seq<Gap>, step: Protocol.Step)
    requires OwnStep(step, w)
    ensures Reaches(serial, u, Protocol.Apply(serial, u, step), w, gaps)
  {
    assert [step][..0] == [];
    assert Made([step], w, gaps) && Protocol.Exec(serial, u, [step]) == Protocol.Apply(serial, u, step);
  }

  lemma ReachesThen(serial: bool, u: Protocol.State, v: Protocol.State, x: Protocol.State, w: WorkerName, gaps: seq<Gap>)
    requires Reaches(serial, u, v, w, gaps) && Reaches(serial, v, x, w, gaps)
    ensures Reaches(serial, u, x, w, gaps)
  {
    var a :| Made(a, w, gaps) && v == Protocol.Exec(serial, u, a);
    var b :| Made(b, w, gaps) && x == Protocol.Exec(serial, v, b);
    Protocol.ExecAppend(serial, u, a, b);
    assert Made(a + b, w, gaps);
  }

  lemma ReachesLater(serial: bool, u: Protocol.State, v: Protocol.State, w: WorkerName, gaps: seq<Gap>, i: nat)
    requires Reaches(serial, u, v, w, From(gaps, i))
    ensures Reaches(serial, u, v, w, gaps)
  {
    var a :| Made(a, w, From(gaps, i)) && v == Protocol.Exec(serial, u, a);
    LaterMade(a, w, gaps, i);
  }

  // ----- claiming ------------------------------------------------------------------------------------

  function SelectStep(w: WorkerName, wanted: Wanted, id: JobId): Protocol.Step {
    if wanted.Lowest? then Protocol.SelectLowest(w) else Protocol.SelectNamed(w, id)
  }

  lemma SelectMatches(serial: bool, c: Protocol.State, u: Protocol.State, w: WorkerName, wanted: Wanted)
    requires MatchesIn(c, u, w, Protocol.Idle) && Look(c.rows, wanted).Some?
    ensures var id := Look(c.rows, wanted).value;
            MatchesIn(c, Protocol.Apply(serial, u, SelectStep(w, wanted, id)), w, Protocol.Selected(id))
  {
  }

  lemma ClaimMatches(serial: bool, c: Protocol.State, u: Protocol.State, w: WorkerName, id: JobId)
    requires MatchesIn(c, u, w, Protocol.Selected(id))
    ensures var v := Protocol.Apply(serial, u, Protocol.Claim(w));
            if IsPending(c.rows, id)
            then MatchesIn(c.(rows := ClaimUpdate(c.rows, id, w)), v, w, Protocol.Handling(id, false))
            else MatchesIn(c, v, w, Protocol.Idle)
  {
  }

  /** The phase after an attempt to claim. */
  function PhaseOfClaim(selected: Option<Selected>): Protocol.Phase {
    if selected.None? then Protocol.Idle else Protocol.Handling(selected.value.id, false)
  }

  /** A SELECT that found a row, what the others do then, and the conditional UPDATE. */
  lemma SelectedFollows(serial: bool, a: Protocol.State, u: Protocol.State, w: WorkerName, wanted: Wanted, gaps: seq<Gap>)
    returns (v: Protocol.State)
    requires MatchesIn(a, u, w, Protocol.Idle) && AllForeign(gaps, w) && Look(a.rows, wanted).Some?
    ensures Reaches(serial, u, v, w, gaps)
    ensures var id := Look(a.rows, wanted).value;
            var b := Protocol.Exec(serial, a, GapAt(gaps, 1));
            if IsPending(b.rows, id)
            then MatchesIn(b.(rows := ClaimUpdate(b.rows, id, w)), v, w, Protocol.Handling(id, false))
            else MatchesIn(b, v, w, Protocol.Idle)
  {
    var id := Look(a.rows, wanted).value;
    var chosen := Protocol.Apply(serial, u, SelectStep(w, wanted, id));
    SelectMatches(serial, a, u, w, wanted);
    ReachesOwn(serial, u, w, gaps, SelectStep(w, wanted, id));
    GapsForeign(gaps, w, 1);
    v := WaitedFollows(serial, a, chosen, w, id, gaps);
    ReachesThen(serial, u, chosen, v, w, gaps);
  }

  lemma WaitedFollows(serial: bool, a: Protocol.State, u: Protocol.State, w: WorkerName, id: JobId, gaps: seq<Gap>)
    returns (v: Protocol.State)
    requires MatchesIn(a, u, w, Protocol.Selected(id)) && AllForeign(gaps, w)
    ensures Reaches(serial, u, v, w, gaps)
    ensures var b := Protocol.Exec(serial, a, GapAt(gaps, 1));
            if IsPending(b.rows, id)
            then MatchesIn(b.(rows := ClaimUpdate(b.rows, id, w)), v, w, Protocol.Handling(id, false))
            else MatchesIn(b, v, w, Protocol.Idle)
  {
    GapsForeign(gaps, w, 1);
    ForeignGap(serial, a, u, w, GapAt(gaps, 1));
    ReachesGap(serial, u, w, gaps, 1);
    var b, waited := Protocol.Exec(serial, a, GapAt(gaps, 1)), Protocol.Exec(serial, u, GapAt(gaps, 1));
    ClaimMatches(serial, b, waited, w, id);
    ReachesOwn(serial, waited, w, gaps, Protocol.Claim(w));
    v := Protocol.Apply(serial, waited, Protocol.Claim(w));
    ReachesThen(serial, u, waited, v, w, gaps);
  }

  lemma TryFollows(serial: bool, c: Protocol.State, u: Protocol.State, w: WorkerName, wanted: Wanted, gaps: seq<Gap>)
    returns (v: Protocol.State)
    requires MatchesIn(c, u, w, Protocol.Idle) && AllForeign(gaps, w)
    ensures Reaches(serial, u, v, w, gaps)
    ensures var (d, selected) := TryClaim(serial, c, w, wanted, gaps); MatchesIn(d, v, w, PhaseOfClaim(selected))
  {
    GapsForeign(gaps, w, 0);
    ForeignGap(serial, c, u, w, GapAt(gaps, 0));
    ReachesGap(serial, u, w, gaps, 0);
    var a, x := Protocol.Exec(serial, c, GapAt(gaps, 0)), Protocol.Exec(serial, u, GapAt(gaps, 0));
    v := x;
    if Look(a.rows, wanted).Some? {
      v := SelectedFollows(serial, a, x, w, wanted, gaps);
      ReachesThen(serial, u, x, v, w, gaps);
    }
  }

  lemma {:induction false} ClaimFollows(serial: bool, c: Protocol.State, u: Protocol.State, w: WorkerName,
                                        wants: seq<Wanted>, gaps: seq<Gap>) returns (v: Protocol.State)
    requires MatchesIn(c, u, w, Protocol.Idle) && AllForeign(gaps, w)
    ensures Reaches(serial, u, v, w, gaps)
    ensures var (d, selected) := ClaimAmong(serial, c, w, wants, gaps); MatchesIn(d, v, w, PhaseOfClaim(selected))
    decreases |wants|
  {
    if wants == [] {
      v := u;
      ReachesSelf(serial, u, w, gaps);
    } else {
      var x := TryFollows(serial, c, u, w, wants[0], gaps);
      var (d, selected) := TryClaim(serial, c, w, wants[0], gaps);
      v := x;
      if selected.None? {
        GapsForeign(gaps, w, 2);
        v := ClaimFollows(serial, d, x, w, wants[1..], From(gaps, 2));
        ReachesLater(serial, x, v, w, gaps, 2);
        ReachesThen(serial, u, x, v, w, gaps);
      }
    }
  }

  // ----- performing ----------------------------------------------------------------------------------

  function StepOf(w: WorkerName, stmt: Stmt): Protocol.Step {
    match stmt
    case Progress(told) => Protocol.Report(w, told)
    case SetProcess(pid) => Protocol.NoteProcess(w, pid)
    case Write(write) => Protocol.WriteFinal(w, write)
    case Rescue => Protocol.Raise(w)
  }

  /** At most one final write, only a rescue behind it, and nothing behind a rescue. */
  predicate Fits(script: Script, written: bool)
    decreases |script|
  {
    script != [] ==>
      match script[0]
      case Write(write) => !written && Protocol.EndsJob(write) && Fits(script[1..], true)
      case Rescue => script == [Rescue]
      case _ => !written && Fits(script[1..], false)
  }

  /** The phase after the statements. */
  function PhaseAfter(id: JobId, script: Script, written: bool): Protocol.Phase
    decreases |script|
  {
    if script == [] then Protocol.Handling(id, written)
    else if script[0].Rescue? then Protocol.Idle
    else PhaseAfter(id, script[1..], written || script[0].Write?)
  }

  lemma StatementMatches(serial: bool, c: Protocol.State, u: Protocol.State, w: WorkerName, id: JobId, stmt: Stmt, written: bool)
    requires MatchesIn(c, u, w, Protocol.Handling(id, written))
    requires !stmt.Rescue? ==> !written && (stmt.Write? ==> Protocol.EndsJob(stmt.write))
    ensures MatchesIn(c.(rows := Perform(c.rows, id, stmt)), Protocol.Apply(serial, u, StepOf(w, stmt)), w,
                      if stmt.Rescue? then Protocol.Idle else Protocol.Handling(id, stmt.Write?))
  {
    var v := Protocol.Apply(serial, u, StepOf(w, stmt));
    match stmt
    case Progress(told) => assert v == u.(rows := ProgressUpdate(u.rows, id, told));
    case SetProcess(pid) => assert v == u.(rows := ProcessUpdate(u.rows, id, pid));
    case Write(write) => assert v.rows == Protocol.FinalUpdate(u.rows, id, write) && v.phases == u.phases[w := Protocol.Handling(id, true)];
    case Rescue => assert v.rows == FinishUpdate(u.rows, id, Failed, None) && v.phases == u.phases[w := Protocol.Idle];
  }

  /** A handler that stops after any of its statements has executed a script that fits as well. */
  lemma {:induction false} PrefixFits(script: Script, written: bool, n: nat)
    requires Fits(script, written) && n <= |script|
    ensures Fits(script[..n], written)
    decreases n
  {
    if n > 0 {
      assert script[..n][1..] == script[1..][..n - 1];
      if !script[0].Rescue? {
        PrefixFits(script[1..], script[0].Write?, n - 1);
      }
    }
  }

  /** However many statements of a handler have been executed, and whatever the others did in between, the
      shared table is that of a protocol run in which this worker is in the matching phase; so a crash of the
      worker at that point is a crash of the protocol. */
  lemma {:induction false} PerformFollows(serial: bool, c: Protocol.State, u: Protocol.State, w: WorkerName, id: JobId,
                                          script: Script, written: bool, gaps: seq<Gap>) returns (v: Protocol.State)
    requires MatchesIn(c, u, w, Protocol.Handling(id, written)) && Fits(script, written) && AllForeign(gaps, w)
    ensures Reaches(serial, u, v, w, gaps)
    ensures MatchesIn(PerformAmong(serial, c, id, script, gaps), v, w, PhaseAfter(id, script, written))
    decreases |script|
  {
    if script == [] {
      v := u;
      ReachesSelf(serial, u, w, gaps);
    } else {
      var stmt := script[0];
      GapsForeign(gaps, w, 0);
      GapsForeign(gaps, w, 1);
      ForeignGap(serial, c, u, w, GapAt(gaps, 0));
      ReachesGap(serial, u, w, gaps, 0);
      var a, x := Protocol.Exec(serial, c, GapAt(gaps, 0)), Protocol.Exec(serial, u, GapAt(gaps, 0));
      StatementMatches(serial, a, x, w, id, stmt, written);
      ReachesOwn(serial, x, w, gaps, StepOf(w, stmt));
      v := Protocol.Apply(serial, x, StepOf(w, stmt));
      ReachesThen(serial, u, x, v, w, gaps);
      var b := a.(rows := Perform(a.rows, id, stmt));
      if !stmt.Rescue? {
        var y := PerformFollows(serial, b, v, w, id, script[1..], stmt.Write?, From(gaps, 1));
        ReachesLater(serial, v, y, w, gaps, 1);
        ReachesThen(serial, u, v, y, w, gaps);
        v := y;
      } else {
        assert script[1..] == [];
      }
    }
  }

  /** A handler is through when its job has a final status or was rescued. */
  predicate Whole(script: Script, written: bool) {
    Fits(script, written) && PhaseAfter(0, script, written) in {Protocol.Handling(0, true), Protocol.Idle}
  }

  lemma {:induction false} PhaseOfWhole(id: JobId, script: Script, written: bool)
    requires Whole(script, written)
    ensures PhaseAfter(id, script, written) in {Protocol.Handling(id, true), Protocol.Idle}
    decreases |script|
  {
    if script != [] && !script[0].Rescue? {
      PhaseOfWhole(id, script[1..], written || script[0].Write?);
    }
  }

  lemma EndingIsWhole(write: Protocol.FinalWrite, raises: bool)
    requires Protocol.EndsJob(write)
    ensures Whole(Ending(write, raises), false)
  {
    assert Ending(write, raises)[1..] == if raises then [Rescue] else [];
    assert [Rescue][1..] == [];
  }

  lemma ConsIsWhole(stmt: Stmt, rest: Script)
    requires (stmt.Progress? || stmt.SetProcess?) && Whole(rest, false)
    ensures Whole([stmt] + rest, false)
  {
    assert ([stmt] + rest)[1..] == rest;
  }

  lemma OneIsWhole(write: Protocol.FinalWrite)
    requires Protocol.EndsJob(write)
    ensures Whole([Write(write)], false) && Whole([Rescue], false)
  {
    assert [Write(write)][1..] == [] && [Rescue][1..] == [];
  }

  lemma {:induction false} OutputIsWhole(steps: seq<GenerationSteps.Step>, last: Option<string>, text: string,
                                         lines: seq<Worker.Line>, env: Worker.Env)
    ensures Whole(OutputScript(steps, last, text, lines, env), false)
    decreases |lines|
  {
    OneIsWhole(Protocol.GiveUp(None));
    if lines == [] {
      var message := if text != "" && text != Worker.QUEUED_TEXT then text else env.exitText;
      OneIsWhole(Protocol.GiveUp(Some(if env.exitOk then steps else GenerationSteps.FailedAt(steps, last, message))));
    } else {
      match lines[0]
      case ProgressLine(step, words) =>
        var said := if words != "" then words else text;
        var key := if step == Some("") then None else step;
        var next := GenerationSteps.Applied(steps, key, said);
        OutputIsWhole(next, key, said, lines[1..], env);
        ConsIsWhole(Progress(Some(next)), OutputScript(next, key, said, lines[1..], env));
      case ResultLine(taskId) =>
        if taskId.Some? {
          EndingIsWhole(Protocol.Complete(taskId.value, Some(GenerationSteps.AllDone(steps))), env.publishRaises || env.waitRaises);
        }
      case MalformedResult => EndingIsWhole(Protocol.GiveUp(Some(steps)), env.waitRaises);
      case ErrorLine(error) => EndingIsWhole(Protocol.GiveUp(Some(GenerationSteps.FailedAt(steps, last, error))), env.waitRaises);
      case Noise => OutputIsWhole(steps, last, text, lines[1..], env);
    }
  }

  lemma {:induction false} ResultIsWhole(lines: seq<Worker.Line>, env: Worker.Env)
    ensures Whole(ResultScript(lines, env), false)
    decreases |lines|
  {
    OneIsWhole(Protocol.GiveUp(None));
    if lines != [] {
      match lines[0]
      case ResultLine(taskId) =>
        if taskId.Some? {
          EndingIsWhole(Protocol.Complete(taskId.value, None), env.publishRaises || env.waitRaises);
        }
      case MalformedResult => EndingIsWhole(Protocol.GiveUp(None), env.waitRaises);
      case ErrorLine(_) => EndingIsWhole(Protocol.GiveUp(None), env.waitRaises);
      case _ => ResultIsWhole(lines[1..], env);
    }
  }

  lemma ScriptIsWhole(s: Worker.World, row: Row, env: Worker.Env)
    ensures Whole(ScriptOf(s, row, env), false)
  {
    OneIsWhole(Protocol.GiveUp(None));
    OneIsWhole(Protocol.Finish(Failed, None));
    match row.kind
    case StartTask =>
      if Worker.AliveEntry(s, row.taskId) {
        OneIsWhole(Protocol.Finish(Completed, Some(s.running[row.taskId])));
      }
      EndingIsWhole(Protocol.Finish(Completed, Some(s.nextPid)), env.publishRaises);
      ConsIsWhole(SetProcess(s.nextPid), Ending(Protocol.Finish(Completed, Some(s.nextPid)), env.publishRaises));
    case StopTask => EndingIsWhole(Protocol.Finish(Completed, None), env.publishRaises);
    case GenerateTask => OutputIsWhole(row.steps, None, Worker.QUEUED_TEXT, env.lines, env);
    case ReanalyzeResult =>
      ResultIsWhole(env.lines, env);
      ConsIsWhole(Progress(None), if env.launchRaises then [Rescue] else ResultScript(env.lines, env));
    case OtherKind =>
  }

  lemma ReturnMatches(serial: bool, c: Protocol.State, u: Protocol.State, w: WorkerName, id: JobId)
    requires MatchesIn(c, u, w, Protocol.Handling(id, true))
    ensures MatchesIn(c, Protocol.Apply(serial, u, Protocol.Return(w)), w, Protocol.Idle)
  {
  }

  lemma HandlerFollows(serial: bool, c: Protocol.State, u: Protocol.State, w: WorkerName, id: JobId, script: Script, gaps: seq<Gap>)
    returns (v: Protocol.State)
    requires MatchesIn(c, u, w, Protocol.Handling(id, false)) && Whole(script, false) && AllForeign(gaps, w)
    ensures Reaches(serial, u, v, w, gaps)
    ensures MatchesIn(PerformAmong(serial, c, id, script, gaps), v, w, Protocol.Idle)
  {
    var x := PerformFollows(serial, c, u, w, id, script, false, gaps);
    PhaseOfWhole(id, script, false);
    v := x;
    if x.phases[w].Handling? {
      ReturnMatches(serial, PerformAmong(serial, c, id, script, gaps), x, w, id);
      ReachesOwn(serial, x, w, gaps, Protocol.Return(w));
      v := Protocol.Apply(serial, x, Protocol.Return(w));
      ReachesThen(serial, u, x, v, w, gaps);
    }
  }

  // ----- rounds and runs -------------------------------------------------------------------------------

  lemma ReachesAmong(serial: bool, u: Protocol.State, v: Protocol.State, w: WorkerName, gaps: seq<Gap>, more: seq<Gap>)
    requires Reaches(serial, u, v, w, gaps)
    ensures Reaches(serial, u, v, w, gaps + more) && Reaches(serial, u, v, w, more + gaps)
  {
    var steps :| Made(steps, w, gaps) && v == Protocol.Exec(serial, u, steps);
    forall k | 0 <= k < |steps|
      ensures OwnStep(steps[k], w) || (InSome(steps[k], gaps + more) && InSome(steps[k], more + gaps))
    {
      if !OwnStep(steps[k], w) {
        var i :| 0 <= i < |gaps| && steps[k] in gaps[i];
        assert steps[k] in (gaps + more)[i] && steps[k] in (more + gaps)[|more| + i];
      }
    }
    assert Made(steps, w, gaps + more) && Made(steps, w, more + gaps);
  }

  predicate GapsOfOthers(gaps: Gaps, w: WorkerName) {
    AllForeign(gaps.claim, w) && AllForeign(gaps.handler, w)
  }

  lemma RoundFollows(serial: bool, redis: bool, c: Protocol.State, u: Protocol.State, s: Worker.World, w: WorkerName,
                     input: Worker.Input, gaps: Gaps) returns (v: Protocol.State)
    requires MatchesIn(c, u, w, Protocol.Idle) && GapsOfOthers(gaps, w)
    ensures Reaches(serial, u, v, w, gaps.claim + gaps.handler)
    ensures MatchesIn(RoundAmong(serial, redis, w, c, s, input, gaps).0, v, w, Protocol.Idle)
  {
    v := u;
    ReachesSelf(serial, u, w, gaps.claim + gaps.handler);
    if !Worker.DiesIn(redis, s, input) {
      var seen := Worker.Monitored(Worker.Before(s, input));
      var (d, selected) := ClaimAmong(serial, c, w, Wants(redis, input.delivery), gaps.claim);
      v := ClaimFollows(serial, c, u, w, Wants(redis, input.delivery), gaps.claim);
      ReachesAmong(serial, u, v, w, gaps.claim, gaps.handler);
      if selected.Some? {
        var script := ScriptOf(LocalWorld(seen, input, selected.value, w), selected.value.row, input.env);
        ScriptIsWhole(LocalWorld(seen, input, selected.value, w), selected.value.row, input.env);
        var x := HandlerFollows(serial, d, v, w, selected.value.id, script, gaps.handler);
        ReachesAmong(serial, v, x, w, gaps.handler, gaps.claim);
        ReachesThen(serial, u, v, x, w, gaps.claim + gaps.handler);
        v := x;
      }
    }
  }

  /** All that the others do during a run. */
  function Flat(gaps: seq<Gaps>): seq<Gap>
    decreases |gaps|
  {
    if gaps == [] then [] else (gaps[0].claim + gaps[0].handler) + Flat(gaps[1..])
  }

  /** Every run of the worker loop on the shared table, with anything the others do between any two of its
      statements, is a run of the protocol: the worker's own steps and those of the others. */
  lemma {:induction false} LoopFollows(serial: bool, redis: bool, c: Protocol.State, u: Protocol.State, s: Worker.World,
                                       w: WorkerName, inputs: seq<Worker.Input>, gaps: seq<Gaps>) returns (v: Protocol.State)
    requires MatchesIn(c, u, w, Protocol.Idle) && |gaps| == |inputs|
    requires forall i | 0 <= i < |gaps| :: GapsOfOthers(gaps[i], w)
    ensures Reaches(serial, u, v, w, Flat(gaps))
    ensures MatchesIn(LoopAmong(serial, redis, w, c, s, inputs, gaps), v, w, Protocol.Idle)
    decreases |inputs|
  {
    v := u;
    ReachesSelf(serial, u, w, Flat(gaps));
    if inputs != [] {
      var (d, t, o) := RoundAmong(serial, redis, w, c, s, inputs[0], gaps[0]);
      v := RoundFollows(serial, redis, c, u, s, w, inputs[0], gaps[0]);
      ReachesAmong(serial, u, v, w, gaps[0].claim + gaps[0].handler, Flat(gaps[1..]));
      if o != Worker.Died {
        var x := LoopFollows(serial, redis, d, v, t, w, inputs[1..], gaps[1..]);
        ReachesAmong(serial, v, x, w, Flat(gaps[1..]), gaps[0].claim + gaps[0].handler);
        ReachesThen(serial, u, v, x, w, Flat(gaps));
        v := x;
      }
    }
  }

  // ----- a job ends as if its worker were alone -------------------------------------------------------

  /** While a worker handles a job, nobody else touches its row. */
  lemma ForeignKeepsOwned(serial: bool, u: Protocol.State, w: WorkerName, step: Protocol.Step)
    requires Protocol.Inv(u) && w in u.phases && u.phases[w].Handling? && Foreign(step, w)
    ensures var id, t := u.phases[w].id, Protocol.Apply(serial, u, step);
            id in u.rows && id in t.rows && t.rows[id] == u.rows[id]
  {
    assert Protocol.OwnsWhatItHandles(u, w);
    Protocol.OwnerStep(serial, u, step, u.phases[w].id);
  }

  lemma {:induction false} GapKeepsOwned(serial: bool, c: Protocol.State, u: Protocol.State, w: WorkerName, gap: Gap)
    requires Matches(c, u, w) && Protocol.Inv(u) && u.phases[w].Handling?
    requires forall k | 0 <= k < |gap| :: Foreign(gap[k], w)
    ensures var id, t := u.phases[w].id, Protocol.Exec(serial, u, gap);
            Protocol.Inv(t) && id in u.rows && id in t.rows && t.rows[id] == u.rows[id]
    decreases |gap|
  {
    assert Protocol.OwnsWhatItHandles(u, w);
    if gap != [] {
      var init := gap[..|gap| - 1];
      GapKeepsOwned(serial, c, u, w, init);
      ForeignGap(serial, c, u, w, init);
      ForeignKeepsOwned(serial, Protocol.Exec(serial, u, init), w, gap[|gap| - 1]);
      Protocol.ApplyKeepsInv(serial, Protocol.Exec(serial, u, init), gap[|gap| - 1]);
    }
  }

  /** The row alone, with the same statements. */
  function RowAfter(row: Row, id: JobId, script: Script): Row {
    SingleRow(row, id, script);
    PerformAll(map[id := row], id, script)[id]
  }

  lemma {:induction false} SingleRow(row: Row, id: JobId, script: Script)
    ensures PerformAll(map[id := row], id, script).Keys == {id}
    decreases |script|
  {
    if script != [] {
      var next := Perform(map[id := row], id, script[0]);
      assert next == map[id := next[id]];
      SingleRow(next[id], id, script[1..]);
    }
  }

  lemma RowStep(rows: Table, id: JobId, script: Script)
    requires id in rows && script != []
    ensures var next := Perform(rows, id, script[0]);
            id in next && RowAfter(rows[id], id, script) == RowAfter(next[id], id, script[1..])
  {
    var next := Perform(rows, id, script[0]);
    assert Perform(map[id := rows[id]], id, script[0]) == map[id := next[id]];
  }

  /** What the others do before a statement leaves the row alone; the statement is the protocol's. */
  lemma GapThenStatement(serial: bool, c: Protocol.State, u: Protocol.State, w: WorkerName, id: JobId, stmt: Stmt,
                         written: bool, gaps: seq<Gap>)
    requires MatchesIn(c, u, w, Protocol.Handling(id, written)) && Protocol.Inv(u) && AllForeign(gaps, w)
    requires !stmt.Rescue? ==> !written && (stmt.Write? ==> Protocol.EndsJob(stmt.write))
    ensures var a, x := Protocol.Exec(serial, c, GapAt(gaps, 0)), Protocol.Exec(serial, u, GapAt(gaps, 0));
            && id in c.rows && id in a.rows && a.rows[id] == c.rows[id]
            && Protocol.Inv(Protocol.Apply(serial, x, StepOf(w, stmt)))
            && MatchesIn(a.(rows := Perform(a.rows, id, stmt)), Protocol.Apply(serial, x, StepOf(w, stmt)), w,
                         if stmt.Rescue? then Protocol.Idle else Protocol.Handling(id, stmt.Write?))
  {
    assert Protocol.OwnsWhatItHandles(u, w);
    GapsForeign(gaps, w, 0);
    ForeignGap(serial, c, u, w, GapAt(gaps, 0));
    GapKeepsOwned(serial, c, u, w, GapAt(gaps, 0));
    var a, x := Protocol.Exec(serial, c, GapAt(gaps, 0)), Protocol.Exec(serial, u, GapAt(gaps, 0));
    StatementMatches(serial, a, x, w, id, stmt, written);
    Protocol.ApplyKeepsInv(serial, x, StepOf(w, stmt));
  }

  lemma {:induction false} PerformKeepsRow(serial: bool, c: Protocol.State, u: Protocol.State, w: WorkerName, id: JobId,
                                           script: Script, written: bool, gaps: seq<Gap>)
    requires MatchesIn(c, u, w, Protocol.Handling(id, written)) && Protocol.Inv(u)
    requires Fits(script, written) && AllForeign(gaps, w)
    ensures var d := PerformAmong(serial, c, id, script, gaps);
            id in c.rows && id in d.rows && d.rows[id] == RowAfter(c.rows[id], id, script)
    decreases |script|
  {
    assert Protocol.OwnsWhatItHandles(u, w);
    if script != [] {
      var stmt := script[0];
      GapsForeign(gaps, w, 1);
      GapThenStatement(serial, c, u, w, id, stmt, written, gaps);
      var a, x := Protocol.Exec(serial, c, GapAt(gaps, 0)), Protocol.Exec(serial, u, GapAt(gaps, 0));
      RowStep(a.rows, id, script);
      if !stmt.Rescue? {
        PerformKeepsRow(serial, a.(rows := Perform(a.rows, id, stmt)), Protocol.Apply(serial, x, StepOf(w, stmt)), w, id,
                        script[1..], stmt.Write?, From(gaps, 1));
      } else {
        assert script[1..] == [];
      }
    }
  }

  /** A row that is pending after the gap was not worked on during it. */
  lemma {:induction false} GapKeepsOrder(serial: bool, s: Protocol.State, gap: Gap, id: JobId)
    requires Protocol.Inv(s) && id in s.rows
    ensures var t := Protocol.Exec(serial, s, gap);
            && id in t.rows
            && (t.rows[id].status in {Pending, Claimed} ==> Protocol.SameOrder(t.rows[id], s.rows[id]))
    decreases |gap|
  {
    if gap != [] {
      var init := gap[..|gap| - 1];
      GapKeepsOrder(serial, s, init, id);
      Protocol.ExecKeepsInv(serial, s, init);
      Protocol.ActiveOnlyByInsert(serial, Protocol.Exec(serial, s, init), gap[|gap| - 1], id);
    }
  }

  lemma SameOrderSameScript(s: Worker.World, t: Worker.World, a: Row, b: Row, env: Worker.Env)
    requires Protocol.SameOrder(a, b) && t == s.(rows := t.rows)
    ensures ScriptOf(s, a, env) == ScriptOf(t, b, env)
  {
  }

  /** What is known of a row just claimed: it is this worker's, and it orders what was selected. */
  predicate JustClaimed(d: Protocol.State, w: WorkerName, selected: Selected) {
    && selected.id in d.rows && d.rows[selected.id].status == Claimed && d.rows[selected.id].worker == Some(w)
    && Protocol.SameOrder(d.rows[selected.id], selected.row)
  }

  lemma TryClaimsSelected(serial: bool, c: Protocol.State, u: Protocol.State, w: WorkerName, wanted: Wanted, gaps: seq<Gap>)
    requires MatchesIn(c, u, w, Protocol.Idle) && Protocol.Inv(u) && AllForeign(gaps, w)
    ensures var (d, selected) := TryClaim(serial, c, w, wanted, gaps);
            selected.Some? ==> JustClaimed(d, w, selected.value)
  {
    GapsForeign(gaps, w, 0);
    GapsForeign(gaps, w, 1);
    ForeignGap(serial, c, u, w, GapAt(gaps, 0));
    var a, x := Protocol.Exec(serial, c, GapAt(gaps, 0)), Protocol.Exec(serial, u, GapAt(gaps, 0));
    Protocol.ExecKeepsInv(serial, u, GapAt(gaps, 0));
    ForeignGap(serial, a, x, w, GapAt(gaps, 1));
    var found := Look(a.rows, wanted);
    if found.Some? {
      GapKeepsOrder(serial, x, GapAt(gaps, 1), found.value);
    }
  }

  lemma {:induction false} ReachesInv(serial: bool, u: Protocol.State, v: Protocol.State, w: WorkerName, gaps: seq<Gap>)
    requires Protocol.Inv(u) && Reaches(serial, u, v, w, gaps)
    ensures Protocol.Inv(v)
  {
    var steps :| Made(steps, w, gaps) && v == Protocol.Exec(serial, u, steps);
    Protocol.ExecKeepsInv(serial, u, steps);
  }

  lemma {:induction false} ClaimsSelected(serial: bool, c: Protocol.State, u: Protocol.State, w: WorkerName,
                                          wants: seq<Wanted>, gaps: seq<Gap>)
    requires MatchesIn(c, u, w, Protocol.Idle) && Protocol.Inv(u) && AllForeign(gaps, w)
    ensures var (d, selected) := ClaimAmong(serial, c, w, wants, gaps);
            selected.Some? ==> JustClaimed(d, w, selected.value)
    decreases |wants|
  {
    if wants != [] {
      TryClaimsSelected(serial, c, u, w, wants[0], gaps);
      var x := TryFollows(serial, c, u, w, wants[0], gaps);
      ReachesInv(serial, u, x, w, gaps);
      var (d, selected) := TryClaim(serial, c, w, wants[0], gaps);
      if selected.None? {
        GapsForeign(gaps, w, 2);
        ClaimsSelected(serial, d, x, w, wants[1..], From(gaps, 2));
      }
    }
  }

  lemma AloneRow(s: Worker.World, id: JobId, row: Row, env: Worker.Env)
    requires s.rows == map[id := row]
    ensures id in Worker.HandledJob(s, id, env).rows
    ensures RowAfter(row, id, ScriptOf(s, row, env)) == Worker.HandledJob(s, id, env).rows[id]
  {
    ScriptIsHandler(s, id, env);
    SingleRow(row, id, ScriptOf(s, row, env));
  }

  /** Whatever the others do in the meantime, in any run of the protocol: the row of a handled job ends
      exactly as the handler of a worker on its own would leave it. So the theorems about handlers hold
      among other workers too. */
  lemma JobEndsAsAlone(serial: bool, redis: bool, workers: set<WorkerName>, before: seq<Protocol.Step>, c: Protocol.State,
                       s: Worker.World, w: WorkerName, input: Worker.Input, gaps: Gaps) returns (row: Row)
    requires MatchesIn(c, Protocol.Exec(serial, Protocol.Init(workers), before), w, Protocol.Idle) && GapsOfOthers(gaps, w)
    requires RoundAmong(serial, redis, w, c, s, input, gaps).2.Handled?
    ensures row.status == Claimed && row.worker == Some(w)
    ensures var (d, t, o) := RoundAmong(serial, redis, w, c, s, input, gaps);
            var alone := LocalWorld(Worker.Monitored(Worker.Before(s, input)), input, Selected(o.id, row), w);
            && o.id in d.rows && o.id in Worker.HandledJob(alone, o.id, input.env).rows
            && d.rows[o.id] == Worker.HandledJob(alone, o.id, input.env).rows[o.id]
  {
    Protocol.ExecKeepsInv(serial, Protocol.Init(workers), before);
    row := RowEndsAsAlone(serial, redis, c, Protocol.Exec(serial, Protocol.Init(workers), before), s, w, input, gaps);
  }

  lemma RowEndsAsAlone(serial: bool, redis: bool, c: Protocol.State, u: Protocol.State, s: Worker.World, w: WorkerName,
                       input: Worker.Input, gaps: Gaps) returns (row: Row)
    requires MatchesIn(c, u, w, Protocol.Idle) && Protocol.Inv(u) && GapsOfOthers(gaps, w)
    requires RoundAmong(serial, redis, w, c, s, input, gaps).2.Handled?
    ensures row.status == Claimed && row.worker == Some(w)
    ensures var (d, t, o) := RoundAmong(serial, redis, w, c, s, input, gaps);
            var alone := LocalWorld(Worker.Monitored(Worker.Before(s, input)), input, Selected(o.id, row), w);
            && o.id in d.rows && o.id in Worker.HandledJob(alone, o.id, input.env).rows
            && d.rows[o.id] == Worker.HandledJob(alone, o.id, input.env).rows[o.id]
  {
    var seen := Worker.Monitored(Worker.Before(s, input));
    var (d, found) := ClaimAmong(serial, c, w, Wants(redis, input.delivery), gaps.claim);
    var selected := found.value;
    var v := ClaimFollows(serial, c, u, w, Wants(redis, input.delivery), gaps.claim);
    ReachesInv(serial, u, v, w, gaps.claim);
    ClaimsSelected(serial, c, u, w, Wants(redis, input.delivery), gaps.claim);
    row := d.rows[selected.id];
    var local := LocalWorld(seen, input, selected, w);
    var alone := LocalWorld(seen, input, Selected(selected.id, row), w);
    SameOrderSameScript(local, alone, selected.row, row, input.env);
    ScriptIsWhole(local, selected.row, input.env);
    PerformKeepsRow(serial, d, v, w, selected.id, ScriptOf(local, selected.row, input.env), false, gaps.handler);
    AloneRow(alone, selected.id, row, input.env);
  }

  // ----- without others it is the loop of one worker ------------------------------------------------------

  lemma NoGap(serial: bool, c: Protocol.State)
    ensures forall i: nat :: Protocol.Exec(serial, c, GapAt([], i)) == c && From([], i) == []
  {
  }

  lemma TryAlone(serial: bool, c: Protocol.State, w: WorkerName, wanted: Wanted)
    ensures TryClaim(serial, c, w, wanted, []) ==
              var found := Look(c.rows, wanted);
              if found.None? then (c, None)
              else (c.(rows := ClaimUpdate(c.rows, found.value, w)), Some(Selected(found.value, c.rows[found.value])))
  {
    NoGap(serial, c);
  }

  /** The first attempt that finds a row. */
  function FirstFound(rows: Table, wants: seq<Wanted>): (found: Option<JobId>)
    ensures found.Some? ==> IsPending(rows, found.value)
    decreases |wants|
  {
    if wants == [] then None
    else if Look(rows, wants[0]).Some? then Look(rows, wants[0])
    else FirstFound(rows, wants[1..])
  }

  lemma {:induction false} ClaimAlone(serial: bool, c: Protocol.State, w: WorkerName, wants: seq<Wanted>)
    ensures ClaimAmong(serial, c, w, wants, []) ==
              var found := FirstFound(c.rows, wants);
              if found.None? then (c, None)
              else (c.(rows := ClaimUpdate(c.rows, found.value, w)), Some(Selected(found.value, c.rows[found.value])))
    decreases |wants|
  {
    if wants != [] {
      TryAlone(serial, c, w, wants[0]);
      NoGap(serial, c);
      ClaimAlone(serial, c, w, wants[1..]);
    }
  }

  lemma FoundCons(rows: Table, wanted: Wanted, rest: seq<Wanted>)
    ensures FirstFound(rows, [wanted] + rest) == if Look(rows, wanted).Some? then Look(rows, wanted) else FirstFound(rows, rest)
  {
    assert ([wanted] + rest)[1..] == rest;
  }

  lemma FirstFoundIsChosen(rows: Table, redis: bool, d: Worker.Delivery)
    ensures FirstFound(rows, Wants(redis, d)) == Worker.Chosen(rows, redis, d)
  {
    FoundCons(rows, Lowest, []);
    assert [Lowest] + [] == [Lowest];
    if redis && d.Message? {
      var byKey := (if d.key != "" then [ByJobKey(d.key)] else []) + [Lowest];
      FoundCons(rows, ByJobKey(d.key), [Lowest]);
      if d.jobId > 0 {
        FoundCons(rows, ById(d.jobId), byKey);
        assert Wants(redis, d) == [ById(d.jobId)] + byKey;
      } else {
        assert Wants(redis, d) == byKey;
      }
      assert d.key == "" ==> byKey == [Lowest];
    } else {
      assert Wants(redis, d) == [Lowest];
    }
  }

  lemma {:induction false} PerformAlone(serial: bool, c: Protocol.State, id: JobId, script: Script)
    ensures PerformAmong(serial, c, id, script, []) == c.(rows := PerformAll(c.rows, id, script))
    decreases |script|
  {
    if script != [] {
      NoGap(serial, c);
      PerformAlone(serial, c.(rows := Perform(c.rows, id, script[0])), id, script[1..]);
    }
  }

  predicate SameButRows(a: Worker.World, b: Worker.World) {
    b == a.(rows := b.rows)
  }

  lemma StartEffect(s: Worker.World, t: Worker.World, id: JobId, env: Worker.Env)
    requires id in s.rows && id in t.rows && s.rows[id].taskId == t.rows[id].taskId && SameButRows(s, t)
    ensures SameButRows(Worker.StartHandled(s, id, env), Worker.StartHandled(t, id, env))
  {
  }

  lemma StopEffect(s: Worker.World, t: Worker.World, id: JobId, env: Worker.Env)
    requires id in s.rows && id in t.rows && s.rows[id].taskId == t.rows[id].taskId && SameButRows(s, t)
    ensures SameButRows(Worker.StopHandled(s, id, env), Worker.StopHandled(t, id, env))
  {
  }

  /** The worker's own state does not depend on the rest of the table. */
  lemma LocalEffect(s: Worker.World, t: Worker.World, id: JobId, env: Worker.Env)
    requires id in s.rows && id in t.rows && Protocol.SameOrder(s.rows[id], t.rows[id]) && SameButRows(s, t)
    ensures SameButRows(Worker.HandledJob(s, id, env), Worker.HandledJob(t, id, env))
  {
    match s.rows[id].kind
    case StartTask => StartEffect(s, t, id, env);
    case StopTask => StopEffect(s, t, id, env);
    case GenerateTask =>
    case ReanalyzeResult =>
    case OtherKind =>
  }

  lemma HandedLikeLocal(seen: Worker.World, input: Worker.Input, w: WorkerName, id: JobId)
    requires IsPending(seen.rows, id)
    ensures var local, handed := LocalWorld(seen, input, Selected(id, seen.rows[id]), w), Worker.Handed(seen, input, id, w);
            && SameButRows(handed, local) && id in handed.rows && handed.rows == ClaimUpdate(seen.rows, id, w)
            && Protocol.SameOrder(handed.rows[id], local.rows[id]) && local.rows[id] == seen.rows[id]
  {
  }

  lemma HandlerAlone(serial: bool, d: Protocol.State, local: Worker.World, handed: Worker.World, id: JobId, env: Worker.Env)
    requires id in local.rows && id in handed.rows && d.rows == handed.rows
    requires SameButRows(handed, local) && Protocol.SameOrder(handed.rows[id], local.rows[id])
    ensures var t, mine := Worker.HandledJob(handed, id, env), Worker.HandledJob(local, id, env);
            && PerformAmong(serial, d, id, ScriptOf(local, local.rows[id], env), []) == d.(rows := t.rows)
            && SameButRows(t, mine)
  {
    PerformAlone(serial, d, id, ScriptOf(local, local.rows[id], env));
    SameOrderSameScript(local, handed, local.rows[id], handed.rows[id], env);
    ScriptIsHandler(handed, id, env);
    LocalEffect(handed, local, id, env);
  }

  /** When the others do nothing, a round on the shared table is a round of the lone worker. */
  lemma AloneIsRound(serial: bool, redis: bool, c: Protocol.State, s: Worker.World, w: WorkerName, input: Worker.Input)
    requires c.rows == s.rows && input.news.jobs == []
    ensures var (d, t, o) := RoundAmong(serial, redis, w, c, s, input, Gaps([], []));
            var (alone, outcome) := Worker.Round(redis, w, s, input);
            d == c.(rows := alone.rows) && o == outcome && t == alone.(rows := t.rows)
  {
    Worker.BeforeRows(s, input);
    var seen := Worker.Monitored(Worker.Before(s, input));
    ClaimAlone(serial, c, w, Wants(redis, input.delivery));
    FirstFoundIsChosen(c.rows, redis, input.delivery);
    var found := Worker.Chosen(seen.rows, redis, input.delivery);
    if found.Some? {
      var id := found.value;
      var local, handed := LocalWorld(seen, input, Selected(id, seen.rows[id]), w), Worker.Handed(seen, input, id, w);
      HandedLikeLocal(seen, input, w, id);
      HandlerAlone(serial, c.(rows := handed.rows), local, handed, id, input.env);
    }
  }
}
