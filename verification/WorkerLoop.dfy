/** One worker process: its main loop, its job handlers and its table of running tasks.

    The worker is the only one that claims jobs and writes `tasks.is_running` here; `WorkerRefinement`
    puts other workers' statements between its own. What the world does (new jobs and tasks, exits of
    child processes, Redis deliveries, the outcome of a launch, a signal, a publication or a child's
    output) arrives as input data, so a statement over all inputs is a statement over all runs. */
module WorkerLoop {
  import opened Basics
  import opened GenerationSteps
  import opened JobTable

  type TaskId = int
  type Pid = nat

  datatype TaskRow = TaskRow(enabled: bool, isRunning: bool)

  /** `running` is the worker's own table; `live` maps every live child to the task it was launched
      for; `nextId` is the next job id; `log` lists the claims made so far. */
  datatype World = World(
    rows: Table, nextId: JobId, tasks: map<TaskId, TaskRow>, running: map<TaskId, Pid>, live: map<Pid, TaskId>,
    nextPid: Pid, log: seq<JobId>)

  datatype NewJob = NewJob(kind: JobKind, taskId: int, key: Option<string>, steps: seq<Step>)

  /** Jobs enqueued, and tasks created, enabled or disabled, by others. */
  datatype News = News(jobs: seq<NewJob>, enabled: map<TaskId, bool>)

  /** What `brpop` and the parsing of its payload come to. */
  datatype Delivery =
    | NoMessage
    | NotJson
    | NotAnObject
    | BadJobId
    | Unreachable
    | Message(jobId: int, key: string)

  /** Payloads and faults that raise outside the loop's own try block. */
  predicate Fatal(d: Delivery) {
    d == NotAnObject || d == BadJobId || d == Unreachable
  }

  datatype StopOutcome = ChildExits | SignalRaises | KillTimesOut

  /** One line of a bridge process. `taskId.None?` stands for a line whose handling raises: a result with
      an id that `int` rejects, or JSON that is not an object. */
  datatype Line =
    | ProgressLine(step: Option<string>, text: string)
    | ResultLine(taskId: Option<int>)
    | MalformedResult
    | ErrorLine(error: string)
    | Noise

  /** `publishRaises`: the event client cannot be built, which is tried outside the `suppress` of
      `publish_event_sync`. */
  datatype Env = Env(
    payloadOk: bool, launchRaises: bool, stop: StopOutcome, lines: seq<Line>, exitOk: bool,
    exitText: string, waitRaises: bool, publishRaises: bool)

  /** `monitorRaises` is the same for the publications of the monitor, and `polledFirst` the entry it
      looks at first; `enabled` holds changes made between the claim and the handler. */
  datatype Input = Input(
    news: News, exitsBefore: set<Pid>, monitorRaises: bool, polledFirst: TaskId,
    delivery: Delivery, enabled: map<TaskId, bool>, exitsAfter: set<Pid>, env: Env)

  datatype Outcome = IdleRound | Handled(id: JobId) | Died

  // ----- child processes and flags ---------------------------------------------------------

  function SetFlag(tasks: map<TaskId, TaskRow>, t: TaskId, flag: bool): map<TaskId, TaskRow> {
    if t in tasks then tasks[t := tasks[t].(isRunning := flag)] else tasks
  }

  function Exits(s: World, gone: set<Pid>): World {
    s.(live := s.live - gone)
  }

  predicate AliveEntry(s: World, t: TaskId) {
    t in s.running && s.running[t] in s.live
  }

  function Monitored(s: World): World {
    s.(running := map t | t in s.running && s.running[t] in s.live :: s.running[t],
       tasks := map t | t in s.tasks ::
         if t in s.running && s.running[t] !in s.live then s.tasks[t].(isRunning := false) else s.tasks[t])
  }

  /** The entries whose child has exited. */
  function DeadEntries(s: World): set<TaskId> {
    set t | t in s.running && s.running[t] !in s.live
  }

  function FirstDead(s: World, polledFirst: TaskId): (t: TaskId)
    requires DeadEntries(s) != {}
    ensures t in DeadEntries(s)
  {
    if polledFirst in DeadEntries(s) then polledFirst else Least(DeadEntries(s))
  }

  /** The monitor when its first publication raises: one flag is lowered, no entry has left the table. */
  function MonitorCut(s: World, polledFirst: TaskId): World
    requires DeadEntries(s) != {}
  {
    s.(tasks := SetFlag(s.tasks, FirstDead(s, polledFirst), false))
  }

  // ----- what others add -------------------------------------------------------------------

  /** An INSERT; a job key that exists already is refused by its unique index. */
  function PostOne(s: World, job: NewJob): World {
    if job.key.Some? && ByKey(s.rows, job.key.value).Some? then s
    else s.(rows := s.rows[s.nextId := NewRow(job.kind, job.taskId, job.key, job.steps)], nextId := s.nextId + 1)
  }

  function Posted(s: World, jobs: seq<NewJob>): World
    decreases |jobs|
  {
    if jobs == [] then s else Posted(PostOne(s, jobs[0]), jobs[1..])
  }

  /** New tasks are not running. */
  function WithEnabled(tasks: map<TaskId, TaskRow>, enabled: map<TaskId, bool>): map<TaskId, TaskRow> {
    map t | t in tasks.Keys + enabled.Keys ::
      if t !in enabled then tasks[t]
      else if t in tasks then tasks[t].(enabled := enabled[t])
      else TaskRow(enabled[t], false)
  }

  function Changed(s: World, enabled: map<TaskId, bool>): World {
    s.(tasks := WithEnabled(s.tasks, enabled))
  }

  function Arrived(s: World, news: News): World {
    Changed(Posted(s, news.jobs), news.enabled)
  }

  // ----- claiming --------------------------------------------------------------------------

  /** The row a lone worker claims: the message's id, else its key, else the lowest pending row. */
  function Chosen(rows: Table, redis: bool, d: Delivery): (found: Option<JobId>)
    ensures found.Some? ==> IsPending(rows, found.value)
    ensures found.None? <==> PendingIds(rows) == {}
    ensures !redis ==> found == LowestPending(rows)
  {
    var lowest := LowestPending(rows);
    assert forall id | IsPending(rows, id) :: id in PendingIds(rows);
    if !redis || !d.Message? then lowest
    else if d.jobId > 0 && IsPending(rows, d.jobId) then Some(d.jobId)
    else if d.key != "" && ByKey(rows, d.key).Some? && IsPending(rows, ByKey(rows, d.key).value) then
      ByKey(rows, d.key)
    else lowest
  }

  // ----- handlers --------------------------------------------------------------------------

  function Fail(s: World, id: JobId): World {
    s.(rows := FinishUpdate(s.rows, id, Failed, None))
  }

  /** What `main` does when a handler raises after its final statement: the job is rewritten to failed. */
  function Rescued(rows: Table, id: JobId, raises: bool): Table {
    if raises then FinishUpdate(rows, id, Failed, None) else rows
  }

  function StartHandled(s: World, id: JobId, env: Env): World
    requires id in s.rows
  {
    var t := s.rows[id].taskId;
    if t !in s.tasks || !s.tasks[t].enabled then Fail(s, id)
    else if AliveEntry(s, t) then s.(rows := FinishUpdate(s.rows, id, Completed, Some(s.running[t])))
    else if env.launchRaises then Fail(s, id)
    else
      s.(running := s.running[t := s.nextPid],
         live := s.live[s.nextPid := t],
         tasks := SetFlag(s.tasks, t, true),
         rows := Rescued(FinishUpdate(ProcessUpdate(s.rows, id, s.nextPid), id, Completed, Some(s.nextPid)), id,
                         env.publishRaises),
         nextPid := s.nextPid + 1)
  }

  function StopHandled(s: World, id: JobId, env: Env): World
    requires id in s.rows
  {
    var t := s.rows[id].taskId;
    if AliveEntry(s, t) && env.stop != ChildExits then Fail(s, id)
    else
      var stopped := if AliveEntry(s, t)
                     then s.(live := Without(s.live, s.running[t]), running := Without(s.running, t))
                     else s;
      stopped.(tasks := SetFlag(s.tasks, t, false),
               rows := Rescued(FinishUpdate(s.rows, id, Completed, None), id, env.publishRaises))
  }

  /** The text a generation job starts with, before any progress line. */
  const QUEUED_TEXT := "queued"

  function Generated(rows: Table, id: JobId, steps: seq<Step>, last: Option<string>, text: string,
                     lines: seq<Line>, env: Env): Table
    decreases |lines|
  {
    if lines == [] then
      if env.exitOk then FailUpdate(rows, id, Some(steps))
      else
        var message := if text != "" && text != QUEUED_TEXT then text else env.exitText;
        FailUpdate(rows, id, Some(FailedAt(steps, last, message)))
    else
      match lines[0]
      case ProgressLine(step, words) =>
        var said := if words != "" then words else text;
        var key := if step == Some("") then None else step;
        var next := Applied(steps, key, said);
        Generated(ProgressUpdate(rows, id, Some(next)), id, next, key, said, lines[1..], env)
      case ResultLine(taskId) =>
        if taskId.None? then FinishUpdate(rows, id, Failed, None)
        else Rescued(CompleteUpdate(rows, id, taskId.value, Some(AllDone(steps))), id, env.publishRaises || env.waitRaises)
      case MalformedResult => Rescued(FailUpdate(rows, id, Some(steps)), id, env.waitRaises)
      case ErrorLine(error) =>
        Rescued(FailUpdate(rows, id, Some(FailedAt(steps, last, error))), id, env.waitRaises)
      case Noise => Generated(rows, id, steps, last, text, lines[1..], env)
  }

  function GenerateHandled(s: World, id: JobId, env: Env): World
    requires id in s.rows
  {
    if !env.payloadOk then s.(rows := FailUpdate(s.rows, id, None))
    else if env.launchRaises then Fail(s, id)
    else s.(rows := Generated(s.rows, id, s.rows[id].steps, None, QUEUED_TEXT, env.lines, env))
  }

  /** Reanalysis ignores progress lines; the first decisive line settles the job. */
  function Reanalyzed(rows: Table, id: JobId, lines: seq<Line>, env: Env): Table
    decreases |lines|
  {
    if lines == [] then FailUpdate(rows, id, None)
    else
      match lines[0]
      case ResultLine(taskId) =>
        if taskId.None? then FinishUpdate(rows, id, Failed, None)
        else Rescued(CompleteUpdate(rows, id, taskId.value, None), id, env.publishRaises || env.waitRaises)
      case MalformedResult => Rescued(FailUpdate(rows, id, None), id, env.waitRaises)
      case ErrorLine(_) => Rescued(FailUpdate(rows, id, None), id, env.waitRaises)
      case _ => Reanalyzed(rows, id, lines[1..], env)
  }

  function ReanalyzeHandled(s: World, id: JobId, env: Env): World
    requires id in s.rows
  {
    if !env.payloadOk then s.(rows := FailUpdate(s.rows, id, None))
    else
      var started := s.(rows := ProgressUpdate(s.rows, id, None));
      if env.launchRaises then Fail(started, id)
      else started.(rows := Reanalyzed(started.rows, id, env.lines, env))
  }

  function HandledJob(s: World, id: JobId, env: Env): World
    requires id in s.rows
  {
    match s.rows[id].kind
    case StartTask => StartHandled(s, id, env)
    case StopTask => StopHandled(s, id, env)
    case GenerateTask => GenerateHandled(s, id, env)
    case ReanalyzeResult => ReanalyzeHandled(s, id, env)
    case OtherKind => Fail(s, id)
  }

  // ----- the loop --------------------------------------------------------------------------

  function Taken(s: World, id: JobId, name: WorkerName): World {
    s.(rows := ClaimUpdate(s.rows, id, name), log := s.log + [id])
  }

  /** The delivery or the monitor raises outside the `try` of the loop. */
  predicate DiesIn(redis: bool, s: World, input: Input) {
    (input.monitorRaises && DeadEntries(Before(s, input)) != {}) || (redis && Fatal(input.delivery))
  }

  /** The world as the monitor finds it. */
  function Before(s: World, input: Input): World {
    Exits(Arrived(s, input.news), input.exitsBefore)
  }

  /** The world as the handler finds it, once the job is claimed. */
  function Handed(s: World, input: Input, id: JobId, name: WorkerName): World {
    Exits(Changed(Taken(s, id, name), input.enabled), input.exitsAfter)
  }

  function Round(redis: bool, name: WorkerName, s: World, input: Input): (World, Outcome) {
    var before := Before(s, input);
    if input.monitorRaises && DeadEntries(before) != {} then (MonitorCut(before, input.polledFirst), Died)
    else
      var seen := Monitored(before);
      if redis && Fatal(input.delivery) then (seen, Died)
      else
        var found := Chosen(seen.rows, redis, input.delivery);
        if found.None? then (seen, IdleRound)
        else (HandledJob(Handed(seen, input, found.value, name), found.value, input.env), Handled(found.value))
  }

  function Loop(redis: bool, name: WorkerName, s: World, inputs: seq<Input>): (World, seq<Outcome>)
    decreases |inputs|
  {
    if inputs == [] then (s, [])
    else
      var (t, o) := Round(redis, name, s, inputs[0]);
      if o == Died then (t, [Died])
      else
        var (u, rest) := Loop(redis, name, t, inputs[1..]);
        (u, [o] + rest)
  }

  /** A result with earlier outcomes in front. */
  function Extended(done: seq<Outcome>, result: (World, seq<Outcome>)): (World, seq<Outcome>) {
    (result.0, done + result.1)
  }

  class Worker {
    const name: WorkerName
    const redis: bool
    var rows: Table
    var nextId: JobId
    var tasks: map<TaskId, TaskRow>
    var running: map<TaskId, Pid>
    var live: map<Pid, TaskId>
    var nextPid: Pid
    var log: seq<JobId>

    function State(): World
      reads this
    {
      World(rows, nextId, tasks, running, live, nextPid, log)
    }

    constructor (name: WorkerName, redis: bool, rows: Table, nextId: JobId, tasks: map<TaskId, TaskRow>)
      ensures this.name == name && this.redis == redis
      ensures State() == Started(name, rows, nextId, tasks)
    {
      this.name, this.redis := name, redis;
      this.rows := ClearStale(rows, name);
      this.nextId := nextId;
      this.tasks := tasks;
      running, live, nextPid, log := map[], map[], 0, [];
    }

    /** monitor_finished_processes: one pass over the table, then the finished ids are dropped. A
        publication that raises ends the pass at its first finished entry, and the worker. */
    method MonitorFinished(raises: bool, polledFirst: TaskId) returns (died: bool)
      modifies this
      ensures died <==> raises && DeadEntries(old(State())) != {}
      ensures State() == if died then MonitorCut(old(State()), polledFirst) else Monitored(old(State()))
    {
      var finished := DeadEntries(State());
      died := raises && finished != {};
      if died {
        tasks := SetFlag(tasks, FirstDead(State(), polledFirst), false);
        return;
      }
      LowerFlags(finished);
      running := running - finished;
      assert running == Monitored(old(State())).running;
    }

    method LowerFlags(finished: set<TaskId>)
      modifies this`tasks
      ensures tasks == map t | t in old(tasks) ::
                if t in finished then old(tasks)[t].(isRunning := false) else old(tasks)[t]
    {
      var todo := finished;
      while todo != {}
        invariant todo <= finished
        invariant tasks == map t | t in old(tasks) ::
                    if t in finished - todo then old(tasks)[t].(isRunning := false) else old(tasks)[t]
        decreases todo
      {
        var t := Least(todo);
        todo := todo - {t};
        tasks := SetFlag(tasks, t, false);
      }
    }

    /** next_job_sync: the Redis path with its fallbacks, or the MySQL path. */
    method NextJob(delivery: Delivery) returns (found: Option<JobId>, died: bool)
      modifies this
      ensures died <==> redis && Fatal(delivery)
      ensures died ==> found.None?
      ensures !died ==> found == Chosen(old(rows), redis, delivery)
      ensures State() == if found.Some? then Taken(old(State()), found.value, name) else old(State())
    {
      found, died := None, false;
      if redis {
        match delivery {
          case NoMessage =>
          case NotJson =>
          case NotAnObject => return None, true;
          case BadJobId => return None, true;
          case Unreachable => return None, true;
          case Message(jobId, key) =>
            if jobId > 0 && IsPending(rows, jobId) {
              found := Some(jobId);
            } else if key != "" {
              var named := ByKey(rows, key);
              if named.Some? && rows[named.value].status == Pending {
                found := named;
              }
            }
        }
      }
      if found.None? {
        found := LowestPending(rows);
      }
      if found.Some? {
        rows := ClaimUpdate(rows, found.value, name);
        log := log + [found.value];
      }
    }

    method HandleStart(id: JobId, env: Env)
      requires id in rows
      modifies this
      ensures State() == StartHandled(old(State()), id, env)
    {
      var t := rows[id].taskId;
      if t !in tasks {
        rows := FinishUpdate(rows, id, Failed, None);
        return;
      }
      if !tasks[t].enabled {
        rows := FinishUpdate(rows, id, Failed, None);
        return;
      }
      if t in running && running[t] in live {
        rows := FinishUpdate(rows, id, Completed, Some(running[t]));
        return;
      }
      if env.launchRaises {
        rows := FinishUpdate(rows, id, Failed, None);
        return;
      }
      var pid := nextPid;
      nextPid := nextPid + 1;
      live := live[pid := t];
      running := running[t := pid];
      tasks := SetFlag(tasks, t, true);
      rows := ProcessUpdate(rows, id, pid);
      rows := FinishUpdate(rows, id, Completed, Some(pid));
      if env.publishRaises {
        rows := FinishUpdate(rows, id, Failed, None);
      }
    }

    method HandleStop(id: JobId, env: Env)
      requires id in rows
      modifies this
      ensures State() == StopHandled(old(State()), id, env)
    {
      var t := rows[id].taskId;
      if t in running && running[t] in live {
        if env.stop != ChildExits {
          rows := FinishUpdate(rows, id, Failed, None);
          return;
        }
        live := Without(live, running[t]);
        running := Without(running, t);
      }
      tasks := SetFlag(tasks, t, false);
      rows := FinishUpdate(rows, id, Completed, None);
      if env.publishRaises {
        rows := FinishUpdate(rows, id, Failed, None);
      }
    }

    /** handle_generate_job: the loop over the bridge's output lines. */
    method HandleGenerate(id: JobId, env: Env)
      requires id in rows
      modifies this
      ensures State() == GenerateHandled(old(State()), id, env)
    {
      if !env.payloadOk {
        rows := FailUpdate(rows, id, None);
        return;
      }
      var steps := rows[id].steps;
      if env.launchRaises {
        rows := FinishUpdate(rows, id, Failed, None);
        return;
      }
      ghost var target := Generated(rows, id, steps, None, QUEUED_TEXT, env.lines, env);
      var last: Option<string>, text := None, QUEUED_TEXT;
      var i := 0;
      while i < |env.lines|
        invariant 0 <= i <= |env.lines|
        invariant id in rows && last != Some("")
        invariant tasks == old(tasks) && running == old(running) && live == old(live)
        invariant nextPid == old(nextPid) && log == old(log) && nextId == old(nextId)
        invariant Generated(rows, id, steps, last, text, env.lines[i..], env) == target
      {
        var line := env.lines[i];
        assert env.lines[i..][0] == line && env.lines[i..][1..] == env.lines[i + 1..];
        match line {
          case ProgressLine(step, words) =>
            last := if step == Some("") then None else step;
            text := if words != "" then words else text;
            steps := ApplyStepProgress(steps, last, text);
            rows := ProgressUpdate(rows, id, Some(steps));
          case ResultLine(taskId) =>
            if taskId.None? {
              rows := FinishUpdate(rows, id, Failed, None);
              return;
            }
            steps := FinalizeSteps(steps, true, "", None);
            rows := CompleteUpdate(rows, id, taskId.value, Some(steps));
            if env.publishRaises || env.waitRaises {
              rows := FinishUpdate(rows, id, Failed, None);
            }
            return;
          case MalformedResult =>
            rows := FailUpdate(rows, id, Some(steps));
            if env.waitRaises {
              rows := FinishUpdate(rows, id, Failed, None);
            }
            return;
          case ErrorLine(error) =>
            steps := FinalizeSteps(steps, false, error, last);
            rows := FailUpdate(rows, id, Some(steps));
            if env.waitRaises {
              rows := FinishUpdate(rows, id, Failed, None);
            }
            return;
          case Noise =>
        }
        i := i + 1;
      }
      if !env.exitOk {
        var message := if text != "" && text != QUEUED_TEXT then text else env.exitText;
        steps := FinalizeSteps(steps, false, message, last);
      }
      rows := FailUpdate(rows, id, Some(steps));
    }

    method HandleReanalyze(id: JobId, env: Env)
      requires id in rows
      modifies this
      ensures State() == ReanalyzeHandled(old(State()), id, env)
    {
      if !env.payloadOk {
        rows := FailUpdate(rows, id, None);
        return;
      }
      rows := ProgressUpdate(rows, id, None);
      if env.launchRaises {
        rows := FinishUpdate(rows, id, Failed, None);
        return;
      }
      ghost var target := Reanalyzed(rows, id, env.lines, env);
      for i := 0 to |env.lines|
        invariant State() == old(State()).(rows := rows)
        invariant Reanalyzed(rows, id, env.lines[i..], env) == target
      {
        assert env.lines[i..][0] == env.lines[i] && env.lines[i..][1..] == env.lines[i + 1..];
        match env.lines[i] {
          case ResultLine(taskId) =>
            if taskId.None? {
              rows := FinishUpdate(rows, id, Failed, None);
            } else {
              rows := Rescued(CompleteUpdate(rows, id, taskId.value, None), id, env.publishRaises || env.waitRaises);
            }
            return;
          case MalformedResult =>
            rows := Rescued(FailUpdate(rows, id, None), id, env.waitRaises);
            return;
          case ErrorLine(_) =>
            rows := Rescued(FailUpdate(rows, id, None), id, env.waitRaises);
            return;
          case _ =>
        }
      }
      rows := FailUpdate(rows, id, None);
    }

    /** Others add jobs and change tasks. */
    method Receive(news: News)
      modifies this`rows, this`nextId, this`tasks
      ensures State() == Arrived(old(State()), news)
    {
      var posted := Posted(State(), news.jobs);
      PostedFrame(State(), news.jobs);
      rows, nextId := posted.rows, posted.nextId;
      tasks := WithEnabled(tasks, news.enabled);
    }

    /** One pass of the loop in `main`. Child processes may exit before the monitor looks and
        again before the handler does. */
    method RunRound(input: Input) returns (outcome: Outcome)
      modifies this
      ensures (State(), outcome) == Round(redis, name, old(State()), input)
    {
      Receive(input.news);
      live := live - input.exitsBefore;
      var cut := MonitorFinished(input.monitorRaises, input.polledFirst);
      if cut {
        return Died;
      }
      var found, died := NextJob(input.delivery);
      if died {
        return Died;
      }
      if found.None? {
        return IdleRound;
      }
      var id := found.value;
      tasks := WithEnabled(tasks, input.enabled);
      live := live - input.exitsAfter;
      match rows[id].kind {
        case StartTask => HandleStart(id, input.env);
        case StopTask => HandleStop(id, input.env);
        case GenerateTask => HandleGenerate(id, input.env);
        case ReanalyzeResult => HandleReanalyze(id, input.env);
        case OtherKind => rows := FinishUpdate(rows, id, Failed, None);
      }
      return Handled(id);
    }

    /** One round of the loop, on the list of results so far: what the rest of the run adds to it is what
        was still to come. */
    method LoopOnce(inputs: seq<Input>, i: nat, done: seq<Outcome>) returns (outcomes: seq<Outcome>, died: bool)
      requires i < |inputs|
      modifies this
      ensures died ==> Extended(done, Loop(redis, name, old(State()), inputs[i..])) == (State(), outcomes)
      ensures !died ==> Extended(done, Loop(redis, name, old(State()), inputs[i..]))
                        == Extended(outcomes, Loop(redis, name, State(), inputs[i + 1..]))
    {
      assert inputs[i..][0] == inputs[i] && inputs[i..][1..] == inputs[i + 1..];
      var outcome := RunRound(inputs[i]);
      outcomes, died := done + [outcome], outcome == Died;
      ghost var rest := Loop(redis, name, State(), inputs[i + 1..]).1;
      assert done + ([outcome] + rest) == outcomes + rest;
    }

    method RunLoop(inputs: seq<Input>) returns (outcomes: seq<Outcome>)
      modifies this
      ensures (State(), outcomes) == Loop(redis, name, old(State()), inputs)
    {
      outcomes := [];
      var i, died := 0, false;
      assert inputs[0..] == inputs;
      ghost var whole := Loop(redis, name, State(), inputs);
      assert [] + whole.1 == whole.1;
      while i < |inputs| && !died
        invariant 0 <= i <= |inputs|
        invariant if died then whole == (State(), outcomes)
                  else whole == Extended(outcomes, Loop(redis, name, State(), inputs[i..]))
      {
        outcomes, died := LoopOnce(inputs, i, outcomes);
        i := i + 1;
      }
      if !died {
        assert inputs[i..] == [] && outcomes + [] == outcomes;
      }
    }

    /** The `finally` block of `main`: every listed flag is cleared, whatever the signals do. */
    method Shutdown(exits: set<Pid>)
      modifies this
      ensures State() == old(State()).(live := old(live) - exits, tasks := AllCleared(old(State())))
    {
      live := live - exits;
      var todo := running.Keys;
      while todo != {}
        invariant todo <= running.Keys
        invariant State() == old(State()).(live := old(live) - exits, tasks := tasks)
        invariant tasks == map t | t in old(tasks) ::
                    if t in running.Keys - todo then old(tasks)[t].(isRunning := false) else old(tasks)[t]
        decreases todo
      {
        var t := Least(todo);
        todo := todo - {t};
        tasks := SetFlag(tasks, t, false);
      }
      assert tasks == AllCleared(old(State()));
    }
  }

  function Started(name: WorkerName, rows: Table, nextId: JobId, tasks: map<TaskId, TaskRow>): World {
    World(ClearStale(rows, name), nextId, tasks, map[], map[], 0, [])
  }

  function AllCleared(s: World): map<TaskId, TaskRow> {
    map t | t in s.tasks :: if t in s.running then s.tasks[t].(isRunning := false) else s.tasks[t]
  }

  // ----- the mirror invariant --------------------------------------------------------------

  /** A raised flag has an entry; a live child is the entry of its task, whose flag is raised. */
  ghost predicate Mirror(s: World) {
    && (forall t | t in s.tasks && s.tasks[t].isRunning :: t in s.running)
    && (forall p | p in s.live :: Mirrored(s, p))
    && (forall t | t in s.running ::
          s.running[t] < s.nextPid && (s.running[t] in s.live ==> s.live[s.running[t]] == t))
  }

  predicate Mirrored(s: World, p: Pid)
    requires p in s.live
  {
    && p < s.nextPid
    && s.live[p] in s.running && s.running[s.live[p]] == p
    && s.live[p] in s.tasks && s.tasks[s.live[p]].isRunning
  }

  lemma ExitsKeepMirror(s: World, gone: set<Pid>)
    requires Mirror(s)
    ensures Mirror(Exits(s, gone))
  {
    forall p | p in s.live - gone ensures Mirrored(Exits(s, gone), p) {
      assert Mirrored(s, p);
    }
  }

  lemma MonitorKeepsMirror(s: World)
    requires Mirror(s)
    ensures Mirror(Monitored(s))
    ensures forall t | t in Monitored(s).running :: AliveEntry(Monitored(s), t)
  {
    forall p | p in s.live ensures Mirrored(Monitored(s), p) {
      assert Mirrored(s, p);
    }
  }

  lemma StartKeepsMirror(s: World, id: JobId, env: Env)
    requires Mirror(s) && id in s.rows
    ensures Mirror(StartHandled(s, id, env))
  {
    var u := StartHandled(s, id, env);
    forall p | p in u.live ensures Mirrored(u, p) {
      assert p in s.live ==> Mirrored(s, p);
    }
  }

  lemma StopKeepsMirror(s: World, id: JobId, env: Env)
    requires Mirror(s) && id in s.rows
    ensures Mirror(StopHandled(s, id, env))
  {
    var u := StopHandled(s, id, env);
    forall p | p in u.live ensures Mirrored(u, p) {
      assert Mirrored(s, p);
    }
  }

  /** Jobs do not matter, nor does which tasks are enabled. */
  lemma RowsDoNotMatter(s: World, u: World)
    requires Mirror(s) && u == s.(rows := u.rows, nextId := u.nextId, tasks := u.tasks, log := u.log)
    requires forall t | t in s.tasks :: t in u.tasks && u.tasks[t].isRunning == s.tasks[t].isRunning
    requires forall t | t in u.tasks && t !in s.tasks :: !u.tasks[t].isRunning
    ensures Mirror(u)
  {
    forall p | p in u.live ensures Mirrored(u, p) {
      assert Mirrored(s, p);
      var task := s.live[p];
      assert task in s.tasks.Keys && s.tasks[task].isRunning;
      assert task in u.tasks;
    }
  }

  lemma {:induction false} PostedFrame(s: World, jobs: seq<NewJob>)
    ensures var t := Posted(s, jobs); t == s.(rows := t.rows, nextId := t.nextId)
    decreases |jobs|
  {
    if jobs != [] {
      PostedFrame(PostOne(s, jobs[0]), jobs[1..]);
    }
  }

  lemma ArrivedKeepsMirror(s: World, news: News)
    requires Mirror(s)
    ensures Mirror(Arrived(s, news))
  {
    PostedFrame(s, news.jobs);
    RowsDoNotMatter(s, Arrived(s, news));
  }

  lemma CutKeepsMirror(s: World, polledFirst: TaskId)
    requires Mirror(s) && DeadEntries(s) != {}
    ensures Mirror(MonitorCut(s, polledFirst))
  {
    forall p | p in s.live ensures Mirrored(MonitorCut(s, polledFirst), p) {
      assert Mirrored(s, p);
    }
  }

  lemma HandlerKeepsMirror(s: World, id: JobId, env: Env)
    requires Mirror(s) && id in s.rows
    ensures Mirror(HandledJob(s, id, env))
  {
    match s.rows[id].kind
    case StartTask => StartKeepsMirror(s, id, env);
    case StopTask => StopKeepsMirror(s, id, env);
    case _ => RowsDoNotMatter(s, HandledJob(s, id, env));
  }

  lemma RoundKeepsMirror(redis: bool, name: WorkerName, s: World, input: Input)
    requires Mirror(s)
    ensures Mirror(Round(redis, name, s, input).0)
  {
    ArrivedKeepsMirror(s, input.news);
    ExitsKeepMirror(Arrived(s, input.news), input.exitsBefore);
    var before := Before(s, input);
    if input.monitorRaises && DeadEntries(before) != {} {
      CutKeepsMirror(before, input.polledFirst);
    } else {
      MonitorKeepsMirror(before);
      var seen := Monitored(before);
      var found := Chosen(seen.rows, redis, input.delivery);
      if !(redis && Fatal(input.delivery)) && found.Some? {
        HandedKeepsMirror(seen, input, found.value, name);
        HandlerKeepsMirror(Handed(seen, input, found.value, name), found.value, input.env);
      }
    }
  }

  lemma HandedKeepsMirror(s: World, input: Input, id: JobId, name: WorkerName)
    requires Mirror(s)
    ensures Mirror(Handed(s, input, id, name))
  {
    var changed := Changed(Taken(s, id, name), input.enabled);
    RowsDoNotMatter(s, changed);
    ExitsKeepMirror(changed, input.exitsAfter);
  }

  /** After every round of every run: a raised flag has an entry, a live child is listed under its
      task with the flag raised, and a task has at most one live child. */
  lemma {:induction false} MirrorOverRuns(redis: bool, name: WorkerName, s: World, inputs: seq<Input>)
    requires Mirror(s)
    ensures var t := Loop(redis, name, s, inputs).0;
            && Mirror(t)
            && (forall p, q | p in t.live && q in t.live && t.live[p] == t.live[q] :: p == q)
            && (forall task | task in t.running && t.running[task] in t.live ::
                  task in t.tasks && t.tasks[task].isRunning)
    decreases |inputs|
  {
    if inputs != [] {
      RoundKeepsMirror(redis, name, s, inputs[0]);
      var (t, o) := Round(redis, name, s, inputs[0]);
      if o != Died {
        MirrorOverRuns(redis, name, t, inputs[1..]);
      } else {
        OneChildEach(t);
      }
    } else {
      OneChildEach(s);
    }
  }

  /** A worker that starts with all flags lowered has nothing to mirror. */
  lemma StartedMirrors(name: WorkerName, rows: Table, nextId: JobId, tasks: map<TaskId, TaskRow>)
    requires forall t | t in tasks :: !tasks[t].isRunning
    ensures Mirror(Started(name, rows, nextId, tasks))
  {
  }

  /** From a start with all flags lowered, over every run with every arrival of jobs and tasks. */
  lemma MirrorFromTheStart(redis: bool, name: WorkerName, rows: Table, nextId: JobId, tasks: map<TaskId, TaskRow>,
                           inputs: seq<Input>, task: TaskId)
    requires forall t | t in tasks :: !tasks[t].isRunning
    ensures var t := Loop(redis, name, Started(name, rows, nextId, tasks), inputs).0;
            && (task in t.tasks && t.tasks[task].isRunning ==> task in t.running)
            && (AliveEntry(t, task) ==> task in t.tasks && t.tasks[task].isRunning)
            && (forall p, q | p in t.live && q in t.live && t.live[p] == t.live[q] :: p == q)
  {
    StartedMirrors(name, rows, nextId, tasks);
    MirrorOverRuns(redis, name, Started(name, rows, nextId, tasks), inputs);
  }

  lemma OneChildEach(t: World)
    requires Mirror(t)
    ensures forall p, q | p in t.live && q in t.live && t.live[p] == t.live[q] :: p == q
    ensures forall task | task in t.running && t.running[task] in t.live ::
              task in t.tasks && t.tasks[task].isRunning
  {
    forall task | task in t.running && t.running[task] in t.live
      ensures task in t.tasks && t.tasks[task].isRunning
    {
      assert Mirrored(t, t.running[task]);
    }
    forall p, q | p in t.live && q in t.live && t.live[p] == t.live[q] ensures p == q {
      assert Mirrored(t, p) && Mirrored(t, q);
    }
  }

  /** After the `finally` block no flag is raised, even if children survive the signal. */
  lemma ShutdownClearsFlags(redis: bool, name: WorkerName, s: World, inputs: seq<Input>)
    requires Mirror(s)
    ensures var t := Loop(redis, name, s, inputs).0;
            forall task | task in AllCleared(t) :: !AllCleared(t)[task].isRunning
  {
    MirrorOverRuns(redis, name, s, inputs);
  }

  // ----- draining --------------------------------------------------------------------------

  lemma GeneratedSettles(rows: Table, id: JobId, steps: seq<Step>, last: Option<string>, text: string,
                         lines: seq<Line>, env: Env)
    requires id in rows
    ensures var t := Generated(rows, id, steps, last, text, lines, env);
            Settles(rows, t, id)
    decreases |lines|
  {
    if lines != [] {
      match lines[0]
      case ProgressLine(step, words) =>
        var said := if words != "" then words else text;
        var key := if step == Some("") then None else step;
        var next := Applied(steps, key, said);
        GeneratedSettles(ProgressUpdate(rows, id, Some(next)), id, next, key, said, lines[1..], env);
      case Noise => GeneratedSettles(rows, id, steps, last, text, lines[1..], env);
      case _ =>
    }
  }

  lemma ReanalyzedSettles(rows: Table, id: JobId, lines: seq<Line>, env: Env)
    requires id in rows
    ensures Settles(rows, Reanalyzed(rows, id, lines, env), id)
    decreases |lines|
  {
    if lines != [] {
      ReanalyzedSettles(rows, id, lines[1..], env);
    }
  }

  /** Row `id` reaches a final status and no other row is touched. */
  predicate Settles(before: Table, after: Table, id: JobId) {
    && after.Keys == before.Keys
    && id in after && Terminal(after[id].status)
    && forall other | other in before && other != id :: after[other] == before[other]
  }

  lemma HandlerSettles(s: World, id: JobId, env: Env)
    requires id in s.rows
    ensures Settles(s.rows, HandledJob(s, id, env).rows, id)
    ensures HandledJob(s, id, env).log == s.log && HandledJob(s, id, env).nextId == s.nextId
  {
    match s.rows[id].kind
    case StartTask => StartSettles(s, id, env);
    case StopTask => StopSettles(s, id, env);
    case GenerateTask => GeneratedSettles(s.rows, id, s.rows[id].steps, None, QUEUED_TEXT, env.lines, env);
    case ReanalyzeResult =>
      ReanalyzedSettles(ProgressUpdate(s.rows, id, None), id, env.lines, env);
    case OtherKind =>
  }

  lemma StartSettles(s: World, id: JobId, env: Env)
    requires id in s.rows
    ensures var t := StartHandled(s, id, env);
            Settles(s.rows, t.rows, id) && t.log == s.log && t.nextId == s.nextId
  {
  }

  lemma StopSettles(s: World, id: JobId, env: Env)
    requires id in s.rows
    ensures var t := StopHandled(s, id, env);
            Settles(s.rows, t.rows, id) && t.log == s.log && t.nextId == s.nextId
  {
  }

  // ----- arrivals ----------------------------------------------------------------------------

  /** Every job id was handed out. */
  predicate Numbered(s: World) {
    forall id | id in s.rows :: id < s.nextId
  }

  /** Old rows stay as they were; new ones have new ids and are pending. */
  ghost predicate Extends(s: World, t: World) {
    && s.nextId <= t.nextId
    && (forall id | id in s.rows :: id in t.rows && t.rows[id] == s.rows[id])
    && (forall id | id in t.rows && id !in s.rows :: s.nextId <= id && t.rows[id].status == Pending)
  }

  lemma {:induction false} PostedExtends(s: World, jobs: seq<NewJob>)
    requires Numbered(s)
    ensures Numbered(Posted(s, jobs)) && Extends(s, Posted(s, jobs))
    decreases |jobs|
  {
    if jobs != [] {
      PostedExtends(PostOne(s, jobs[0]), jobs[1..]);
    }
  }

  lemma RoundNumbers(redis: bool, name: WorkerName, s: World, input: Input)
    requires Numbered(s)
    ensures var t := Round(redis, name, s, input).0;
            Numbered(t) && Numbered(Arrived(s, input.news)) && Extends(s, Arrived(s, input.news))
            && t.nextId == Arrived(s, input.news).nextId && t.rows.Keys == Arrived(s, input.news).rows.Keys
  {
    PostedExtends(s, input.news.jobs);
    RoundProgress(redis, name, s, input);
  }

  /** A round dies exactly when the monitor publishes in vain or the delivery is fatal. Otherwise it is
      idle exactly when nothing is pending after the arrivals, and else settles one pending row, whatever
      the message says. A round that handles nothing changes no row. */
  lemma RoundProgress(redis: bool, name: WorkerName, s: World, input: Input)
    ensures var (t, o) := Round(redis, name, s, input);
            var u := Arrived(s, input.news);
            && (o == Died <==> DiesIn(redis, s, input))
            && (o == IdleRound <==> o != Died && PendingIds(u.rows) == {})
            && (o.Handled? ==>
                  && IsPending(u.rows, o.id)
                  && Settles(u.rows, t.rows, o.id)
                  && PendingIds(t.rows) == PendingIds(u.rows) - {o.id}
                  && t.log == s.log + [o.id]
                  && (!redis ==> forall id | IsPending(u.rows, id) :: o.id <= id))
            && (!o.Handled? ==> t.rows == u.rows && t.log == s.log)
            && t.nextId == u.nextId
  {
    var seen := Monitored(Before(s, input));
    var found := Chosen(seen.rows, redis, input.delivery);
    if !DiesIn(redis, s, input) && found.Some? {
      RoundHandles(redis, name, s, input, found.value);
    } else {
      RoundIdles(redis, name, s, input);
    }
  }

  lemma BeforeRows(s: World, input: Input)
    ensures Before(s, input).rows == Arrived(s, input.news).rows && Before(s, input).log == s.log
    ensures Before(s, input).nextId == Arrived(s, input.news).nextId
  {
    PostedFrame(s, input.news.jobs);
  }

  lemma RoundHandles(redis: bool, name: WorkerName, s: World, input: Input, id: JobId)
    requires !DiesIn(redis, s, input) && Chosen(Monitored(Before(s, input)).rows, redis, input.delivery) == Some(id)
    ensures var (t, o) := Round(redis, name, s, input);
            var u := Arrived(s, input.news);
            && o == Handled(id) && IsPending(u.rows, id) && Settles(u.rows, t.rows, id)
            && PendingIds(t.rows) == PendingIds(u.rows) - {id} && t.log == s.log + [id] && t.nextId == u.nextId
            && (!redis ==> forall other | IsPending(u.rows, other) :: id <= other)
  {
    BeforeRows(s, input);
    var seen := Monitored(Before(s, input));
    HandedSettles(seen, input, id, name);
  }

  lemma HandedSettles(seen: World, input: Input, id: JobId, name: WorkerName)
    requires IsPending(seen.rows, id)
    ensures var t := HandledJob(Handed(seen, input, id, name), id, input.env);
            && Settles(seen.rows, t.rows, id) && PendingIds(t.rows) == PendingIds(seen.rows) - {id}
            && t.log == seen.log + [id] && t.nextId == seen.nextId
  {
    var handed := Handed(seen, input, id, name);
    HandlerSettles(handed, id, input.env);
    SettledPending(seen.rows, HandledJob(handed, id, input.env).rows, id, name);
  }

  lemma RoundIdles(redis: bool, name: WorkerName, s: World, input: Input)
    requires DiesIn(redis, s, input) || Chosen(Monitored(Before(s, input)).rows, redis, input.delivery).None?
    ensures var (t, o) := Round(redis, name, s, input);
            var u := Arrived(s, input.news);
            && t.rows == u.rows && t.log == s.log && t.nextId == u.nextId
            && o == (if DiesIn(redis, s, input) then Died else IdleRound)
            && (o == IdleRound ==> PendingIds(u.rows) == {})
  {
    BeforeRows(s, input);
  }

  lemma SettledPending(before: Table, after: Table, id: JobId, name: WorkerName)
    requires IsPending(before, id) && Settles(ClaimUpdate(before, id, name), after, id)
    ensures Settles(before, after, id) && PendingIds(after) == PendingIds(before) - {id}
  {
    forall other: int ensures other in PendingIds(after) <==> other in PendingIds(before) - {id} {
    }
  }

  // ----- what a run claims ---------------------------------------------------------------------

  /** The jobs that a run handled, in order. */
  function Claims(outcomes: seq<Outcome>): seq<JobId>
    decreases |outcomes|
  {
    if outcomes == [] then []
    else (if outcomes[0].Handled? then [outcomes[0].id] else []) + Claims(outcomes[1..])
  }

  function ClaimsOf(redis: bool, name: WorkerName, s: World, inputs: seq<Input>): seq<JobId> {
    Claims(Loop(redis, name, s, inputs).1)
  }

  lemma ClaimsCons(redis: bool, name: WorkerName, s: World, inputs: seq<Input>)
    requires inputs != []
    ensures var (t, o) := Round(redis, name, s, inputs[0]);
            ClaimsOf(redis, name, s, inputs)
            == if o == Died then []
               else (if o.Handled? then [o.id] else []) + ClaimsOf(redis, name, t, inputs[1..])
  {
    var (t, o) := Round(redis, name, s, inputs[0]);
    var rest := Loop(redis, name, t, inputs[1..]).1;
    assert ([o] + rest)[1..] == rest && [Died][1..] == [];
  }

  predicate Distinct(ids: seq<JobId>) {
    forall i, j | 0 <= i < j < |ids| :: ids[i] != ids[j]
  }

  predicate Ascending(ids: seq<JobId>) {
    forall i, j | 0 <= i < j < |ids| :: ids[i] < ids[j]
  }

  /** What a run has done with the table it found and the jobs that arrived: every claimed job was pending,
      is claimed once and is terminal now; every other old row is unchanged, every other new one pending. */
  ghost predicate Accounted(s: World, t: World, claims: seq<JobId>) {
    && t.log == s.log + claims && Distinct(claims) && s.nextId <= t.nextId
    && s.rows.Keys <= t.rows.Keys
    && (forall id | id in claims :: id in t.rows && Terminal(t.rows[id].status))
    && (forall id | id in claims && id in s.rows :: IsPending(s.rows, id))
    && (forall id | id in s.rows && id !in claims :: t.rows[id] == s.rows[id])
    && (forall id | id in t.rows && id !in s.rows :: s.nextId <= id)
    && (forall id | id in t.rows && id !in s.rows && id !in claims :: IsPending(t.rows, id))
  }

  lemma DistinctAppend(a: seq<JobId>, b: seq<JobId>)
    requires Distinct(a) && Distinct(b) && forall id | id in a :: id !in b
    ensures Distinct(a + b)
  {
    forall i, j | 0 <= i < j < |a + b| ensures (a + b)[i] != (a + b)[j] {
      if i < |a| <= j {
        assert a[i] in a && b[j - |a|] in b;
      }
    }
  }

  lemma AccountedAppend(s: World, t: World, u: World, first: seq<JobId>, rest: seq<JobId>)
    requires Accounted(s, t, first) && Accounted(t, u, rest)
    ensures Accounted(s, u, first + rest)
  {
    forall id | id in first ensures id !in rest {
      assert id in t.rows && Terminal(t.rows[id].status);
    }
    DistinctAppend(first, rest);
    assert forall id :: id in first + rest <==> id in first || id in rest;
    forall id | id in u.rows && id !in s.rows && id !in first + rest ensures IsPending(u.rows, id) {
      assert id in t.rows ==> IsPending(t.rows, id);
    }
  }

  lemma SettledAccounts(s: World, u: World, t: World, id: JobId)
    requires Numbered(s) && Extends(s, u) && IsPending(u.rows, id) && Settles(u.rows, t.rows, id)
    requires t.log == s.log + [id] && t.nextId == u.nextId
    ensures Accounted(s, t, [id])
  {
  }

  lemma IdleAccounts(s: World, u: World, t: World)
    requires Numbered(s) && Extends(s, u) && t.rows == u.rows && t.log == s.log && t.nextId == u.nextId
    ensures Accounted(s, t, [])
  {
  }

  lemma RoundAccounts(redis: bool, name: WorkerName, s: World, input: Input)
    requires Numbered(s)
    ensures var (t, o) := Round(redis, name, s, input); Accounted(s, t, if o.Handled? then [o.id] else [])
  {
    RoundNumbers(redis, name, s, input);
    RoundProgress(redis, name, s, input);
    var (t, o) := Round(redis, name, s, input);
    if o.Handled? {
      SettledAccounts(s, Arrived(s, input.news), t, o.id);
    } else {
      IdleAccounts(s, Arrived(s, input.news), t);
    }
  }

  /** Nothing is lost and nothing is done twice: over every run, with every arrival and every delivery, a
      claimed job was pending, is claimed once and ends terminal, and all the others stay as they came. */
  lemma {:induction false} ClaimsAccount(redis: bool, name: WorkerName, s: World, inputs: seq<Input>)
    requires Numbered(s)
    ensures var t := Loop(redis, name, s, inputs).0;
            Numbered(t) && Accounted(s, t, ClaimsOf(redis, name, s, inputs))
    decreases |inputs|
  {
    if inputs != [] {
      var (t, o) := Round(redis, name, s, inputs[0]);
      RoundNumbers(redis, name, s, inputs[0]);
      RoundAccounts(redis, name, s, inputs[0]);
      ClaimsCons(redis, name, s, inputs);
      if o != Died {
        ClaimsAccount(redis, name, t, inputs[1..]);
        AccountedAppend(s, t, Loop(redis, name, t, inputs[1..]).0, if o.Handled? then [o.id] else [],
                        ClaimsOf(redis, name, t, inputs[1..]));
      }
    }
  }

  /** Nothing arrives, nothing fatal is delivered, and the monitor does not raise. */
  predicate Quiet(redis: bool, inputs: seq<Input>) {
    forall i | 0 <= i < |inputs| ::
      inputs[i].news.jobs == [] && !inputs[i].monitorRaises && (redis ==> !Fatal(inputs[i].delivery))
  }

  /** Handled first, idle afterwards. */
  predicate BusyThenIdle(outcomes: seq<Outcome>, n: nat) {
    forall i | 0 <= i < |outcomes| :: outcomes[i].Handled? <==> i < n
  }

  /** Redis only hints. While nothing arrives, and whatever is delivered short of a fatal message, a lone
      worker facing n pending rows settles one in each of its first n rounds and is idle afterwards; by
      `ClaimsAccount` these are different rows. */
  lemma {:induction false} Drains(redis: bool, name: WorkerName, s: World, inputs: seq<Input>)
    requires Quiet(redis, inputs)
    ensures DrainsAll(s, Loop(redis, name, s, inputs).1, ClaimsOf(redis, name, s, inputs), |inputs|)
    decreases |inputs|
  {
    if inputs != [] {
      var (t, o) := Round(redis, name, s, inputs[0]);
      QuietRound(redis, name, s, inputs[0]);
      assert Quiet(redis, inputs[1..]) by {
        assert forall i | 0 <= i < |inputs[1..]| :: inputs[1..][i] == inputs[i + 1];
      }
      Drains(redis, name, t, inputs[1..]);
      ClaimsCons(redis, name, s, inputs);
      DrainsCons(s, t, o, Loop(redis, name, t, inputs[1..]).1, ClaimsOf(redis, name, t, inputs[1..]), |inputs| - 1);
    }
  }

  /** As many rounds as asked for, handling a job each while some were pending. */
  predicate DrainsAll(s: World, outcomes: seq<Outcome>, claims: seq<JobId>, rounds: nat) {
    var n := |PendingIds(s.rows)|;
    |outcomes| == rounds && BusyThenIdle(outcomes, n) && |claims| == Min(n, rounds)
  }

  lemma QuietRound(redis: bool, name: WorkerName, s: World, input: Input)
    requires input.news.jobs == [] && !input.monitorRaises && (redis ==> !Fatal(input.delivery))
    ensures var (t, o) := Round(redis, name, s, input);
            && o != Died
            && |PendingIds(s.rows)| == |PendingIds(t.rows)| + (if o.Handled? then 1 else 0)
            && (o == IdleRound ==> PendingIds(s.rows) == {})
  {
    assert Arrived(s, input.news).rows == s.rows;
    RoundProgress(redis, name, s, input);
    var o := Round(redis, name, s, input).1;
    if o.Handled? {
      assert o.id in PendingIds(s.rows);
    }
  }

  lemma DrainsCons(s: World, t: World, o: Outcome, rest: seq<Outcome>, claims: seq<JobId>, rounds: nat)
    requires DrainsAll(t, rest, claims, rounds) && o != Died
    requires |PendingIds(s.rows)| == |PendingIds(t.rows)| + (if o.Handled? then 1 else 0)
    requires o == IdleRound ==> PendingIds(s.rows) == {}
    ensures DrainsAll(s, [o] + rest, (if o.Handled? then [o.id] else []) + claims, rounds + 1)
  {
    BusyCons(o, rest, |PendingIds(t.rows)|, |PendingIds(s.rows)|);
  }

  lemma BusyCons(o: Outcome, rest: seq<Outcome>, later: nat, n: nat)
    requires BusyThenIdle(rest, later) && (if o.Handled? then n == later + 1 else n == 0 && later == 0)
    ensures BusyThenIdle([o] + rest, n)
  {
    forall i | 0 <= i < |[o] + rest| ensures ([o] + rest)[i].Handled? <==> i < n {
      assert i > 0 ==> ([o] + rest)[i] == rest[i - 1];
    }
  }

  /** On the MySQL path jobs are claimed in ascending order of their ids, whatever arrives meanwhile. */
  lemma {:induction false} MySqlClaimsAscend(name: WorkerName, s: World, inputs: seq<Input>)
    requires Numbered(s)
    ensures Ascending(ClaimsOf(false, name, s, inputs))
    decreases |inputs|
  {
    if inputs != [] {
      var (t, o) := Round(false, name, s, inputs[0]);
      ClaimsCons(false, name, s, inputs);
      if o != Died {
        RoundNumbers(false, name, s, inputs[0]);
        MySqlClaimsAscend(name, t, inputs[1..]);
        if o.Handled? {
          LaterClaimsAreHigher(name, s, inputs);
          AscendingCons(o.id, ClaimsOf(false, name, t, inputs[1..]));
        }
      }
    }
  }

  lemma AscendingCons(id: JobId, ids: seq<JobId>)
    requires Ascending(ids) && forall other | other in ids :: id < other
    ensures Ascending([id] + ids)
  {
    forall i, j | 0 <= i < j < |[id] + ids| ensures ([id] + ids)[i] < ([id] + ids)[j] {
      assert ([id] + ids)[j] == ids[j - 1] && ids[j - 1] in ids;
    }
  }

  lemma LaterClaimsAreHigher(name: WorkerName, s: World, inputs: seq<Input>)
    requires Numbered(s) && inputs != [] && Round(false, name, s, inputs[0]).1.Handled?
    ensures var (t, o) := Round(false, name, s, inputs[0]);
            forall id | id in ClaimsOf(false, name, t, inputs[1..]) :: o.id < id
  {
    RoundNumbers(false, name, s, inputs[0]);
    RoundProgress(false, name, s, inputs[0]);
    var (t, o) := Round(false, name, s, inputs[0]);
    ClaimsAccount(false, name, t, inputs[1..]);
    var u := Loop(false, name, t, inputs[1..]).0;
    forall id | id in ClaimsOf(false, name, t, inputs[1..]) ensures o.id < id {
      if id in t.rows {
        assert id in PendingIds(t.rows) && IsPending(Arrived(s, inputs[0].news).rows, id);
      } else {
        assert id in u.rows && t.nextId <= id;
      }
    }
  }

  /** The pending jobs up to an id. */
  function UpTo(rows: Table, id: JobId): set<int> {
    set j | j in PendingIds(rows) && j <= id
  }

  lemma ArrivalsAreBehind(s: World, u: World, id: JobId)
    requires Numbered(s) && Extends(s, u) && IsPending(s.rows, id)
    ensures UpTo(u.rows, id) == UpTo(s.rows, id) && IsPending(u.rows, id)
  {
    forall j: int ensures j in UpTo(u.rows, id) <==> j in UpTo(s.rows, id) {
    }
  }

  /** First come, first served on the MySQL path: a pending job is claimed within as many rounds as there are
      pending jobs up to it, whatever arrives meanwhile. */
  lemma {:induction false} MySqlServesInOrder(name: WorkerName, s: World, inputs: seq<Input>, id: JobId)
    requires Numbered(s) && IsPending(s.rows, id) && |UpTo(s.rows, id)| <= |inputs|
    requires forall i | 0 <= i < |inputs| :: !inputs[i].monitorRaises
    ensures id in ClaimsOf(false, name, s, inputs)
    decreases |inputs|
  {
    assert id in UpTo(s.rows, id);
    var (t, o) := Round(false, name, s, inputs[0]);
    var u := Arrived(s, inputs[0].news);
    RoundNumbers(false, name, s, inputs[0]);
    RoundProgress(false, name, s, inputs[0]);
    ClaimsCons(false, name, s, inputs);
    ArrivalsAreBehind(s, u, id);
    assert id in PendingIds(u.rows);
    if o.id != id {
      OneFewerBefore(u.rows, t.rows, o.id, id);
      MySqlServesInOrder(name, t, inputs[1..], id);
    }
  }

  lemma OneFewerBefore(rows: Table, after: Table, claimed: JobId, id: JobId)
    requires PendingIds(after) == PendingIds(rows) - {claimed} && claimed < id
    requires claimed in PendingIds(rows) && id in PendingIds(rows)
    ensures id in PendingIds(after) && |UpTo(after, id)| == |UpTo(rows, id)| - 1
  {
    assert UpTo(after, id) == UpTo(rows, id) - {claimed} && claimed in UpTo(rows, id);
  }

  /** The position of the first line that settles the job, or the end. */
  function Decisive(lines: seq<Line>): (i: nat)
    ensures i <= |lines|
    ensures forall j | 0 <= j < i :: lines[j].ProgressLine? || lines[j].Noise?
    ensures i < |lines| ==> !lines[i].ProgressLine? && !lines[i].Noise?
  {
    if lines == [] then 0
    else if lines[0].ProgressLine? || lines[0].Noise? then 1 + Decisive(lines[1..])
    else 0
  }

  /** A well-formed result line is the first decisive line, and neither the publication nor the wait after
      it raises. */
  predicate Succeeds(lines: seq<Line>, env: Env) {
    var i := Decisive(lines);
    i < |lines| && lines[i].ResultLine? && lines[i].taskId.Some? && !env.publishRaises && !env.waitRaises
  }

  ghost predicate ExactlyWhenItSucceeds(t: Table, id: JobId, steps: seq<Step>, lines: seq<Line>, env: Env) {
    && id in t
    && (t[id].status == Completed <==> Succeeds(lines, env))
    && (Succeeds(lines, env) ==>
          && t[id].taskId == lines[Decisive(lines)].taskId.value
          && Keys(t[id].steps) == Keys(steps)
          && ((forall i | 0 <= i < |steps| :: steps[i].status != StepFailed) ==>
                forall s | s in t[id].steps :: s.status == StepCompleted))
  }

  /** The output ends, or its next line decides. */
  lemma DecidedAtOnce(rows: Table, id: JobId, steps: seq<Step>, last: Option<string>, text: string, lines: seq<Line>, env: Env)
    requires id in rows && (lines == [] || (!lines[0].ProgressLine? && !lines[0].Noise?))
    ensures ExactlyWhenItSucceeds(Generated(rows, id, steps, last, text, lines, env), id, steps, lines, env)
  {
    assert Decisive(lines) == 0;
  }

  /** A generation job ends completed exactly when its output succeeds, with the announced task and all
      its steps: the keys stay, and without an earlier failure every step is completed. */
  lemma {:induction false} GeneratedCompletedIff(
      rows: Table, id: JobId, steps: seq<Step>, last: Option<string>, text: string, lines: seq<Line>, env: Env)
    requires id in rows
    ensures ExactlyWhenItSucceeds(Generated(rows, id, steps, last, text, lines, env), id, steps, lines, env)
    decreases |lines|
  {
    if lines == [] || (!lines[0].ProgressLine? && !lines[0].Noise?) {
      DecidedAtOnce(rows, id, steps, last, text, lines, env);
    } else {
      assert Decisive(lines) == 1 + Decisive(lines[1..]);
      assert Succeeds(lines, env) == Succeeds(lines[1..], env);
      match lines[0]
      case ProgressLine(step, words) =>
        var said := if words != "" then words else text;
        var key := if step == Some("") then None else step;
        var next := Applied(steps, key, said);
        AppliedKeepsShape(steps, key, said);
        GeneratedCompletedIff(ProgressUpdate(rows, id, Some(next)), id, next, key, said, lines[1..], env);
      case Noise => GeneratedCompletedIff(rows, id, steps, last, text, lines[1..], env);
    }
  }

  lemma AppliedKeepsShape(steps: seq<Step>, key: Option<string>, text: string)
    ensures Keys(Applied(steps, key, text)) == Keys(steps)
    ensures (forall i | 0 <= i < |steps| :: steps[i].status != StepFailed) ==>
              forall i | 0 <= i < |Applied(steps, key, text)| :: Applied(steps, key, text)[i].status != StepFailed
  {
  }

  /** A reanalysis ends completed under the same condition, and keeps the row's steps. */
  lemma {:induction false} ReanalyzedCompletedIff(rows: Table, id: JobId, lines: seq<Line>, env: Env)
    requires id in rows
    ensures var t := Reanalyzed(rows, id, lines, env);
            && id in t && t[id].steps == rows[id].steps
            && (t[id].status == Completed <==> Succeeds(lines, env))
            && (Succeeds(lines, env) ==> t[id].taskId == lines[Decisive(lines)].taskId.value)
    decreases |lines|
  {
    if lines != [] && (lines[0].ProgressLine? || lines[0].Noise?) {
      ReanalyzedCompletedIff(rows, id, lines[1..], env);
      assert Decisive(lines) == 1 + Decisive(lines[1..]);
    }
  }

  predicate NoChild(s: World, task: TaskId) {
    forall p | p in s.live :: s.live[p] != task
  }

  predicate FlagDown(s: World, task: TaskId) {
    task in s.tasks ==> !s.tasks[task].isRunning
  }

  /** What a start or stop job is for: exactly one live child with the flag raised, or none with the flag
      lowered. */
  ghost predicate Obeyed(t: World, kind: JobKind, task: TaskId) {
    if kind == StopTask then NoChild(t, task) && FlagDown(t, task)
    else
      && AliveEntry(t, task) && task in t.tasks && t.tasks[task].isRunning
      && forall p | p in t.live && t.live[p] == task :: p == t.running[task]
  }

  /** A completed start or stop has done its work, and a completed start names the child on its row. A
      failed one has changed nothing but its row, or it has done its work and only its publication raised:
      then its row says failed all the same. */
  lemma StartStopEndTellsTruth(s: World, id: JobId, env: Env)
    requires Mirror(s) && id in s.rows && (s.rows[id].kind == StartTask || s.rows[id].kind == StopTask)
    ensures var t, kind, task := HandledJob(s, id, env), s.rows[id].kind, s.rows[id].taskId;
            && id in t.rows
            && (t.rows[id].status == Completed || t.rows[id].status == Failed)
            && (t.rows[id].status == Completed ==>
                  && Obeyed(t, kind, task)
                  && (kind == StartTask ==> t.rows[id].process == Some(t.running[task])))
            && (t.rows[id].status == Failed ==>
                  t == s.(rows := t.rows) || (env.publishRaises && Obeyed(t, kind, task)))
  {
    var t, task := HandledJob(s, id, env), s.rows[id].taskId;
    HandlerKeepsMirror(s, id, env);
    forall p | p in t.live && t.live[p] == task ensures task in t.running && t.running[task] == p {
      assert Mirrored(t, p);
    }
    if AliveEntry(t, task) {
      assert Mirrored(t, t.running[task]);
    }
    if s.rows[id].kind == StopTask {
      StoppedHasNoChild(s, id, env);
    }
  }

  lemma StoppedHasNoChild(s: World, id: JobId, env: Env)
    requires Mirror(s) && id in s.rows
    ensures var t := StopHandled(s, id, env);
            t == s.(rows := t.rows) || NoChild(t, s.rows[id].taskId)
    ensures var t := StopHandled(s, id, env);
            t.rows[id].status == Completed ==> NoChild(t, s.rows[id].taskId)
  {
    var t, task := StopHandled(s, id, env), s.rows[id].taskId;
    if !AliveEntry(s, task) || env.stop == ChildExits {
      forall p | p in t.live ensures t.live[p] != task {
        assert Mirrored(s, p);
      }
    }
  }
}
