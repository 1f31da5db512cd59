/** What the job handlers leave behind, stated from the job and from what happened, not from how the handlers
    go about it. */
module HandlerResults {
  import opened Basics
  import opened GenerationSteps
  import opened JobTable
  import opened WorkerLoop

  // ----- the row a generation leaves -----------------------------------------------------------

  /** The step a progress line names; -1 when it names none of the job's steps. */
  function Named(steps: seq<Step>, line: Line): int
    requires line.ProgressLine?
  {
    IndexOf(steps, if line.step == Some("") then None else line.step)
  }

  /** The last progress line among the first `n` that names step `i`, an earlier one or none; -1 if there is
      none. For `i == |steps|` it is the last progress line. */
  function LastUpTo(steps: seq<Step>, lines: seq<Line>, n: nat, i: int): (j: int)
    requires n <= |lines|
    ensures -1 <= j < n
    ensures j >= 0 ==> lines[j].ProgressLine? && Named(steps, lines[j]) <= i
    ensures forall k | j < k < n && lines[k].ProgressLine? :: Named(steps, lines[k]) > i
  {
    if n == 0 then -1
    else if lines[n - 1].ProgressLine? && Named(steps, lines[n - 1]) <= i then n - 1
    else LastUpTo(steps, lines, n - 1, i)
  }

  /** The step named by the last progress line. */
  function Current(steps: seq<Step>, lines: seq<Line>, n: nat): (t: int)
    requires n <= |lines|
    ensures -1 <= t < |steps|
  {
    var j := LastUpTo(steps, lines, n, |steps|);
    if j < 0 then -1 else Named(steps, lines[j])
  }

  /** The text in force: that of the last progress line that has one. */
  function Words(lines: seq<Line>, n: nat): (text: string)
    requires n <= |lines|
    ensures forall j | 0 <= j < n && lines[j].ProgressLine? && lines[j].text != "" ::
              (forall k | j < k < n && lines[k].ProgressLine? :: lines[k].text == "") ==> text == lines[j].text
    ensures (forall k | 0 <= k < n && lines[k].ProgressLine? :: lines[k].text == "") ==> text == QUEUED_TEXT
  {
    if n == 0 then QUEUED_TEXT
    else if lines[n - 1].ProgressLine? && lines[n - 1].text != "" then lines[n - 1].text
    else Words(lines, n - 1)
  }

  function StatusBy(i: int, current: int): StepStatus {
    if i < current then StepCompleted else if i == current then StepRunning else StepPending
  }

  /** What the first `n` lines have told about step `i` of a fresh list: completed before the step named last,
      running there, pending after it; its text is the one in force when it was named, unless an earlier step
      has been named since. */
  function ToldStep(steps: seq<Step>, lines: seq<Line>, n: nat, i: nat): Step
    requires n <= |lines| && i < |steps|
  {
    var j := LastUpTo(steps, lines, n, i);
    Step(steps[i].key, StatusBy(i, Current(steps, lines, n)),
         if j >= 0 && Named(steps, lines[j]) == i then Words(lines, j + 1) else "")
  }

  function ToldSteps(steps: seq<Step>, lines: seq<Line>, n: nat): (told: seq<Step>)
    requires n <= |lines|
    ensures |told| == |steps| && forall i | 0 <= i < |steps| :: told[i] == ToldStep(steps, lines, n, i)
  {
    seq(|steps|, i requires 0 <= i < |steps| => ToldStep(steps, lines, n, i))
  }

  lemma {:induction false} ToldNext(steps: seq<Step>, lines: seq<Line>, n: nat)
    requires n < |lines| && lines[n].ProgressLine?
    ensures ToldSteps(steps, lines, n + 1)
         == Applied(ToldSteps(steps, lines, n), if lines[n].step == Some("") then None else lines[n].step, Words(lines, n + 1))
  {
    var told, key := ToldSteps(steps, lines, n), if lines[n].step == Some("") then None else lines[n].step;
    SameKeysIndexOf(told, steps, key);
    var next := Applied(told, key, Words(lines, n + 1));
    forall i | 0 <= i < |steps| ensures next[i] == ToldStep(steps, lines, n + 1, i) {
      assert told[i] == ToldStep(steps, lines, n, i);
    }
  }

  lemma SameKeysIndexOf(a: seq<Step>, b: seq<Step>, key: Option<string>)
    requires |a| == |b| && forall i | 0 <= i < |a| :: a[i].key == b[i].key
    ensures IndexOf(a, key) == IndexOf(b, key)
  {
    if key.Some? {
      assert Keys(a) == Keys(b);
      SameKeysSameIndex(a, b, key.value, 0);
    }
  }

  lemma {:induction false} ToldSame(steps: seq<Step>, lines: seq<Line>, n: nat)
    requires n < |lines| && !lines[n].ProgressLine?
    ensures ToldSteps(steps, lines, n + 1) == ToldSteps(steps, lines, n) && Words(lines, n + 1) == Words(lines, n)
    ensures Current(steps, lines, n + 1) == Current(steps, lines, n)
  {
    forall i | 0 <= i < |steps| ensures ToldStep(steps, lines, n + 1, i) == ToldStep(steps, lines, n, i) {
      assert LastUpTo(steps, lines, n + 1, i) == LastUpTo(steps, lines, n, i);
    }
  }

  lemma ToldNothing(steps: seq<Step>, lines: seq<Line>)
    requires AllPending(steps)
    ensures ToldSteps(steps, lines, 0) == steps
  {
  }

  /** The text that a failure puts on the current step: that of an error line; or, when the output ends and the
      process fails, the text in force, or its own when nothing has been told. */
  function BlameText(env: Env): Option<string> {
    var n := Decisive(env.lines);
    if n < |env.lines| then
      if env.lines[n].ErrorLine? then Some(env.lines[n].error) else None
    else if env.exitOk then None
    else if Words(env.lines, n) != "" && Words(env.lines, n) != QUEUED_TEXT then Some(Words(env.lines, n))
    else Some(env.exitText)
  }

  predicate HasResult(lines: seq<Line>) {
    var n := Decisive(lines);
    n < |lines| && lines[n].ResultLine? && lines[n].taskId.Some?
  }

  /** The step list that a job with the fresh list `steps` ends with, step by step. */
  predicate EndsWith(steps: seq<Step>, env: Env, after: seq<Step>) {
    var n := Decisive(env.lines);
    var t := Current(steps, env.lines, n);
    && |after| == |steps|
    && forall i | 0 <= i < |steps| ::
         var told := ToldStep(steps, env.lines, n, i);
         after[i] == if HasResult(env.lines) then told.(status := StepCompleted)
                     else if i == t && BlameText(env).Some? then Step(steps[i].key, StepFailed, BlameText(env).value)
                     else told
  }

  /** What `Generated` has at the position `n` of the output. */
  predicate ToldSoFar(rows: Table, id: JobId, all: seq<Step>, steps: seq<Step>, last: Option<string>, text: string,
                      lines: seq<Line>, n: nat) {
    && n <= |lines| && id in rows && rows[id].steps == steps == ToldSteps(all, lines, n)
    && text == Words(lines, n) && IndexOf(all, last) == Current(all, lines, n)
  }

  /** One line of output: what has been told follows the loop. */
  lemma {:induction false} TellOne(rows: Table, id: JobId, all: seq<Step>, steps: seq<Step>, last: Option<string>,
                                   text: string, lines: seq<Line>, n: nat)
    requires ToldSoFar(rows, id, all, steps, last, text, lines, n) && n < |lines| && lines[n].ProgressLine?
    ensures var said := if lines[n].text != "" then lines[n].text else text;
            var key := if lines[n].step == Some("") then None else lines[n].step;
            var next := Applied(steps, key, said);
            ToldSoFar(ProgressUpdate(rows, id, Some(next)), id, all, next, key, said, lines, n + 1)
  {
    ToldNext(all, lines, n);
    assert LastUpTo(all, lines, n + 1, |all|) == n;
  }

  lemma {:induction false} BlamedEnd(all: seq<Step>, steps: seq<Step>, last: Option<string>, env: Env)
    requires steps == ToldSteps(all, env.lines, Decisive(env.lines)) && !HasResult(env.lines) && BlameText(env).Some?
    requires IndexOf(all, last) == Current(all, env.lines, Decisive(env.lines))
    ensures EndsWith(all, env, FailedAt(steps, last, BlameText(env).value))
  {
    SameKeysIndexOf(steps, all, last);
  }

  /** The steps on the row once the output is decided. */
  lemma {:induction false} DecidedSteps(rows: Table, id: JobId, steps: seq<Step>, last: Option<string>, text: string,
                                        env: Env, lines: seq<Line>)
    requires id in rows && rows[id].steps == steps && text == Words(env.lines, Decisive(env.lines))
    requires lines == env.lines[Decisive(env.lines)..]
    ensures var t := Generated(rows, id, steps, last, text, lines, env);
            id in t && t[id].steps == if HasResult(env.lines) then AllDone(steps)
                                      else if BlameText(env).Some? then FailedAt(steps, last, BlameText(env).value)
                                      else steps
  {
    assert lines != [] ==> lines[0] == env.lines[Decisive(env.lines)];
  }

  lemma {:induction false} DoneEnd(all: seq<Step>, steps: seq<Step>, env: Env)
    requires steps == ToldSteps(all, env.lines, Decisive(env.lines)) && HasResult(env.lines)
    ensures EndsWith(all, env, AllDone(steps))
  {
  }

  lemma {:induction false} EndedSteps(rows: Table, id: JobId, all: seq<Step>, steps: seq<Step>, last: Option<string>,
                                      text: string, env: Env, lines: seq<Line>)
    requires ToldSoFar(rows, id, all, steps, last, text, env.lines, Decisive(env.lines))
    requires lines == env.lines[Decisive(env.lines)..]
    ensures var t := Generated(rows, id, steps, last, text, lines, env);
            id in t && EndsWith(all, env, t[id].steps)
  {
    DecidedSteps(rows, id, steps, last, text, env, lines);
    if HasResult(env.lines) {
      DoneEnd(all, steps, env);
    } else if BlameText(env).Some? {
      BlamedEnd(all, steps, last, env);
    }
  }

  /** The loop of `Generated` is that of its first line. */
  lemma {:induction false} ReadOne(rows: Table, id: JobId, steps: seq<Step>, last: Option<string>, text: string,
                                   lines: seq<Line>, env: Env)
    requires lines != [] && (lines[0].ProgressLine? || lines[0].Noise?)
    ensures lines[0].Noise? ==>
              Generated(rows, id, steps, last, text, lines, env) == Generated(rows, id, steps, last, text, lines[1..], env)
    ensures lines[0].ProgressLine? ==>
              var said := if lines[0].text != "" then lines[0].text else text;
              var key := if lines[0].step == Some("") then None else lines[0].step;
              var next := Applied(steps, key, said);
              Generated(rows, id, steps, last, text, lines, env)
              == Generated(ProgressUpdate(rows, id, Some(next)), id, next, key, said, lines[1..], env)
  {
  }

  /** What `Generated` carries along. */
  datatype Reading = Reading(rows: Table, steps: seq<Step>, last: Option<string>, text: string)

  function Rest(r: Reading, id: JobId, lines: seq<Line>, env: Env): Table {
    Generated(r.rows, id, r.steps, r.last, r.text, lines, env)
  }

  predicate InStep(r: Reading, id: JobId, all: seq<Step>, lines: seq<Line>, n: nat) {
    ToldSoFar(r.rows, id, all, r.steps, r.last, r.text, lines, n)
  }

  lemma {:induction false} ReadLine(r: Reading, id: JobId, all: seq<Step>, env: Env, n: nat, lines: seq<Line>)
    returns (next: Reading)
    requires n < Decisive(env.lines) && InStep(r, id, all, env.lines, n) && lines == env.lines[n..]
    ensures InStep(next, id, all, env.lines, n + 1) && lines[1..] == env.lines[n + 1..]
    ensures Rest(r, id, lines, env) == Rest(next, id, lines[1..], env)
  {
    assert lines[0] == env.lines[n] && lines[1..] == env.lines[n + 1..];
    ReadOne(r.rows, id, r.steps, r.last, r.text, lines, env);
    if lines[0].Noise? {
      ToldSame(all, env.lines, n);
      next := r;
    } else {
      TellOne(r.rows, id, all, r.steps, r.last, r.text, env.lines, n);
      var said := if lines[0].text != "" then lines[0].text else r.text;
      var key := if lines[0].step == Some("") then None else lines[0].step;
      var steps := Applied(r.steps, key, said);
      next := Reading(ProgressUpdate(r.rows, id, Some(steps)), steps, key, said);
    }
  }

  /** The reading where the output is decided. */
  lemma {:induction false} ReadAll(r: Reading, id: JobId, all: seq<Step>, env: Env, n: nat, lines: seq<Line>)
    returns (end: Reading)
    requires n <= Decisive(env.lines) && InStep(r, id, all, env.lines, n) && lines == env.lines[n..]
    ensures InStep(end, id, all, env.lines, Decisive(env.lines))
    ensures Rest(r, id, lines, env) == Rest(end, id, env.lines[Decisive(env.lines)..], env)
    decreases |lines|
  {
    if n == Decisive(env.lines) {
      end := r;
    } else {
      var next := ReadLine(r, id, all, env, n, lines);
      end := ReadAll(next, id, all, env, n + 1, lines[1..]);
    }
  }

  /** The whole row that a generation job with a fresh step list leaves, from the output of its child process:
      status, task and steps; nothing else of it changes but the process id. */
  lemma {:induction false} GenerationEnds(s: World, id: JobId, env: Env)
    requires id in s.rows && s.rows[id].kind == GenerateTask && AllPending(s.rows[id].steps)
    ensures var before, t := s.rows[id], HandledJob(s, id, env);
            && id in t.rows
            && var row := t.rows[id];
            && row == before.(status := row.status, taskId := row.taskId, process := row.process, steps := row.steps)
            && (row.status == Completed || row.status == Failed)
            && (row.status == Completed <==> env.payloadOk && !env.launchRaises && Succeeds(env.lines, env))
            && row.taskId == (if env.payloadOk && !env.launchRaises && HasResult(env.lines)
                              then env.lines[Decisive(env.lines)].taskId.value else before.taskId)
            && (if env.payloadOk && !env.launchRaises then EndsWith(before.steps, env, row.steps)
                else row.steps == before.steps)
  {
    var steps := s.rows[id].steps;
    if env.payloadOk && !env.launchRaises {
      ToldNothing(steps, env.lines);
      assert env.lines[0..] == env.lines;
      var end := ReadAll(Reading(s.rows, steps, None, QUEUED_TEXT), id, steps, env, 0, env.lines);
      EndedSteps(end.rows, id, steps, end.steps, end.last, end.text, env, env.lines[Decisive(env.lines)..]);
      GeneratedColumns(s.rows, id, steps, None, QUEUED_TEXT, env.lines, env);
    }
  }

  lemma {:induction false} GeneratedColumns(rows: Table, id: JobId, steps: seq<Step>, last: Option<string>, text: string,
                                            lines: seq<Line>, env: Env)
    requires id in rows
    ensures var t := Generated(rows, id, steps, last, text, lines, env);
            && id in t
            && t[id] == rows[id].(status := t[id].status, taskId := t[id].taskId, process := t[id].process, steps := t[id].steps)
            && (t[id].status == Completed || t[id].status == Failed)
            && (t[id].status == Completed <==> Succeeds(lines, env))
            && t[id].taskId == (if HasResult(lines) then lines[Decisive(lines)].taskId.value else rows[id].taskId)
    decreases |lines|
  {
    if lines != [] && (lines[0].ProgressLine? || lines[0].Noise?) {
      assert Decisive(lines) == 1 + Decisive(lines[1..]);
      match lines[0]
      case ProgressLine(step, words) =>
        var said := if words != "" then words else text;
        var key := if step == Some("") then None else step;
        var next := Applied(steps, key, said);
        GeneratedColumns(ProgressUpdate(rows, id, Some(next)), id, next, key, said, lines[1..], env);
      case Noise => GeneratedColumns(rows, id, steps, last, text, lines[1..], env);
    } else {
      assert Decisive(lines) == 0;
    }
  }

  /** A generation that fails after a known step was told shows completed* failed pending*: the step named last
      is the failed one and carries the blame, and the later ones carry nothing. */
  lemma {:induction false} BlamedShape(steps: seq<Step>, env: Env, after: seq<Step>)
    requires EndsWith(steps, env, after) && !HasResult(env.lines) && BlameText(env).Some?
    requires Current(steps, env.lines, Decisive(env.lines)) != -1
    ensures var t := Current(steps, env.lines, Decisive(env.lines));
            && Keys(after) == Keys(steps)
            && (forall i | 0 <= i < t :: after[i].status == StepCompleted)
            && after[t].status == StepFailed && after[t].message == BlameText(env).value
            && (forall i | t < i < |after| :: after[i].status == StepPending && after[i].message == "")
  {
    var n := Decisive(env.lines);
    var t := Current(steps, env.lines, n);
    var j := LastUpTo(steps, env.lines, n, |steps|);
    forall i | t < i < |after| ensures after[i].status == StepPending && after[i].message == "" {
      assert after[i] == ToldStep(steps, env.lines, n, i);
      assert LastUpTo(steps, env.lines, n, i) == j;
    }
  }

  // ----- the other handlers --------------------------------------------------------------------

  /** The whole row that a reanalysis leaves. */
  lemma ReanalysisEnds(s: World, id: JobId, env: Env)
    requires id in s.rows && s.rows[id].kind == ReanalyzeResult
    ensures var before, t := s.rows[id], HandledJob(s, id, env);
            && id in t.rows
            && var row := t.rows[id];
            && row == before.(status := row.status, taskId := row.taskId, process := row.process)
            && (row.status == Completed || row.status == Failed)
            && (row.status == Completed <==> env.payloadOk && !env.launchRaises && Succeeds(env.lines, env))
            && row.taskId == (if env.payloadOk && !env.launchRaises && HasResult(env.lines)
                              then env.lines[Decisive(env.lines)].taskId.value else before.taskId)
  {
    if env.payloadOk && !env.launchRaises {
      ReanalyzedColumns(ProgressUpdate(s.rows, id, None), id, env.lines, env);
    }
  }

  lemma {:induction false} ReanalyzedColumns(rows: Table, id: JobId, lines: seq<Line>, env: Env)
    requires id in rows
    ensures var t := Reanalyzed(rows, id, lines, env);
            && id in t
            && t[id] == rows[id].(status := t[id].status, taskId := t[id].taskId, process := t[id].process)
            && (t[id].status == Completed || t[id].status == Failed)
            && (t[id].status == Completed <==> Succeeds(lines, env))
            && t[id].taskId == (if HasResult(lines) then lines[Decisive(lines)].taskId.value else rows[id].taskId)
    decreases |lines|
  {
    if lines != [] && (lines[0].ProgressLine? || lines[0].Noise?) {
      assert Decisive(lines) == 1 + Decisive(lines[1..]);
      ReanalyzedColumns(rows, id, lines[1..], env);
    } else {
      assert Decisive(lines) == 0;
    }
  }

  /** The task exists, is enabled and has no live child, and the launch goes through. */
  predicate Launches(s: World, task: TaskId, env: Env) {
    task in s.tasks && s.tasks[task].enabled && !AliveEntry(s, task) && !env.launchRaises
  }

  /** The tasks are as before, except the flag of one of them. */
  predicate FlagsBut(before: map<TaskId, TaskRow>, after: map<TaskId, TaskRow>, changed: Option<TaskId>, flag: bool) {
    && after.Keys == before.Keys
    && forall t | t in before ::
         && after[t].enabled == before[t].enabled
         && after[t].isRunning == if changed == Some(t) then flag else before[t].isRunning
  }

  /** A start launches one child exactly when the task is enabled and has none, and is completed exactly when
      it launched one and could say so, or found one. The row keeps everything but status and process id. */
  lemma StartEnds(s: World, id: JobId, env: Env)
    requires id in s.rows && s.rows[id].kind == StartTask
    ensures var before, t, task := s.rows[id], HandledJob(s, id, env), s.rows[id].taskId;
            && t.live == (if Launches(s, task, env) then s.live[s.nextPid := task] else s.live)
            && t.nextPid == s.nextPid + (if Launches(s, task, env) then 1 else 0)
            && t.running == (if Launches(s, task, env) then s.running[task := s.nextPid] else s.running)
            && FlagsBut(s.tasks, t.tasks, if Launches(s, task, env) then Some(task) else None, true)
            && id in t.rows
            && t.rows[id] == before.(status := t.rows[id].status, process := t.rows[id].process)
            && (t.rows[id].status == Completed || t.rows[id].status == Failed)
            && (t.rows[id].status == Completed <==>
                  task in s.tasks && s.tasks[task].enabled
                  && (AliveEntry(s, task) || (!env.launchRaises && !env.publishRaises)))
            && t.rows[id].process == (if t.rows[id].status == Failed then None
                                      else if AliveEntry(s, task) then Some(s.running[task]) else Some(s.nextPid))
  {
  }

  /** A stop ends the child of the task if it has one, and no other child; it is completed exactly when the
      child, if any, goes, and the worker could say so. */
  lemma StopEnds(s: World, id: JobId, env: Env)
    requires id in s.rows && s.rows[id].kind == StopTask
    ensures var before, t, task := s.rows[id], HandledJob(s, id, env), s.rows[id].taskId;
            var stuck := AliveEntry(s, task) && env.stop != ChildExits;
            && t.live == (if AliveEntry(s, task) && !stuck then s.live - {s.running[task]} else s.live)
            && t.running == (if AliveEntry(s, task) && !stuck then s.running - {task} else s.running)
            && FlagsBut(s.tasks, t.tasks, if stuck then None else Some(task), false)
            && id in t.rows
            && t.rows[id] == before.(status := t.rows[id].status, process := None)
            && (t.rows[id].status == Completed || t.rows[id].status == Failed)
            && (t.rows[id].status == Completed <==> !stuck && !env.publishRaises)
  {
  }

  /** A job of any other kind fails and keeps the rest of its row. */
  lemma OtherEnds(s: World, id: JobId, env: Env)
    requires id in s.rows && s.rows[id].kind == OtherKind
    ensures HandledJob(s, id, env) == s.(rows := s.rows[id := s.rows[id].(status := Failed, process := None)])
  {
  }

  // ----- which job is taken ----------------------------------------------------------------------

  /** The message asks for this pending row by its id. */
  predicate AskedById(rows: Table, redis: bool, d: Delivery, id: JobId) {
    redis && d.Message? && d.jobId == id && id > 0 && id in rows && rows[id].status == Pending
  }

  /** The message asks for this pending row by its key. */
  predicate AskedByKey(rows: Table, redis: bool, d: Delivery, id: JobId) {
    redis && d.Message? && d.key != "" && id in rows && rows[id].key == Some(d.key) && rows[id].status == Pending
  }

  /** A round takes the pending row whose id the message names, else the one whose key it names, else the lowest; it
      puts the worker's name on it. */
  lemma TakesTheAskedFor(redis: bool, name: WorkerName, s: World, input: Input)
    requires Round(redis, name, s, input).1.Handled? && KeysUnique(Arrived(s, input.news).rows)
    ensures var u, (t, o) := Arrived(s, input.news), Round(redis, name, s, input);
            && (forall id :: AskedById(u.rows, redis, input.delivery, id) ==> o.id == id)
            && (!(exists id :: AskedById(u.rows, redis, input.delivery, id)) ==>
                  forall id :: AskedByKey(u.rows, redis, input.delivery, id) ==> o.id == id)
            && (!(exists id :: AskedById(u.rows, redis, input.delivery, id))
                && !(exists id :: AskedByKey(u.rows, redis, input.delivery, id)) ==>
                  forall id | IsPending(u.rows, id) :: o.id <= id)
  {
    BeforeRows(s, input);
    var rows := Monitored(Before(s, input)).rows;
    var found := Chosen(rows, redis, input.delivery);
    var d := input.delivery;
    if redis && d.Message? && d.key != "" && ByKey(rows, d.key).Some? {
      var k := ByKey(rows, d.key).value;
      assert forall id | AskedByKey(rows, redis, d, id) :: id == k;
      if IsPending(rows, k) {
        assert AskedByKey(rows, redis, d, k);
      }
    }
    if redis && d.Message? && d.jobId > 0 && IsPending(rows, d.jobId) {
      assert AskedById(rows, redis, d, d.jobId);
    }
  }

  /** The row it takes gets the worker's name, and the handler finds it claimed. */
  lemma TakenIsClaimed(s: World, id: JobId, name: WorkerName, input: Input)
    requires IsPending(s.rows, id)
    ensures var t := Handed(s, input, id, name);
            && id in t.rows && t.rows[id] == s.rows[id].(status := Claimed, worker := Some(name))
            && (forall other | other in s.rows && other != id :: other in t.rows && t.rows[other] == s.rows[other])
            && t.rows.Keys == s.rows.Keys
            && t.live == s.live - input.exitsAfter && t.running == s.running
  {
  }

  /** The monitor takes out exactly the entries whose child is gone and lowers exactly their flags. */
  lemma MonitorIs(s: World, task: TaskId)
    ensures var t := Monitored(s);
            && (task in t.running <==> task in s.running && s.running[task] in s.live)
            && (task in t.running ==> t.running[task] == s.running[task])
            && (task in t.tasks <==> task in s.tasks)
            && (task in s.tasks ==>
                  && t.tasks[task].enabled == s.tasks[task].enabled
                  && t.tasks[task].isRunning == (s.tasks[task].isRunning && !(task in s.running && s.running[task] !in s.live)))
            && t == s.(running := t.running, tasks := t.tasks)
  {
  }

  /** Exactly when a round ends the worker: a Redis delivery is JSON but not an object, has an id that is no number, or
      cannot be had; or the monitor finds a child gone and cannot publish it. */
  lemma DiesExactly(redis: bool, name: WorkerName, s: World, input: Input)
    ensures Round(redis, name, s, input).1 == Died <==>
              || (redis && input.delivery in {NotAnObject, BadJobId, Unreachable})
              || (input.monitorRaises && exists t :: t in Before(s, input).running && Before(s, input).running[t] !in Before(s, input).live)
  {
    var before := Before(s, input);
    if t :| t in before.running && before.running[t] !in before.live {
      assert t in DeadEntries(before);
    }
    if DeadEntries(before) != {} {
      var t := FirstDead(before, 0);
    }
  }

  /** A monitor that cannot publish has lowered the flag of one dead child, that of the entry it looked at first if that
      one is dead, and taken no entry out. */
  lemma CutIs(s: World, polledFirst: TaskId)
    requires DeadEntries(s) != {}
    ensures var t := MonitorCut(s, polledFirst);
            exists dead | dead in s.running && s.running[dead] !in s.live ::
              && (polledFirst in s.running && s.running[polledFirst] !in s.live ==> dead == polledFirst)
              && t == s.(tasks := t.tasks) && t.tasks.Keys == s.tasks.Keys
              && forall k | k in s.tasks ::
                   t.tasks[k] == if k == dead then TaskRow(s.tasks[k].enabled, false) else s.tasks[k]
  {
    var dead := FirstDead(s, polledFirst);
    assert dead in DeadEntries(s);
  }

  /** An enqueued job becomes a pending row under the next id, unless its key is taken; then nothing happens. */
  lemma PostIs(s: World, job: NewJob)
    ensures var taken := job.key.Some? && exists id | id in s.rows :: s.rows[id].key == job.key;
            PostOne(s, job) ==
              if taken then s
              else s.(rows := s.rows[s.nextId := Row(job.kind, job.taskId, job.key, Pending, None, None, job.steps)],
                      nextId := s.nextId + 1)
  {
  }
}
