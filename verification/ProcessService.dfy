/** The in-process task runner: five maps keyed by task id, a watcher per child process, and ids that
    move down when a task is deleted.

    A step is the code between two await points, or an event of a child process. A step that cannot
    be taken leaves the state alone. */
module ProcessService {
  import opened Basics

  type TaskId = int
  type Proc = nat

  /** The five runtime maps. */
  datatype Tables = Tables(
    processes: map<TaskId, Proc>, logPaths: map<TaskId, string>, logHandles: map<TaskId, nat>,
    taskNames: map<TaskId, string>, watchers: map<TaskId, Proc>)

  /** History: the id a process goes by, the processes whose task was deleted under them, those whose id
      was registered again while they were listed, and the ids `on_stopped` was called with for a process.
      No step's effect on the tables reads it. */
  datatype History = History(current: map<Proc, TaskId>, dropped: set<Proc>, lost: set<Proc>, stops: map<Proc, seq<TaskId>>)

  /** `exited`: processes whose return code is set. `watching`: processes whose exit watcher has not
      finished. `starting`: calls of `start_task` between the check and the registration. `draining`:
      calls that wait for the watcher of a finished process before they check. */
  datatype State = State(
    tables: Tables, manual: set<TaskId>, nextProc: Proc, exited: set<Proc>, watching: set<Proc>,
    starting: multiset<TaskId>, draining: multiset<(TaskId, Proc)>, history: History)

  datatype Info = Info(name: string, path: string, handle: nat, manualStart: bool)

  datatype Step =
    | BeginStart(id: TaskId)
    | DrainEnds(id: TaskId, p: Proc)
    | AbortStart(id: TaskId)
    | Register(id: TaskId, info: Info)
    | ProcessExits(p: Proc)
    | WatcherWakes(p: Proc)
    | DrainDirectly(id: TaskId)
    | Reindex(deleted: TaskId)

  const NO_TABLES := Tables(map[], map[], map[], map[], map[])

  const EMPTY := State(NO_TABLES, {}, 0, {}, {}, multiset{}, multiset{}, History(map[], {}, {}, map[]))

  // ----- reindexing ------------------------------------------------------------------------

  function Shift(id: TaskId, deleted: TaskId): TaskId {
    if id > deleted then id - 1 else id
  }

  /** What `_reindex_mapping` builds: the deleted key goes, higher keys move down by one. */
  function Reindexed<V>(m: map<TaskId, V>, deleted: TaskId): map<TaskId, V> {
    map id | id in m && id != deleted :: Shift(id, deleted) := m[id]
  }

  lemma ReindexedKeys<V>(m: map<TaskId, V>, deleted: TaskId, k: TaskId)
    ensures k in Reindexed(m, deleted) <==> (if k < deleted then k in m else k + 1 in m)
    ensures k in Reindexed(m, deleted) ==> Reindexed(m, deleted)[k] == m[if k < deleted then k else k + 1]
  {
    if k < deleted {
      assert k in m ==> Shift(k, deleted) == k;
    } else {
      assert k + 1 in m ==> Shift(k + 1, deleted) == k;
    }
  }

  /** `_reindex_mapping`: the loop over the items, in any order. */
  method ReindexMapping<V>(mapping: map<TaskId, V>, deleted: TaskId) returns (reindexed: map<TaskId, V>)
    ensures reindexed == Reindexed(mapping, deleted)
  {
    reindexed := map[];
    var todo := mapping.Keys;
    assert mapping - todo == map[];
    while todo != {}
      invariant todo <= mapping.Keys
      invariant reindexed == Reindexed(mapping - todo, deleted)
      decreases todo
    {
      var id := Least(todo);
      OneMoreReindexed(mapping, todo, deleted, id);
      if id != deleted {
        var next := if id > deleted then id - 1 else id;
        reindexed := reindexed[next := mapping[id]];
      }
      todo := todo - {id};
    }
    assert mapping - todo == mapping;
  }

  lemma OneMoreReindexed<V>(mapping: map<TaskId, V>, todo: set<TaskId>, deleted: TaskId, id: TaskId)
    requires id in todo && todo <= mapping.Keys
    ensures var before := Reindexed(mapping - todo, deleted);
            Reindexed(mapping - (todo - {id}), deleted)
            == if id == deleted then before else before[Shift(id, deleted) := mapping[id]]
  {
    var before, after := Reindexed(mapping - todo, deleted), Reindexed(mapping - (todo - {id}), deleted);
    var want := if id == deleted then before else before[Shift(id, deleted) := mapping[id]];
    forall k ensures k in after <==> k in want
      ensures k in after ==> after[k] == want[k]
    {
      ReindexedKeys(mapping - todo, deleted, k);
      ReindexedKeys(mapping - (todo - {id}), deleted, k);
    }
  }

  // ----- the steps -------------------------------------------------------------------------

  predicate Runs(tables: Tables, h: History, p: Proc) {
    p in h.current && h.current[p] in tables.processes && tables.processes[h.current[p]] == p
  }

  function WithRuntime(tables: Tables, id: TaskId, p: Proc, info: Info): Tables {
    Tables(tables.processes[id := p], tables.logPaths[id := info.path], tables.logHandles[id := info.handle],
           tables.taskNames[id := info.name], tables.watchers[id := p])
  }

  function WithoutRuntime(tables: Tables, id: TaskId): Tables {
    Tables(Without(tables.processes, id), Without(tables.logPaths, id), Without(tables.logHandles, id),
           Without(tables.taskNames, id), Without(tables.watchers, id))
  }

  function ReindexedTables(tables: Tables, deleted: TaskId): Tables {
    Tables(Reindexed(tables.processes, deleted), Reindexed(tables.logPaths, deleted),
           Reindexed(tables.logHandles, deleted), Reindexed(tables.taskNames, deleted),
           Reindexed(tables.watchers, deleted))
  }

  /** The history of a registration: whoever is listed under the id goes lost. */
  function RegisteredHistory(tables: Tables, h: History, id: TaskId, p: Proc): History {
    History(h.current[p := id], h.dropped, if id in tables.processes then h.lost + {tables.processes[id]} else h.lost,
            h.stops[p := []])
  }

  function Registered(s: State, id: TaskId, info: Info): State {
    State(WithRuntime(s.tables, id, s.nextProc, info),
          if info.manualStart then s.manual + {id} else s.manual,
          s.nextProc + 1, s.exited, s.watching + {s.nextProc}, s.starting - multiset{id}, s.draining,
          RegisteredHistory(s.tables, s.history, id, s.nextProc))
  }

  function WithStop(h: History, p: Proc, id: TaskId): History {
    h.(stops := h.stops[p := (if p in h.stops then h.stops[p] else []) + [id]])
  }

  /** `_cleanup_runtime` for an id that maps to the process, followed by `on_stopped`. */
  function Cleaned(s: State, id: TaskId, p: Proc): State {
    s.(tables := WithoutRuntime(s.tables, id), manual := s.manual - {id}, history := WithStop(s.history, p, id))
  }

  /** `_find_task_id_by_process` */
  function IdOf(s: State, p: Proc): (id: Option<TaskId>)
    ensures id.None? <==> p !in s.tables.processes.Values
    ensures id.Some? ==> id.value in s.tables.processes && s.tables.processes[id.value] == p
  {
    var ids := set id | id in s.tables.processes && s.tables.processes[id] == p;
    if ids == {} then
      assert forall id | id in s.tables.processes && s.tables.processes[id] == p :: id in ids;
      None
    else Some(Least(ids))
  }

  function Woken(s: State, p: Proc): State {
    if p !in s.watching || p !in s.exited then s
    else
      var t := s.(watching := s.watching - {p});
      var id := IdOf(t, p);
      if id.None? then t else Cleaned(t, id.value, p)
  }

  /** The branch of `_drain_finished_process` for a finished process without a watcher. */
  predicate NeedsDirectDrain(s: State, id: TaskId) {
    id in s.tables.processes && s.tables.processes[id] in s.exited && id !in s.tables.watchers
  }

  function AfterDeleteHistory(tables: Tables, h: History, deleted: TaskId): History {
    History(
      map p | p in h.current :: if Runs(tables, h, p) then Shift(h.current[p], deleted) else h.current[p],
      if deleted in tables.processes then h.dropped + {tables.processes[deleted]} else h.dropped,
      h.lost, h.stops)
  }

  /** `reindex_after_delete`: the five maps, but not the set of manual ids. */
  function AfterDelete(s: State, deleted: TaskId): State {
    s.(tables := ReindexedTables(s.tables, deleted),
       history := AfterDeleteHistory(s.tables, s.history, deleted))
  }

  predicate IsLive(s: State, id: TaskId) {
    id in s.tables.processes && s.tables.processes[id] !in s.exited
  }

  /** The check of `start_task`: a live process refuses the start. */
  function Checked(s: State, id: TaskId): State {
    if IsLive(s, id) then s else s.(starting := s.starting + multiset{id})
  }

  function Apply(s: State, step: Step): State {
    match step
    case BeginStart(id) =>
      if id in s.tables.processes && s.tables.processes[id] in s.exited
      then s.(draining := s.draining + multiset{(id, s.tables.processes[id])})
      else Checked(s, id)
    case DrainEnds(id, p) =>
      if (id, p) in s.draining && p !in s.watching then Checked(s.(draining := s.draining - multiset{(id, p)}), id) else s
    case AbortStart(id) => s.(starting := s.starting - multiset{id})
    case Register(id, info) => if id in s.starting then Registered(s, id, info) else s
    case ProcessExits(p) => if p < s.nextProc then s.(exited := s.exited + {p}) else s
    case WatcherWakes(p) => Woken(s, p)
    case DrainDirectly(id) => if NeedsDirectDrain(s, id) then Cleaned(s, id, s.tables.processes[id]) else s
    case Reindex(deleted) => AfterDelete(s, deleted)
  }

  function Exec(steps: seq<Step>): State
    decreases |steps|
  {
    if steps == [] then EMPTY else Apply(Exec(steps[..|steps| - 1]), steps[|steps| - 1])
  }

  // ----- the class -------------------------------------------------------------------------

  class Service {
    var processes: map<TaskId, Proc>
    var logPaths: map<TaskId, string>
    var logHandles: map<TaskId, nat>
    var taskNames: map<TaskId, string>
    var watchers: map<TaskId, Proc>
    var manual: set<TaskId>
    var nextProc: Proc
    var exited: set<Proc>
    var watching: set<Proc>
    var starting: multiset<TaskId>
    var draining: multiset<(TaskId, Proc)>
    ghost var history: History

    function Maps(): Tables
      reads this
    {
      Tables(processes, logPaths, logHandles, taskNames, watchers)
    }

    ghost function View(): State
      reads this
    {
      State(Maps(), manual, nextProc, exited, watching, starting, draining, history)
    }

    constructor ()
      ensures View() == EMPTY
    {
      processes, logPaths, logHandles, taskNames, watchers := map[], map[], map[], map[], map[];
      manual, nextProc, exited, watching, starting, draining := {}, 0, {}, {}, multiset{}, multiset{};
      history := History(map[], {}, {}, map[]);
    }

    method IsRunning(id: TaskId) returns (running: bool)
      ensures running <==> id in processes && processes[id] !in exited
    {
      running := id in processes && processes[id] !in exited;
    }

    method EnterTables(id: TaskId, p: Proc, info: Info)
      modifies this`processes, this`logPaths, this`logHandles, this`taskNames, this`watchers
      ensures Maps() == WithRuntime(old(Maps()), id, p, info)
    {
      processes := processes[id := p];
      logPaths := logPaths[id := info.path];
      logHandles := logHandles[id := info.handle];
      taskNames := taskNames[id := info.name];
      watchers := watchers[id := p];
    }

    method EnterWatch(id: TaskId, manualStart: bool) returns (p: Proc)
      modifies this`nextProc, this`watching, this`manual, this`starting
      ensures p == old(nextProc) && nextProc == p + 1 && watching == old(watching) + {p}
      ensures manual == (if manualStart then old(manual) + {id} else old(manual)) && starting == old(starting) - multiset{id}
    {
      p := nextProc;
      nextProc := nextProc + 1;
      watching := watching + {p};
      if manualStart {
        manual := manual + {id};
      }
      starting := starting - multiset{id};
    }

    method RegisterRuntime(id: TaskId, info: Info) returns (p: Proc)
      modifies this
      ensures p == old(nextProc) && View() == Registered(old(View()), id, info)
    {
      p := EnterWatch(id, info.manualStart);
      history := RegisteredHistory(Maps(), history, id, p);
      EnterTables(id, p, info);
    }

    method LeaveTables(id: TaskId)
      modifies this`processes, this`logPaths, this`logHandles, this`taskNames, this`watchers
      ensures Maps() == WithoutRuntime(old(Maps()), id)
    {
      processes := Without(processes, id);
      logPaths := Without(logPaths, id);
      taskNames := Without(taskNames, id);
      logHandles := Without(logHandles, id);
      watchers := Without(watchers, id);
    }

    /** Nothing happens unless the id still maps to this very process. */
    method CleanupRuntime(id: TaskId, p: Proc) returns (cleaned: bool)
      modifies this
      ensures cleaned <==> id in old(processes) && old(processes)[id] == p
      ensures View() == if cleaned then Cleaned(old(View()), id, p) else old(View())
    {
      cleaned := id in processes && processes[id] == p;
      if cleaned {
        LeaveTables(id);
        manual := manual - {id};
        history := WithStop(history, p, id);
      }
    }

    /** `_watch_process_exit` after its wait: the id is looked up by process identity. */
    method WatchProcessExit(p: Proc) returns (stopped: Option<TaskId>)
      requires p in watching && p in exited
      modifies this
      ensures View() == Woken(old(View()), p)
      ensures stopped == IdOf(old(View()), p)
    {
      watching := watching - {p};
      stopped := None;
      var ids := set id | id in processes && processes[id] == p;
      if ids != {} {
        var id := Least(ids);
        var cleaned := CleanupRuntime(id, p);
        stopped := Some(id);
      } else {
        assert forall id | id in processes && processes[id] == p :: id in ids;
      }
    }

    method ReindexTables(deleted: TaskId)
      modifies this`processes, this`logPaths, this`logHandles, this`taskNames, this`watchers
      ensures Maps() == ReindexedTables(old(Maps()), deleted)
    {
      var newProcesses := ReindexMapping(processes, deleted);
      var newPaths := ReindexMapping(logPaths, deleted);
      var newHandles := ReindexMapping(logHandles, deleted);
      var newNames := ReindexMapping(taskNames, deleted);
      var newWatchers := ReindexMapping(watchers, deleted);
      processes, logPaths, logHandles := newProcesses, newPaths, newHandles;
      taskNames, watchers := newNames, newWatchers;
    }

    method ReindexAfterDelete(deleted: TaskId)
      modifies this
      ensures View() == AfterDelete(old(View()), deleted)
    {
      history := AfterDeleteHistory(Maps(), history, deleted);
      ReindexTables(deleted);
    }
  }

  // ----- the invariant ---------------------------------------------------------------------

  predicate Aligned(s: State) {
    && s.tables.logPaths.Keys == s.tables.processes.Keys && s.tables.logHandles.Keys == s.tables.processes.Keys
    && s.tables.taskNames.Keys == s.tables.processes.Keys && s.tables.watchers == s.tables.processes
  }

  /** A listed process goes by the id it is listed under, and its watcher is still waiting. */
  predicate Listed(s: State, id: TaskId)
    requires id in s.tables.processes
  {
    var p := s.tables.processes[id];
    && p < s.nextProc && p in s.history.current && s.history.current[p] == id && p in s.watching
    && p !in s.history.dropped && p !in s.history.lost
  }

  /** A process is listed, or its task was deleted under it, or its id was registered again, or it was
      stopped once by its last id. */
  predicate Accounted(s: State, p: Proc) {
    && p in s.history.current && p in s.history.stops
    && s.history.stops[p] ==
         if Runs(s.tables, s.history, p) || p in s.history.dropped || p in s.history.lost then []
         else [s.history.current[p]]
  }

  ghost predicate Inv(s: State) {
    && Aligned(s)
    && (forall id | id in s.tables.processes :: Listed(s, id))
    && (forall p: Proc | p < s.nextProc :: Accounted(s, p))
    && s.history.dropped !! s.history.lost
    && (forall p | p in s.history.dropped || p in s.history.lost || p in s.watching || p in s.history.current :: p < s.nextProc)
  }

  lemma RegisterKeepsInv(s: State, id: TaskId, info: Info)
    requires Inv(s)
    ensures Inv(Registered(s, id, info))
  {
    var t := Registered(s, id, info);
    if id in s.tables.processes {
      assert Listed(s, id);
    }
    forall p: Proc | p < t.nextProc ensures Accounted(t, p) {
      if p < s.nextProc {
        assert Accounted(s, p);
      }
    }
    forall k | k in t.tables.processes ensures Listed(t, k) {
      assert k in s.tables.processes ==> Listed(s, k);
    }
  }

  lemma WakeKeepsInv(s: State, p: Proc)
    requires Inv(s)
    ensures Inv(Woken(s, p))
  {
    if p in s.watching && p in s.exited {
      var t := Woken(s, p);
      var id := IdOf(s.(watching := s.watching - {p}), p);
      forall q: Proc | q < t.nextProc ensures Accounted(t, q) {
        assert Accounted(s, q);
        assert id.Some? ==> Listed(s, id.value);
      }
      forall k | k in t.tables.processes ensures Listed(t, k) {
        assert Listed(s, k);
      }
    }
  }

  lemma DeleteKeepsInv(s: State, deleted: TaskId)
    requires Inv(s)
    ensures Inv(AfterDelete(s, deleted))
  {
    var t := AfterDelete(s, deleted);
    assert Aligned(t) by {
      forall k
        ensures k in t.tables.logPaths <==> k in t.tables.processes
        ensures k in t.tables.logHandles <==> k in t.tables.processes
        ensures k in t.tables.taskNames <==> k in t.tables.processes
      {
        ReindexedKeys(s.tables.processes, deleted, k);
        ReindexedKeys(s.tables.logPaths, deleted, k);
        ReindexedKeys(s.tables.logHandles, deleted, k);
        ReindexedKeys(s.tables.taskNames, deleted, k);
      }
    }
    forall k | k in t.tables.processes ensures Listed(t, k) {
      ReindexedKeys(s.tables.processes, deleted, k);
      assert Listed(s, if k < deleted then k else k + 1);
      if deleted in s.tables.processes {
        assert Listed(s, deleted);
      }
    }
    forall p: Proc | p < t.nextProc ensures Accounted(t, p) {
      DeleteAccounts(s, deleted, p);
    }
    if deleted in s.tables.processes {
      assert Listed(s, deleted);
    }
  }

  lemma DeleteAccounts(s: State, deleted: TaskId, p: Proc)
    requires Inv(s) && p < s.nextProc
    ensures Accounted(AfterDelete(s, deleted), p)
  {
    var t := AfterDelete(s, deleted);
    assert Accounted(s, p);
    if Runs(s.tables, s.history, p) {
      var id := s.history.current[p];
      if id == deleted {
        assert p in t.history.dropped;
        if t.history.current[p] in t.tables.processes && t.tables.processes[t.history.current[p]] == p {
          ReindexedKeys(s.tables.processes, deleted, deleted);
          assert Listed(s, deleted + 1);
        }
      } else {
        ReindexedKeys(s.tables.processes, deleted, Shift(id, deleted));
        assert Runs(t.tables, t.history, p);
      }
    } else {
      NotRevived(s, deleted, p);
    }
  }

  lemma NotRevived(s: State, deleted: TaskId, p: Proc)
    requires Inv(s) && p < s.nextProc && !Runs(s.tables, s.history, p)
    ensures !Runs(AfterDelete(s, deleted).tables, AfterDelete(s, deleted).history, p)
    ensures p in AfterDelete(s, deleted).history.dropped <==> p in s.history.dropped
  {
    assert Accounted(s, p);
    forall k | k in s.tables.processes ensures s.tables.processes[k] != p {
      assert Listed(s, k);
    }
    ReindexedKeys(s.tables.processes, deleted, s.history.current[p]);
    if deleted in s.tables.processes {
      assert Listed(s, deleted);
    }
  }

  lemma ApplyKeepsInv(s: State, step: Step)
    requires Inv(s)
    ensures Inv(Apply(s, step))
  {
    match step
    case Register(id, info) =>
      if id in s.starting {
        RegisterKeepsInv(s, id, info);
      }
    case WatcherWakes(p) => WakeKeepsInv(s, p);
    case DrainDirectly(id) => assert Aligned(s);
    case Reindex(deleted) => DeleteKeepsInv(s, deleted);
    case _ => OtherFieldsKeepInv(s, Apply(s, step));
  }

  lemma OtherFieldsKeepInv(s: State, t: State)
    requires Inv(s) && t == s.(starting := t.starting, draining := t.draining, exited := t.exited)
    ensures Inv(t)
  {
    forall id | id in t.tables.processes ensures Listed(t, id) {
      assert Listed(s, id);
    }
    forall p: Proc | p < t.nextProc ensures Accounted(t, p) {
      assert Accounted(s, p);
    }
  }

  lemma {:induction false} ExecKeepsInv(steps: seq<Step>)
    ensures Inv(Exec(steps))
    decreases |steps|
  {
    if steps != [] {
      ExecKeepsInv(steps[..|steps| - 1]);
      ApplyKeepsInv(Exec(steps[..|steps| - 1]), steps[|steps| - 1]);
    }
  }

  // ----- what every run guarantees -----------------------------------------------------------

  /** At every await point of every run, however starts and deletions interleave, the five maps share one
      key set, each id's watcher watches that id's process, and no process is listed twice; so the direct
      clean-up branch is never taken. */
  lemma MapsAligned(steps: seq<Step>, id: TaskId)
    ensures var m := Exec(steps).tables;
            && m.logPaths.Keys == m.logHandles.Keys == m.taskNames.Keys == m.watchers.Keys == m.processes.Keys
            && (id in m.processes ==> m.watchers[id] == m.processes[id])
            && (forall other | other in m.processes && id in m.processes && other != id :: m.processes[other] != m.processes[id])
    ensures !NeedsDirectDrain(Exec(steps), id)
  {
    var s := Exec(steps);
    ExecKeepsInv(steps);
    forall other | other in s.tables.processes && id in s.tables.processes && other != id
      ensures s.tables.processes[other] != s.tables.processes[id]
    {
      assert Listed(s, other) && Listed(s, id);
    }
  }

  /** The step registers an id under which this process is listed. */
  predicate Overwrites(s: State, step: Step, p: Proc) {
    && step.Register? && step.id in s.starting
    && step.id in s.tables.processes && s.tables.processes[step.id] == p
  }

  /** Some registration of the run found the id taken by this process. */
  predicate Overwritten(steps: seq<Step>, p: Proc)
    decreases |steps|
  {
    var n := |steps| - 1;
    n >= 0 && (Overwritten(steps[..n], p) || Overwrites(Exec(steps[..n]), steps[n], p))
  }

  predicate FindsFreeId(s: State, step: Step) {
    step.Register? && step.id in s.starting ==> step.id !in s.tables.processes
  }

  /** Every registration of the run finds its id free. */
  predicate RegistersFreeIds(steps: seq<Step>)
    decreases |steps|
  {
    var n := |steps| - 1;
    n >= 0 ==> RegistersFreeIds(steps[..n]) && FindsFreeId(Exec(steps[..n]), steps[n])
  }

  lemma {:induction false} LostIffOverwritten(steps: seq<Step>, p: Proc)
    ensures p in Exec(steps).history.lost <==> Overwritten(steps, p)
    decreases |steps|
  {
    if steps != [] {
      var n := |steps| - 1;
      LostIffOverwritten(steps[..n], p);
      LostByStep(Exec(steps[..n]), steps[n], p);
    }
  }

  lemma LostByStep(s: State, step: Step, p: Proc)
    ensures p in Apply(s, step).history.lost <==> p in s.history.lost || Overwrites(s, step, p)
  {
  }

  lemma AccountOf(s: State, p: Proc)
    requires Inv(s) && p < s.nextProc && p !in s.watching
    ensures p in s.history.current && p in s.history.stops
    ensures s.history.stops[p] ==
              if p in s.history.dropped || p in s.history.lost then [] else [s.history.current[p]]
  {
    assert Accounted(s, p);
    forall id | id in s.tables.processes ensures s.tables.processes[id] != p {
      assert Listed(s, id);
    }
  }

  /** Over all runs: a process whose watcher has finished got exactly one `on_stopped`, under the id it
      went by, exactly when its task was not deleted under it and its id was not registered again while it
      was listed; otherwise it got none. */
  lemma StoppedOnceIff(steps: seq<Step>, p: Proc)
    requires p < Exec(steps).nextProc && p !in Exec(steps).watching
    ensures var h := Exec(steps).history;
            && p in h.current && p in h.stops
            && (h.stops[p] == [h.current[p]] || h.stops[p] == [])
            && (h.stops[p] == [h.current[p]] <==> p !in h.dropped && !Overwritten(steps, p))
  {
    ExecKeepsInv(steps);
    LostIffOverwritten(steps, p);
    AccountOf(Exec(steps), p);
  }

  /** When every registration finds its id free, every process that was not dropped by a deletion is
      stopped exactly once. */
  lemma StoppedExactlyOnce(steps: seq<Step>, p: Proc)
    requires RegistersFreeIds(steps)
    requires p < Exec(steps).nextProc && p !in Exec(steps).watching && p !in Exec(steps).history.dropped
    ensures var h := Exec(steps).history; p in h.current && p in h.stops && h.stops[p] == [h.current[p]]
  {
    StoppedOnceIff(steps, p);
    FreeOverwritesNobody(steps, p);
  }

  /** A process that nobody will find any more, and that was neither stopped nor dropped. */
  predicate Forgotten(s: State, p: Proc) {
    && p < s.nextProc && !InTable(s, p) && p !in s.history.dropped
    && p in s.history.stops && s.history.stops[p] == []
  }

  lemma ForgottenIffLost(s: State, p: Proc)
    requires Inv(s)
    ensures Forgotten(s, p) <==> p in s.history.lost
  {
    assert p in s.history.lost ==> p < s.nextProc;
    if p < s.nextProc {
      assert Accounted(s, p);
      if Runs(s.tables, s.history, p) {
        var id := s.history.current[p];
        assert id in s.tables.processes && s.tables.processes[id] == p;
      }
      forall id | id in s.tables.processes && s.tables.processes[id] == p ensures p !in s.history.lost {
        assert Listed(s, id);
      }
    }
  }

  lemma ForgottenIffOverwritten(steps: seq<Step>, p: Proc)
    ensures Forgotten(Exec(steps), p) <==> Overwritten(steps, p)
  {
    ExecKeepsInv(steps);
    ForgottenIffLost(Exec(steps), p);
    LostIffOverwritten(steps, p);
  }

  lemma {:induction false} FreeOverwritesNobody(steps: seq<Step>, p: Proc)
    requires RegistersFreeIds(steps)
    ensures !Overwritten(steps, p)
    decreases |steps|
  {
    if steps != [] {
      FreeOverwritesNobody(steps[..|steps| - 1], p);
    }
  }

  lemma {:induction false} TakenOverwritesOne(steps: seq<Step>) returns (p: Proc)
    requires !RegistersFreeIds(steps)
    ensures Overwritten(steps, p)
    decreases |steps|
  {
    var n := |steps| - 1;
    if RegistersFreeIds(steps[..n]) {
      p := Exec(steps[..n]).tables.processes[steps[n].id];
    } else {
      p := TakenOverwritesOne(steps[..n]);
    }
  }

  /** A run forgets some process exactly when one of its registrations finds its id taken. */
  lemma RunForgetsIff(steps: seq<Step>)
    ensures (exists p :: Forgotten(Exec(steps), p)) <==> !RegistersFreeIds(steps)
  {
    if !RegistersFreeIds(steps) {
      var p := TakenOverwritesOne(steps);
      ForgottenIffOverwritten(steps, p);
    }
    if p :| Forgotten(Exec(steps), p) {
      ForgottenIffOverwritten(steps, p);
      if RegistersFreeIds(steps) {
        FreeOverwritesNobody(steps, p);
      }
    }
  }

  predicate InTable(s: State, p: Proc) {
    exists id | id in s.tables.processes :: s.tables.processes[id] == p
  }

  /** The process is listed, or left the table by a deletion or by being registered over. */
  predicate Traced(s: State, p: Proc) {
    InTable(s, p) || p in s.history.dropped || p in s.history.lost
  }

  /** The id in the call is the id at the moment the watcher wakes, whatever was deleted before; a process
      whose task was deleted or whose id was registered again gets no call. */
  lemma StopUsesTheCurrentId(steps: seq<Step>, p: Proc)
    requires p in Exec(steps).watching && p in Exec(steps).exited
    ensures var s := Exec(steps);
            var t := Apply(s, WatcherWakes(p));
            && p in s.history.current && p in t.history.stops && p !in t.watching
            && t.history.stops[p] ==
                 if p in s.history.dropped || Overwritten(steps, p) then [] else [s.history.current[p]]
  {
    ExecKeepsInv(steps);
    LostIffOverwritten(steps, p);
    WatchedIsTraced(steps, p);
    WakeStops(Exec(steps), p);
  }

  lemma WakeStops(s: State, p: Proc)
    requires Inv(s) && p in s.watching && p in s.exited && Traced(s, p)
    ensures var t := Woken(s, p);
            && p in s.history.current && p in t.history.stops && p !in t.watching
            && t.history.stops[p] ==
                 if p in s.history.dropped || p in s.history.lost then [] else [s.history.current[p]]
  {
    assert Accounted(s, p);
    assert forall id | id in s.tables.processes :: Listed(s, id);
  }

  lemma {:induction false} WatchedIsTraced(steps: seq<Step>, p: Proc)
    requires p in Exec(steps).watching
    ensures Traced(Exec(steps), p)
    decreases |steps|
  {
    if steps != [] {
      var init := steps[..|steps| - 1];
      ExecKeepsInv(init);
      if p in Exec(init).watching {
        WatchedIsTraced(init, p);
      }
      WatchedStaysTraced(Exec(init), steps[|steps| - 1], p);
    }
  }

  lemma WatchedStaysTraced(s: State, step: Step, p: Proc)
    requires Inv(s) && p in Apply(s, step).watching && (p in s.watching ==> Traced(s, p))
    ensures Traced(Apply(s, step), p)
  {
    match step
    case Reindex(deleted) => DeletionTraces(s, deleted, p);
    case WatcherWakes(q) => WakingTraces(s, q, p);
    case DrainDirectly(_) => assert Aligned(s);
    case Register(id, info) =>
      if id in s.starting {
        RegistrationTraces(s, id, info, p);
      }
    case _ => assert Apply(s, step).tables == s.tables;
  }

  lemma DeletionTraces(s: State, deleted: TaskId, p: Proc)
    requires Traced(s, p)
    ensures Traced(AfterDelete(s, deleted), p)
  {
    if id :| id in s.tables.processes && s.tables.processes[id] == p {
      ReindexedKeys(s.tables.processes, deleted, Shift(id, deleted));
      var t := AfterDelete(s, deleted);
      assert id != deleted ==> Shift(id, deleted) in t.tables.processes && t.tables.processes[Shift(id, deleted)] == p;
    }
  }

  lemma RegistrationTraces(s: State, id: TaskId, info: Info, p: Proc)
    requires p == s.nextProc || Traced(s, p)
    ensures Traced(Registered(s, id, info), p)
  {
    var t := Registered(s, id, info);
    assert id in t.tables.processes && t.tables.processes[id] == s.nextProc;
    if k :| k in s.tables.processes && s.tables.processes[k] == p {
      assert k != id ==> k in t.tables.processes && t.tables.processes[k] == p;
    }
  }

  lemma WakingTraces(s: State, q: Proc, p: Proc)
    requires Inv(s) && p in Woken(s, q).watching && Traced(s, p)
    ensures Traced(Woken(s, q), p)
  {
    if k :| k in s.tables.processes && s.tables.processes[k] == p {
      assert Listed(s, k);
      assert k in Woken(s, q).tables.processes && Woken(s, q).tables.processes[k] == p;
    }
  }

  // ----- when registrations find their ids free --------------------------------------------------

  ghost predicate Pending(s: State, id: TaskId) {
    id in s.starting || exists pair :: pair in s.draining && pair.0 == id
  }

  /** No second start of an id while one is under way, and no deletion that moves a listed process onto an
      id being started. */
  ghost predicate Careful(s: State, step: Step) {
    && (step.BeginStart? ==> !Pending(s, step.id))
    && (step.Reindex? ==> forall id | id + 1 in s.tables.processes && step.deleted <= id :: !Pending(s, id))
  }

  ghost predicate CarefulRun(steps: seq<Step>)
    decreases |steps|
  {
    var n := |steps| - 1;
    n >= 0 ==> CarefulRun(steps[..n]) && Careful(Exec(steps[..n]), steps[n])
  }

  /** Ids being started are started once and are not listed; an id whose drain is awaited is listed with
      that process or not at all. */
  ghost predicate StartsApart(s: State) {
    && (forall id | id in s.starting :: s.starting[id] == 1 && id !in s.tables.processes)
    && (forall pair | pair in s.draining :: s.draining[pair] == 1 && pair.0 !in s.starting
          && (pair.0 in s.tables.processes ==> s.tables.processes[pair.0] == pair.1 && pair.1 in s.exited))
    && (forall a, b | a in s.draining && b in s.draining && a.0 == b.0 :: a == b)
    && (forall pair | pair in s.draining && pair.1 !in s.watching :: pair.0 !in s.tables.processes)
  }

  lemma StepKeepsApart(s: State, step: Step)
    requires Inv(s) && StartsApart(s) && Careful(s, step)
    ensures StartsApart(Apply(s, step))
  {
    match step
    case Reindex(deleted) => DeletionKeepsApart(s, deleted);
    case WatcherWakes(p) => WakingKeepsApart(s, p);
    case DrainDirectly(id) => NeverDirect(s, id);
    case BeginStart(id) => BeginKeepsApart(s, id);
    case DrainEnds(id, p) => DrainKeepsApart(s, id, p);
    case Register(id, info) => RegistrationKeepsApart(s, id, info);
    case AbortStart(id) => AbortKeepsApart(s, id);
    case ProcessExits(p) => ExitKeepsApart(s, p);
  }

  lemma NeverDirect(s: State, id: TaskId)
    requires Aligned(s)
    ensures Apply(s, DrainDirectly(id)) == s
  {
  }

  lemma AbortKeepsApart(s: State, id: TaskId)
    requires StartsApart(s)
    ensures StartsApart(Apply(s, AbortStart(id)))
  {
  }

  lemma ExitKeepsApart(s: State, p: Proc)
    requires StartsApart(s)
    ensures StartsApart(Apply(s, ProcessExits(p)))
  {
  }

  lemma DrainKeepsApart(s: State, id: TaskId, p: Proc)
    requires StartsApart(s)
    ensures StartsApart(Apply(s, DrainEnds(id, p)))
  {
    if (id, p) in s.draining && p !in s.watching {
      var t := s.(starting := s.starting + multiset{id}, draining := s.draining - multiset{(id, p)});
      assert id !in s.tables.processes && Apply(s, DrainEnds(id, p)) == t;
      assert forall pair | pair in t.draining :: pair in s.draining && pair.0 != id;
    }
  }

  lemma RegistrationKeepsApart(s: State, id: TaskId, info: Info)
    requires StartsApart(s)
    ensures StartsApart(Apply(s, Register(id, info)))
  {
    if id in s.starting {
      assert forall pair | pair in s.draining :: pair.0 != id;
    }
  }

  lemma BeginKeepsApart(s: State, id: TaskId)
    requires Inv(s) && StartsApart(s) && Careful(s, BeginStart(id))
    ensures StartsApart(Apply(s, BeginStart(id)))
  {
    assert forall pair | pair in s.draining :: pair.0 != id;
    if id in s.tables.processes {
      assert Listed(s, id);
    }
  }

  lemma PendingStaysUnlisted(s: State, deleted: TaskId, id: TaskId)
    requires Careful(s, Reindex(deleted)) && Pending(s, id)
    ensures var t := Apply(s, Reindex(deleted)).tables.processes;
            id in t ==> id in s.tables.processes && t[id] == s.tables.processes[id]
  {
    ReindexedKeys(s.tables.processes, deleted, id);
  }

  lemma DeletionKeepsApart(s: State, deleted: TaskId)
    requires StartsApart(s) && Careful(s, Reindex(deleted))
    ensures StartsApart(Apply(s, Reindex(deleted)))
  {
    var t := Apply(s, Reindex(deleted));
    forall id | id in s.starting ensures id !in t.tables.processes {
      PendingStaysUnlisted(s, deleted, id);
    }
    forall pair | pair in s.draining
      ensures pair.0 in t.tables.processes ==>
                pair.0 in s.tables.processes && t.tables.processes[pair.0] == s.tables.processes[pair.0]
    {
      assert Pending(s, pair.0);
      PendingStaysUnlisted(s, deleted, pair.0);
    }
  }

  lemma WakingUnlists(s: State, p: Proc, id: TaskId)
    requires Inv(s) && p in s.watching && p in s.exited
    requires id in s.tables.processes && s.tables.processes[id] == p
    ensures id !in Woken(s, p).tables.processes
  {
    assert Listed(s, id);
    var found := IdOf(s.(watching := s.watching - {p}), p);
    assert found.Some? ==> Listed(s, found.value);
  }

  lemma WakingKeepsApart(s: State, p: Proc)
    requires Inv(s) && StartsApart(s)
    ensures StartsApart(Apply(s, WatcherWakes(p)))
  {
    if p in s.watching && p in s.exited {
      var t := Woken(s, p);
      forall pair | pair in s.draining && pair.1 == p ensures pair.0 !in t.tables.processes {
        if pair.0 in s.tables.processes {
          WakingUnlists(s, p, pair.0);
        }
      }
    }
  }

  lemma {:induction false} CarefulRunsStartApart(steps: seq<Step>)
    requires CarefulRun(steps)
    ensures StartsApart(Exec(steps))
    decreases |steps|
  {
    if steps != [] {
      var n := |steps| - 1;
      CarefulRunsStartApart(steps[..n]);
      ExecKeepsInv(steps[..n]);
      StepKeepsApart(Exec(steps[..n]), steps[n]);
    }
  }

  /** With starts serialised per task, and no deletion that moves a listed process onto an id being started,
      every registration finds its id free. */
  lemma {:induction false} CarefulRunsRegisterFreeIds(steps: seq<Step>)
    requires CarefulRun(steps)
    ensures RegistersFreeIds(steps)
    decreases |steps|
  {
    if steps != [] {
      var n := |steps| - 1;
      CarefulRunsRegisterFreeIds(steps[..n]);
      CarefulRunsStartApart(steps[..n]);
      assert StartsApart(Exec(steps[..n]));
    }
  }

  // ----- runs that forget a process ----------------------------------------------------------------

  lemma ExecLast(init: seq<Step>, last: Step)
    ensures Exec(init + [last]) == Apply(Exec(init), last)
  {
    assert (init + [last])[..|init|] == init;
  }

  lemma ExecTwo(a: Step, b: Step)
    ensures Exec([a, b]) == Apply(Apply(EMPTY, a), b)
  {
    ExecLast([], a);
    ExecLast([a], b);
    assert [] + [a] == [a] && [a] + [b] == [a, b];
  }

  /** A process is listed, and a start of another id is under way. */
  predicate OneListed(s: State, listed: TaskId, starting: TaskId) {
    s.tables.processes == map[listed := 0] && starting in s.starting
  }

  lemma OneRegistered(a: Info)
    ensures var s := Exec([BeginStart(1), Register(1, a)]);
            s.tables.processes == map[1 := 0] && s.starting == multiset{} && s.draining == multiset{}
  {
    ExecTwo(BeginStart(1), Register(1, a));
    var s := Apply(EMPTY, BeginStart(1));
    assert s == EMPTY.(starting := multiset{1}) by {
      assert multiset{} + multiset{1} == multiset{1};
    }
    RegisterFirst(s, a);
  }

  lemma RegisterFirst(s: State, a: Info)
    requires s.tables.processes == map[] && s.nextProc == 0 && s.starting == multiset{1} && s.draining == multiset{}
    ensures var t := Apply(s, Register(1, a));
            t.tables.processes == map[1 := 0] && t.starting == multiset{} && t.draining == multiset{}
  {
    assert multiset{1} - multiset{1} == multiset{};
  }

  lemma StartBesideOneListed(a: Info)
    ensures OneListed(Exec([BeginStart(1), Register(1, a), BeginStart(0)]), 1, 0)
  {
    OneRegistered(a);
    ExecLast([BeginStart(1), Register(1, a)], BeginStart(0));
    assert [BeginStart(1), Register(1, a)] + [BeginStart(0)] == [BeginStart(1), Register(1, a), BeginStart(0)];
  }

  /** A deletion moves the process of the next id onto this one. */
  lemma MovedOnto(s: State, id: TaskId)
    requires id + 1 in s.tables.processes
    ensures var t := Apply(s, Reindex(id));
            && id in t.tables.processes && t.tables.processes[id] == s.tables.processes[id + 1] && t.starting == s.starting
  {
    ReindexedKeys(s.tables.processes, id, id);
  }

  /** The run in which task 1 runs, task 0 is being started, and the first task is deleted. */
  function ForgetfulRun(a: Info, b: Info): seq<Step> {
    [BeginStart(1), Register(1, a), BeginStart(0)] + [Reindex(0)] + [Register(0, b)]
  }

  /** No start begins while one of its id is under way. */
  ghost predicate SerialStarts(steps: seq<Step>)
    decreases |steps|
  {
    var n := |steps| - 1;
    n >= 0 ==> SerialStarts(steps[..n]) && (steps[n].BeginStart? ==> !Pending(Exec(steps[..n]), steps[n].id))
  }

  lemma SerialAppend(init: seq<Step>, last: Step)
    requires SerialStarts(init) && (last.BeginStart? ==> !Pending(Exec(init), last.id))
    ensures SerialStarts(init + [last])
  {
    assert (init + [last])[..|init|] == init;
  }

  lemma FirstTwoAreSerial(a: Info)
    ensures SerialStarts([BeginStart(1), Register(1, a)])
  {
    NothingPending(EMPTY, 1);
    SerialAppend([], BeginStart(1));
    assert [] + [BeginStart(1)] == [BeginStart(1)];
    SerialAppend([BeginStart(1)], Register(1, a));
    assert [BeginStart(1)] + [Register(1, a)] == [BeginStart(1), Register(1, a)];
  }

  lemma ForgetfulRunIsSerial(a: Info, b: Info)
    ensures SerialStarts(ForgetfulRun(a, b))
  {
    var two := [BeginStart(1), Register(1, a)];
    FirstTwoAreSerial(a);
    OneRegistered(a);
    NothingPending(Exec(two), 0);
    SerialAppend(two, BeginStart(0));
    assert two + [BeginStart(0)] == [BeginStart(1), Register(1, a), BeginStart(0)];
    SerialAppend(two + [BeginStart(0)], Reindex(0));
    SerialAppend(two + [BeginStart(0)] + [Reindex(0)], Register(0, b));
  }

  lemma NothingPending(s: State, id: TaskId)
    requires s.starting == multiset{} && s.draining == multiset{}
    ensures !Pending(s, id)
  {
  }

  /** Starts serialised per task are not enough: the deletion moves another process onto the id being
      started, and the registration forgets it. */
  lemma DeletionDuringStartForgets(a: Info, b: Info)
    ensures SerialStarts(ForgetfulRun(a, b)) && Forgotten(Exec(ForgetfulRun(a, b)), 0)
  {
    ForgetfulRunIsSerial(a, b);
    StartBesideOneListed(a);
    var first := [BeginStart(1), Register(1, a), BeginStart(0)];
    MovedOnto(Exec(first), 0);
    ExecLast(first, Reindex(0));
    var run := ForgetfulRun(a, b);
    assert run[..4] == first + [Reindex(0)] && run[4] == Register(0, b);
    assert Overwritten(run, 0);
    ForgottenIffOverwritten(run, 0);
  }

  function ShiftedSet(ids: set<TaskId>, deleted: TaskId): set<TaskId> {
    set id | id in ids && id != deleted :: Shift(id, deleted)
  }

  /** The deletion does not move the manual ids. They end up where the maps are exactly when no
      manual id was the deleted one or above it. */
  lemma ManualIdsDriftIff(ids: set<TaskId>, deleted: TaskId)
    ensures ShiftedSet(ids, deleted) == ids <==> forall id | id in ids :: id < deleted
  {
    if forall id | id in ids :: id < deleted {
      assert forall id | id in ids :: Shift(id, deleted) == id;
    } else {
      var high := set id | id in ids && id >= deleted;
      var some :| some in ids && some >= deleted;
      assert some in high;
      var negated := set id | id in high :: -id;
      assert -some in negated;
      var top := -Least(negated);
      assert top in high;
      assert top !in ShiftedSet(ids, deleted) by {
        forall id | id in ids && id != deleted ensures Shift(id, deleted) != top {
          if id >= deleted {
            assert id in high && -id in negated;
          }
        }
      }
    }
  }

  /** Seen from the service: after a deletion the manual set is in step with the maps exactly then. */
  lemma DeletionKeepsManualInStepIff(s: State, deleted: TaskId)
    ensures AfterDelete(s, deleted).manual == ShiftedSet(s.manual, deleted)
            <==> forall id | id in s.manual :: id < deleted
  {
    ManualIdsDriftIff(s.manual, deleted);
  }
}
