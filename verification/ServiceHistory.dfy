/** What the process service knows about a listed process, from the registration that listed it. */
module ServiceHistory {
  import opened Basics
  import opened ProcessService

  /** What was registered for the process. */
  function InfoOf(steps: seq<Step>, p: Proc): Option<Info>
    decreases |steps|
  {
    var n := |steps| - 1;
    if n < 0 then None else NextInfo(InfoOf(steps[..n], p), Exec(steps[..n]), steps[n], p)
  }

  function NextInfo(info: Option<Info>, s: State, step: Step, p: Proc): Option<Info> {
    if step.Register? && step.id in s.starting && p == s.nextProc then Some(step.info) else info
  }

  predicate HasRuntime(tables: Tables, id: TaskId, info: Info) {
    && id in tables.logPaths && tables.logPaths[id] == info.path
    && id in tables.logHandles && tables.logHandles[id] == info.handle
    && id in tables.taskNames && tables.taskNames[id] == info.name
  }

  /** The runtime listed under an id is the one registered for its process. */
  predicate Owns(s: State, id: TaskId, info: Option<Info>) {
    id in s.tables.processes ==> info.Some? && HasRuntime(s.tables, id, info.value)
  }

  lemma RegisterOwns(s: State, id: TaskId, info: Info, k: TaskId, known: Option<Info>)
    requires Owns(s, k, known)
    ensures var t := Registered(s, id, info); Owns(t, k, if k == id then Some(info) else known)
  {
  }

  /** Where the entry of an id after a deletion was before it. */
  function Origin(k: TaskId, deleted: TaskId): TaskId {
    if k < deleted then k else k + 1
  }

  lemma DeletionOwns(s: State, deleted: TaskId, k: TaskId, known: Option<Info>)
    requires Owns(s, Origin(k, deleted), known)
    ensures Owns(AfterDelete(s, deleted), k, known)
    ensures k in AfterDelete(s, deleted).tables.processes ==>
              Origin(k, deleted) in s.tables.processes
              && AfterDelete(s, deleted).tables.processes[k] == s.tables.processes[Origin(k, deleted)]
  {
    ReindexedKeys(s.tables.processes, deleted, k);
    ReindexedKeys(s.tables.logPaths, deleted, k);
    ReindexedKeys(s.tables.logHandles, deleted, k);
    ReindexedKeys(s.tables.taskNames, deleted, k);
  }

  ghost predicate AllOwn(s: State, steps: seq<Step>) {
    forall k :: k in s.tables.processes ==> Owns(s, k, InfoOf(steps, s.tables.processes[k]))
  }

  lemma {:induction false} OneMoreStep(steps: seq<Step>, n: nat)
    requires n + 1 == |steps|
    ensures Exec(steps) == Apply(Exec(steps[..n]), steps[n])
    ensures forall p :: InfoOf(steps, p) == NextInfo(InfoOf(steps[..n], p), Exec(steps[..n]), steps[n], p)
  {
  }

  /** Only a registration that takes place tells anything about a process, and then about a new one. */
  lemma {:induction false} KnownStays(steps: seq<Step>, n: nat, p: Proc)
    requires n + 1 == |steps| && p < Exec(steps[..n]).nextProc
    ensures InfoOf(steps, p) == InfoOf(steps[..n], p)
  {
  }

  lemma {:induction false} ListedOwns(steps: seq<Step>)
    ensures AllOwn(Exec(steps), steps)
    decreases |steps|
  {
    if steps != [] {
      var n := |steps| - 1;
      var s, t := Exec(steps[..n]), Exec(steps);
      ListedOwns(steps[..n]);
      ExecKeepsInv(steps[..n]);
      OneMoreStep(steps, n);
      forall k | k in t.tables.processes ensures Owns(t, k, InfoOf(steps, t.tables.processes[k])) {
        OneOwns(steps, n, k);
      }
    }
  }

  lemma {:induction false} OneOwns(steps: seq<Step>, n: nat, k: TaskId)
    requires n + 1 == |steps| && AllOwn(Exec(steps[..n]), steps[..n]) && Inv(Exec(steps[..n]))
    requires k in Exec(steps).tables.processes && Exec(steps) == Apply(Exec(steps[..n]), steps[n])
    ensures Owns(Exec(steps), k, InfoOf(steps, Exec(steps).tables.processes[k]))
  {
    var s, t := Exec(steps[..n]), Exec(steps);
    if steps[n].Register? && steps[n].id in s.starting {
      OwnsRegistered(steps, n, k);
    } else if steps[n].Reindex? {
      OwnsDeleted(steps, n, k);
    } else {
      TablesOnlyShrink(s, steps[n], k);
      OwnsKept(steps, n, k);
    }
  }

  /** Other steps take entries away at most. */
  lemma TablesOnlyShrink(s: State, step: Step, k: TaskId)
    requires Inv(s) && !step.Reindex? && !(step.Register? && step.id in s.starting)
    requires k in Apply(s, step).tables.processes
    ensures k in s.tables.processes && Apply(s, step).tables.processes[k] == s.tables.processes[k]
    ensures var m, t := s.tables, Apply(s, step).tables;
            forall info :: HasRuntime(m, k, info) ==> HasRuntime(t, k, info)
  {
  }

  lemma {:induction false} OwnsRegistered(steps: seq<Step>, n: nat, k: TaskId)
    requires n + 1 == |steps| && AllOwn(Exec(steps[..n]), steps[..n]) && Inv(Exec(steps[..n]))
    requires steps[n].Register? && steps[n].id in Exec(steps[..n]).starting
    requires Exec(steps) == Registered(Exec(steps[..n]), steps[n].id, steps[n].info) && k in Exec(steps).tables.processes
    ensures Owns(Exec(steps), k, InfoOf(steps, Exec(steps).tables.processes[k]))
  {
    var s, step := Exec(steps[..n]), steps[n];
    if k == step.id {
      RegisterOwns(s, step.id, step.info, k, if k in s.tables.processes then InfoOf(steps[..n], s.tables.processes[k]) else None);
    } else {
      assert Listed(s, k);
      KnownStays(steps, n, s.tables.processes[k]);
      RegisterOwns(s, step.id, step.info, k, InfoOf(steps[..n], s.tables.processes[k]));
    }
  }

  lemma {:induction false} OwnsDeleted(steps: seq<Step>, n: nat, k: TaskId)
    requires n + 1 == |steps| && AllOwn(Exec(steps[..n]), steps[..n]) && Inv(Exec(steps[..n]))
    requires steps[n].Reindex? && Exec(steps) == AfterDelete(Exec(steps[..n]), steps[n].deleted)
    requires k in Exec(steps).tables.processes
    ensures Owns(Exec(steps), k, InfoOf(steps, Exec(steps).tables.processes[k]))
  {
    var s, deleted := Exec(steps[..n]), steps[n].deleted;
    ReindexedKeys(s.tables.processes, deleted, k);
    var was := Origin(k, deleted);
    assert Listed(s, was);
    KnownStays(steps, n, s.tables.processes[was]);
    DeletionOwns(s, deleted, k, InfoOf(steps[..n], s.tables.processes[was]));
  }

  lemma {:induction false} OwnsKept(steps: seq<Step>, n: nat, k: TaskId)
    requires n + 1 == |steps| && AllOwn(Exec(steps[..n]), steps[..n]) && Inv(Exec(steps[..n]))
    requires k in Exec(steps).tables.processes && k in Exec(steps[..n]).tables.processes
    requires Exec(steps).tables.processes[k] == Exec(steps[..n]).tables.processes[k]
    requires forall info :: HasRuntime(Exec(steps[..n]).tables, k, info) ==> HasRuntime(Exec(steps).tables, k, info)
    ensures Owns(Exec(steps), k, InfoOf(steps, Exec(steps).tables.processes[k]))
  {
    var s := Exec(steps[..n]);
    assert Listed(s, k);
    KnownStays(steps, n, s.tables.processes[k]);
  }

  /** Over all runs, however starts and deletions interleave: the log file, the log handle and the task name under an
      id are those that its process was registered with. */
  lemma RuntimeIsItsOwn(steps: seq<Step>, id: TaskId)
    requires id in Exec(steps).tables.processes
    ensures var m := Exec(steps).tables;
            var info := InfoOf(steps, m.processes[id]);
            && info.Some?
            && id in m.logPaths && m.logPaths[id] == info.value.path
            && id in m.logHandles && m.logHandles[id] == info.value.handle
            && id in m.taskNames && m.taskNames[id] == info.value.name
  {
    ListedOwns(steps);
  }

  // ----- manual ids ----------------------------------------------------------------------------

  /** No task is deleted in the run. */
  predicate NoDeletion(steps: seq<Step>) {
    forall i | 0 <= i < |steps| :: !steps[i].Reindex?
  }

  predicate StartedByHand(steps: seq<Step>, p: Proc) {
    InfoOf(steps, p).Some? && InfoOf(steps, p).value.manualStart
  }

  ghost predicate ManualFits(steps: seq<Step>) {
    var s := Exec(steps);
    forall id :: id in s.manual <==> id in s.tables.processes && StartedByHand(steps, s.tables.processes[id])
  }

  lemma {:induction false} ManualAfterRegister(steps: seq<Step>, n: nat)
    requires n + 1 == |steps| && ManualFits(steps[..n]) && Inv(Exec(steps[..n]))
    requires steps[n].Register? && steps[n].id in Exec(steps[..n]).starting
    requires Exec(steps) == Registered(Exec(steps[..n]), steps[n].id, steps[n].info)
    requires steps[n].id !in Exec(steps[..n]).tables.processes
    ensures ManualFits(steps)
  {
    var s := Exec(steps[..n]);
    forall k | k in s.tables.processes ensures InfoOf(steps, s.tables.processes[k]) == InfoOf(steps[..n], s.tables.processes[k]) {
      assert Listed(s, k);
      KnownStays(steps, n, s.tables.processes[k]);
    }
  }

  lemma ManualOnlyShrinks(s: State, step: Step)
    requires Inv(s) && !step.Reindex? && !(step.Register? && step.id in s.starting)
    ensures var t := Apply(s, step);
            && (forall k | k in t.tables.processes :: k in s.tables.processes && t.tables.processes[k] == s.tables.processes[k])
            && (forall k :: k in t.manual <==> k in s.manual && (k in s.tables.processes ==> k in t.tables.processes))
  {
  }

  lemma {:induction false} ManualAfterOther(steps: seq<Step>, n: nat)
    requires n + 1 == |steps| && ManualFits(steps[..n]) && Inv(Exec(steps[..n]))
    requires !steps[n].Reindex? && !(steps[n].Register? && steps[n].id in Exec(steps[..n]).starting)
    requires Exec(steps) == Apply(Exec(steps[..n]), steps[n])
    ensures ManualFits(steps)
  {
    var s := Exec(steps[..n]);
    ManualOnlyShrinks(s, steps[n]);
    forall k | k in s.tables.processes ensures InfoOf(steps, s.tables.processes[k]) == InfoOf(steps[..n], s.tables.processes[k]) {
      assert Listed(s, k);
      KnownStays(steps, n, s.tables.processes[k]);
    }
  }

  /** While no task is deleted and every registration finds its id free, the manual ids are exactly the listed ones
      whose process was started by hand. */
  lemma {:induction false} ManualIdsAre(steps: seq<Step>)
    requires NoDeletion(steps) && RegistersFreeIds(steps)
    ensures ManualFits(steps)
    decreases |steps|
  {
    if steps != [] {
      var n := |steps| - 1;
      assert NoDeletion(steps[..n]);
      ManualIdsAre(steps[..n]);
      ExecKeepsInv(steps[..n]);
      OneMoreStep(steps, n);
      if steps[n].Register? && steps[n].id in Exec(steps[..n]).starting {
        assert FindsFreeId(Exec(steps[..n]), steps[n]);
        ManualAfterRegister(steps, n);
      } else {
        ManualAfterOther(steps, n);
      }
    }
  }

  /** From every reachable state a watched process can exit and have its watcher woken; then it is watched no more,
      and is listed nowhere. */
  lemma WatchersEnd(steps: seq<Step>, p: Proc)
    requires p in Exec(steps).watching
    ensures var gone := Apply(Exec(steps), ProcessExits(p));
            var woken := Apply(gone, WatcherWakes(p));
            && p in gone.watching && p in gone.exited && gone == Exec(steps).(exited := gone.exited)
            && p !in woken.watching && p !in woken.tables.processes.Values
  {
    ExecKeepsInv(steps);
    var s := Exec(steps);
    var gone := Apply(s, ProcessExits(p));
    var t := gone.(watching := gone.watching - {p});
    forall id | id in s.tables.processes && s.tables.processes[id] == p ensures IdOf(t, p) == Some(id) {
      assert Listed(s, id) && Listed(s, IdOf(t, p).value);
    }
  }

  /** When a start goes ahead, in every reachable state: at once if the id is free; not at all while its process lives;
      and if that has exited, once its watcher has taken it out of the maps. */
  lemma StartsGoAhead(steps: seq<Step>, id: TaskId)
    ensures var s := Exec(steps);
            && (id !in s.tables.processes ==> id in Apply(s, BeginStart(id)).starting)
            && (id in s.tables.processes && s.tables.processes[id] !in s.exited ==> Apply(s, BeginStart(id)) == s)
            && (id in s.tables.processes && s.tables.processes[id] in s.exited ==>
                  var p := s.tables.processes[id];
                  var begun := Apply(s, BeginStart(id));
                  var cleaned := Apply(begun, WatcherWakes(p));
                  var drained := Apply(cleaned, DrainEnds(id, p));
                  begun.starting == s.starting && id !in cleaned.tables.processes && id in drained.starting)
  {
    var s := Exec(steps);
    ExecKeepsInv(steps);
    if id in s.tables.processes && s.tables.processes[id] in s.exited {
      StartAfterExit(s, id);
    }
  }

  lemma StartAfterExit(s: State, id: TaskId)
    requires Inv(s) && id in s.tables.processes && s.tables.processes[id] in s.exited
    ensures var p := s.tables.processes[id];
            var begun := Apply(s, BeginStart(id));
            var cleaned := Apply(begun, WatcherWakes(p));
            var drained := Apply(cleaned, DrainEnds(id, p));
            begun.starting == s.starting && id !in cleaned.tables.processes && id in drained.starting
  {
    var p := s.tables.processes[id];
    assert Listed(s, id);
    var begun := Apply(s, BeginStart(id));
    assert (id, p) in begun.draining && begun == s.(draining := begun.draining);
    var t := begun.(watching := begun.watching - {p});
    var found := IdOf(t, p).value;
    assert Listed(s, found) && found == id;
    var cleaned := Apply(begun, WatcherWakes(p));
    assert cleaned == Cleaned(t, id, p);
  }
}
