/** Any number of worker loops on one table. Each has its own program counter, which stands between two
    database statements of its loop, so their statements interleave in every way; a process may die at any
    point and be started again. Every run of such a fleet is a run of the job protocol. */
module WorkerFleet {
  import opened Basics
  import opened JobTable
  import opened WorkerRefinement
  import Protocol = JobProtocol
  import Worker = WorkerLoop

  /** Where a worker process stands: `Seeking` before a SELECT, `Chose` between it and the conditional UPDATE,
      `Working` in a handler with the statements that are left. */
  datatype Place =
    | Off
    | Ready
    | Seeking(input: Worker.Input, wants: seq<Wanted>)
    | Chose(input: Worker.Input, wants: seq<Wanted>, selected: Selected)
    | Working(id: JobId, rest: Script, written: bool)

  /** In a handler `own` is already the state that the handler leaves; it is not looked at before. */
  datatype Process = Process(place: Place, own: Worker.World)

  datatype Fleet = Fleet(rows: Table, nextId: nat, requests: map<nat, Protocol.Request>, workers: map<WorkerName, Process>)

  /** `Go` executes a worker up to and including its next statement, with the input of the round it begins. */
  datatype Move =
    | Produce(step: Protocol.Step)
    | Go(w: WorkerName, input: Worker.Input)
    | Die(w: WorkerName)
    | Boot(w: WorkerName, own: Worker.World)

  function Shared(f: Fleet): Protocol.State {
    Protocol.State(f.rows, f.nextId, map[], f.requests, map[], map[])
  }

  function Put(f: Fleet, w: WorkerName, place: Place): Fleet
    requires w in f.workers
  {
    f.(workers := f.workers[w := f.workers[w].(place := place)])
  }

  function Produced(serial: bool, f: Fleet, step: Protocol.Step): Fleet {
    var c := Protocol.Apply(serial, Shared(f), step);
    f.(rows := c.rows, nextId := c.nextId, requests := c.requests)
  }

  /** The head of a round: the monitor, and the delivery that may end the process. */
  function Begun(redis: bool, f: Fleet, w: WorkerName, input: Worker.Input): Fleet
    requires w in f.workers
  {
    var before := Worker.Before(f.workers[w].own, input);
    var process :=
      if input.monitorRaises && Worker.DeadEntries(before) != {} then Process(Off, Worker.MonitorCut(before, input.polledFirst))
      else if redis && Worker.Fatal(input.delivery) then Process(Off, Worker.Monitored(before))
      else Process(Seeking(input, Wants(redis, input.delivery)), Worker.Monitored(before));
    f.(workers := f.workers[w := process])
  }

  function Sought(f: Fleet, w: WorkerName): Fleet
    requires w in f.workers && f.workers[w].place.Seeking?
  {
    var here := f.workers[w].place;
    if here.wants == [] then Put(f, w, Ready)
    else
      var found := Look(f.rows, here.wants[0]);
      Put(f, w, if found.None? then Seeking(here.input, here.wants[1..])
                else Chose(here.input, here.wants[1..], Selected(found.value, f.rows[found.value])))
  }

  function Taken(f: Fleet, w: WorkerName): Fleet
    requires w in f.workers && f.workers[w].place.Chose?
  {
    var here := f.workers[w].place;
    var id := here.selected.id;
    if !IsPending(f.rows, id) then Put(f, w, Seeking(here.input, here.wants))
    else
      var local := LocalWorld(f.workers[w].own, here.input, here.selected, w);
      f.(rows := ClaimUpdate(f.rows, id, w),
         workers := f.workers[w := Process(Working(id, ScriptOf(local, here.selected.row, here.input.env), false),
                                           Worker.HandledJob(local, id, here.input.env))])
  }

  function Worked(f: Fleet, w: WorkerName): Fleet
    requires w in f.workers && f.workers[w].place.Working?
  {
    var here := f.workers[w].place;
    if here.rest == [] then Put(f, w, Ready)
    else
      var stmt := here.rest[0];
      Put(f.(rows := Perform(f.rows, here.id, stmt)), w,
          if stmt.Rescue? then Ready else Working(here.id, here.rest[1..], here.written || stmt.Write?))
  }

  function Gone(redis: bool, f: Fleet, w: WorkerName, input: Worker.Input): Fleet
    requires w in f.workers
  {
    match f.workers[w].place
    case Off => f
    case Ready => Begun(redis, f, w, input)
    case Seeking(_, _) => Sought(f, w)
    case Chose(_, _, _) => Taken(f, w)
    case Working(_, _, _) => Worked(f, w)
  }

  function Do(serial: bool, redis: bool, f: Fleet, move: Move): Fleet {
    match move
    case Produce(step) => if OfWorker(step) then f else Produced(serial, f, step)
    case Go(w, input) => if w in f.workers then Gone(redis, f, w, input) else f
    case Die(w) => if w in f.workers then Put(f, w, Off) else f
    case Boot(w, own) =>
      if w in f.workers && f.workers[w].place.Off?
      then f.(rows := ClearStale(f.rows, w), workers := f.workers[w := Process(Ready, own)])
      else f
  }

  function DoAll(serial: bool, redis: bool, f: Fleet, moves: seq<Move>): Fleet
    decreases |moves|
  {
    if moves == [] then f else Do(serial, redis, DoAll(serial, redis, f, moves[..|moves| - 1]), moves[|moves| - 1])
  }

  function Begin(workers: set<WorkerName>, own: Worker.World): Fleet {
    Fleet(map[], 1, map[], map w | w in workers :: Process(Off, own))
  }

  // ----- every run is a protocol run ---------------------------------------------------------------

  function PhaseAt(place: Place): Protocol.Phase {
    match place
    case Off => Protocol.Down
    case Ready => Protocol.Idle
    case Seeking(_, _) => Protocol.Idle
    case Chose(_, _, selected) => Protocol.Selected(selected.id)
    case Working(id, _, written) => Protocol.Handling(id, written)
  }

  /** What is left of a handler brings its job to an end. */
  predicate WellPlaced(place: Place) {
    place.Working? ==> Whole(place.rest, place.written)
  }

  /** The fleet is a protocol state: same table and requests, and each worker in the phase its place says. */
  ghost predicate Shows(f: Fleet, u: Protocol.State) {
    && f.rows == u.rows && f.nextId == u.nextId && f.requests == u.requests
    && f.workers.Keys == u.phases.Keys
    && forall w | w in f.workers :: u.phases[w] == PhaseAt(f.workers[w].place) && WellPlaced(f.workers[w].place)
  }

  /** The protocol step of a worker's next statement; none where the worker only computes. */
  function StepOfGo(redis: bool, f: Fleet, w: WorkerName, input: Worker.Input): Option<Protocol.Step>
    requires w in f.workers
  {
    var here := f.workers[w].place;
    match here
    case Off => None
    case Ready => if Begun(redis, f, w, input).workers[w].place.Off? then Some(Protocol.Crash(w)) else None
    case Seeking(_, wants) =>
      if wants == [] || Look(f.rows, wants[0]).None? then None
      else Some(SelectStep(w, wants[0], Look(f.rows, wants[0]).value))
    case Chose(_, _, _) => Some(Protocol.Claim(w))
    case Working(_, rest, _) => Some(if rest == [] then Protocol.Return(w) else StepOf(w, rest[0]))
  }

  function StepOfMove(redis: bool, f: Fleet, move: Move): Option<Protocol.Step> {
    match move
    case Produce(step) => if OfWorker(step) then None else Some(step)
    case Go(w, input) => if w in f.workers then StepOfGo(redis, f, w, input) else None
    case Die(w) => if w in f.workers then Some(Protocol.Crash(w)) else None
    case Boot(w, _) => if w in f.workers && f.workers[w].place.Off? then Some(Protocol.Restart(w)) else None
  }

  function Stepped(serial: bool, u: Protocol.State, step: Option<Protocol.Step>): Protocol.State {
    if step.Some? then Protocol.Apply(serial, u, step.value) else u
  }

  /** One worker and the table have moved, in the fleet and in the protocol alike. */
  lemma WorkerShows(f: Fleet, u: Protocol.State, g: Fleet, v: Protocol.State, w: WorkerName)
    requires Shows(f, u) && w in f.workers && w in g.workers
    requires g == f.(rows := g.rows, workers := f.workers[w := g.workers[w]])
    requires WellPlaced(g.workers[w].place) && Becomes(u, v, g.rows, w, PhaseAt(g.workers[w].place))
    ensures Shows(g, v)
  {
  }

  lemma GoFollows(serial: bool, redis: bool, f: Fleet, u: Protocol.State, w: WorkerName, input: Worker.Input)
    requires Shows(f, u) && w in f.workers
    ensures Shows(Gone(redis, f, w, input), Stepped(serial, u, StepOfGo(redis, f, w, input)))
  {
    match f.workers[w].place
    case Off =>
    case Ready => BegunFollows(serial, redis, f, u, w, input);
    case Seeking(_, _) => SoughtFollows(serial, redis, f, u, w, input);
    case Chose(_, _, _) => TakenFollows(serial, f, u, w);
    case Working(_, _, _) => WorkedFollows(serial, f, u, w);
  }

  lemma BegunFollows(serial: bool, redis: bool, f: Fleet, u: Protocol.State, w: WorkerName, input: Worker.Input)
    requires Shows(f, u) && w in f.workers && f.workers[w].place.Ready?
    ensures var g := Begun(redis, f, w, input);
            Shows(g, if g.workers[w].place.Off? then Protocol.Apply(serial, u, Protocol.Crash(w)) else u)
  {
    var g := Begun(redis, f, w, input);
    StepEffect(serial, u, Protocol.Crash(w));
    WorkerShows(f, u, g, if g.workers[w].place.Off? then Protocol.Apply(serial, u, Protocol.Crash(w)) else u, w);
  }

  lemma SoughtFollows(serial: bool, redis: bool, f: Fleet, u: Protocol.State, w: WorkerName, input: Worker.Input)
    requires Shows(f, u) && w in f.workers && f.workers[w].place.Seeking?
    ensures Shows(Sought(f, w), Stepped(serial, u, StepOfGo(redis, f, w, input)))
  {
    var step := StepOfGo(redis, f, w, input);
    if step.Some? {
      StepEffect(serial, u, step.value);
    }
    WorkerShows(f, u, Sought(f, w), Stepped(serial, u, step), w);
  }

  lemma TakenFollows(serial: bool, f: Fleet, u: Protocol.State, w: WorkerName)
    requires Shows(f, u) && w in f.workers && f.workers[w].place.Chose?
    ensures Shows(Taken(f, w), Protocol.Apply(serial, u, Protocol.Claim(w)))
  {
    var here := f.workers[w].place;
    ScriptIsWhole(LocalWorld(f.workers[w].own, here.input, here.selected, w), here.selected.row, here.input.env);
    StepEffect(serial, u, Protocol.Claim(w));
    WorkerShows(f, u, Taken(f, w), Protocol.Apply(serial, u, Protocol.Claim(w)), w);
  }

  lemma WorkedFollows(serial: bool, f: Fleet, u: Protocol.State, w: WorkerName)
    requires Shows(f, u) && w in f.workers && f.workers[w].place.Working?
    ensures var rest := f.workers[w].place.rest;
            Shows(Worked(f, w), Protocol.Apply(serial, u, if rest == [] then Protocol.Return(w) else StepOf(w, rest[0])))
  {
    var here := f.workers[w].place;
    var step := if here.rest == [] then Protocol.Return(w) else StepOf(w, here.rest[0]);
    StepEffect(serial, u, step);
    WorkerShows(f, u, Worked(f, w), Protocol.Apply(serial, u, step), w);
  }

  lemma ProduceFollows(serial: bool, f: Fleet, u: Protocol.State, step: Protocol.Step)
    requires Shows(f, u) && !OfWorker(step)
    ensures Shows(Produced(serial, f, step), Protocol.Apply(serial, u, step))
  {
  }

  /** Every move of a fleet is a step of the protocol, or none. */
  lemma MoveFollows(serial: bool, redis: bool, f: Fleet, u: Protocol.State, move: Move)
    requires Shows(f, u)
    ensures Shows(Do(serial, redis, f, move), Stepped(serial, u, StepOfMove(redis, f, move)))
  {
    var step := StepOfMove(redis, f, move);
    match move
    case Produce(p) => if !OfWorker(p) { ProduceFollows(serial, f, u, p); }
    case Go(w, input) => if w in f.workers { GoFollows(serial, redis, f, u, w, input); }
    case _ =>
      if step.Some? {
        StepEffect(serial, u, step.value);
        WorkerShows(f, u, Do(serial, redis, f, move), Stepped(serial, u, step), move.w);
      }
  }

  /** Every run of a fleet, however its loops interleave, die and start again, is a run of the protocol. */
  lemma {:induction false} FleetFollows(serial: bool, redis: bool, workers: set<WorkerName>, own: Worker.World, moves: seq<Move>)
    returns (steps: seq<Protocol.Step>)
    ensures |steps| <= |moves|
    ensures Shows(DoAll(serial, redis, Begin(workers, own), moves), Protocol.Exec(serial, Protocol.Init(workers), steps))
    decreases |moves|
  {
    steps := [];
    if moves != [] {
      var init, last := moves[..|moves| - 1], moves[|moves| - 1];
      steps := FleetFollows(serial, redis, workers, own, init);
      var f, u := DoAll(serial, redis, Begin(workers, own), init), Protocol.Exec(serial, Protocol.Init(workers), steps);
      MoveFollows(serial, redis, f, u, last);
      var step := StepOfMove(redis, f, last);
      if step.Some? {
        Protocol.ExecLast(serial, Protocol.Init(workers), steps, step.value);
        steps := steps + [step.value];
      }
    }
  }

  // ----- what the loops keep -------------------------------------------------------------------------

  predicate WorksOn(f: Fleet, w: WorkerName, id: JobId) {
    w in f.workers && f.workers[w].place.Working? && f.workers[w].place.id == id
  }

  /** In no run of any number of loops do two of them work on one job; its row carries the worker's name. */
  lemma LoopsExclude(serial: bool, redis: bool, workers: set<WorkerName>, own: Worker.World, moves: seq<Move>,
                     v: WorkerName, w: WorkerName, id: JobId)
    requires var f := DoAll(serial, redis, Begin(workers, own), moves); WorksOn(f, v, id) && WorksOn(f, w, id)
    ensures v == w
    ensures var f := DoAll(serial, redis, Begin(workers, own), moves);
            id in f.rows && f.rows[id].worker == Some(w) && f.rows[id].status != Pending
  {
    var steps := FleetFollows(serial, redis, workers, own, moves);
    Protocol.Exclusive(serial, workers, steps, v, w);
  }

  /** A move of the fleet changes a row only as the claim of a pending row, or by the worker named on it, in its
      handler or when it starts again. */
  lemma LoopsWriteTheirOwn(serial: bool, redis: bool, workers: set<WorkerName>, own: Worker.World, moves: seq<Move>,
                           move: Move, id: JobId)
    requires id in DoAll(serial, redis, Begin(workers, own), moves).rows
    ensures var f := DoAll(serial, redis, Begin(workers, own), moves);
            var g := Do(serial, redis, f, move);
            && id in g.rows
            && (g.rows[id] != f.rows[id] ==>
                  || (move.Boot? && f.rows[id].worker == Some(move.w))
                  || (move.Go? && WorksOn(f, move.w, id) && f.rows[id].worker == Some(move.w))
                  || (move.Go? && WorksOn(g, move.w, id) && f.rows[id].status == Pending && g.rows[id].worker == Some(move.w)))
  {
    var steps := FleetFollows(serial, redis, workers, own, moves);
    Protocol.ExecKeepsInv(serial, Protocol.Init(workers), steps);
    MoveWrites(serial, redis, DoAll(serial, redis, Begin(workers, own), moves),
               Protocol.Exec(serial, Protocol.Init(workers), steps), move, id);
  }

  lemma MoveWrites(serial: bool, redis: bool, f: Fleet, u: Protocol.State, move: Move, id: JobId)
    requires Shows(f, u) && Protocol.Inv(u) && id in f.rows
    ensures var g := Do(serial, redis, f, move);
            && id in g.rows
            && (g.rows[id] != f.rows[id] ==>
                  || (move.Boot? && f.rows[id].worker == Some(move.w))
                  || (move.Go? && WorksOn(f, move.w, id) && f.rows[id].worker == Some(move.w))
                  || (move.Go? && WorksOn(g, move.w, id) && f.rows[id].status == Pending && g.rows[id].worker == Some(move.w)))
  {
    match move
    case Produce(step) => assert id < u.nextId;
    case Go(w, input) =>
      if w in f.workers && f.workers[w].place.Working? {
        WorkWrites(f, u, w, id);
      } else if w in f.workers {
        ClaimWrites(redis, f, w, input, id);
      }
    case Die(_) =>
    case Boot(_, _) =>
  }

  lemma ClaimWrites(redis: bool, f: Fleet, w: WorkerName, input: Worker.Input, id: JobId)
    requires w in f.workers && !f.workers[w].place.Working? && id in f.rows
    ensures var g := Gone(redis, f, w, input);
            && id in g.rows
            && (g.rows[id] != f.rows[id] ==>
                  WorksOn(g, w, id) && f.rows[id].status == Pending && g.rows[id].worker == Some(w))
  {
  }

  lemma WorkWrites(f: Fleet, u: Protocol.State, w: WorkerName, id: JobId)
    requires Shows(f, u) && Protocol.Inv(u) && id in f.rows && w in f.workers && f.workers[w].place.Working?
    ensures var g := Worked(f, w);
            && id in g.rows
            && (g.rows[id] != f.rows[id] ==> WorksOn(f, w, id) && f.rows[id].worker == Some(w))
  {
    assert Protocol.OwnsWhatItHandles(u, w);
  }

  // ----- one worker alone ----------------------------------------------------------------------------

  /** The next `n` statements of one worker. */
  function Gos(w: WorkerName, input: Worker.Input, n: nat): seq<Move> {
    seq(n, _ => Go(w, input))
  }

  lemma OneMore(serial: bool, redis: bool, f: Fleet, w: WorkerName, input: Worker.Input, n: nat)
    requires w in f.workers
    ensures DoAll(serial, redis, f, Gos(w, input, n + 1))
         == DoAll(serial, redis, Gone(redis, f, w, input), Gos(w, input, n))
    decreases n
  {
    var moves := Gos(w, input, n + 1);
    assert moves[..n] == Gos(w, input, n);
    if n > 0 {
      OneMore(serial, redis, f, w, input, n - 1);
      assert Gos(w, input, n)[..n - 1] == Gos(w, input, n - 1);
    } else {
      assert DoAll(serial, redis, f, moves[..0]) == f;
    }
  }

  /** Left alone in a handler, a worker executes what is left of it and is ready again. */
  lemma {:induction false} HandlerAlone(serial: bool, redis: bool, f: Fleet, w: WorkerName, input: Worker.Input) returns (n: nat)
    requires w in f.workers && f.workers[w].place.Working? && WellPlaced(f.workers[w].place)
    ensures var here := f.workers[w].place;
            DoAll(serial, redis, f, Gos(w, input, n)) == Put(f.(rows := PerformAll(f.rows, here.id, here.rest)), w, Ready)
    decreases |f.workers[w].place.rest|
  {
    var here := f.workers[w].place;
    if here.rest == [] || here.rest[0].Rescue? {
      n := 1;
      OneMore(serial, redis, f, w, input, 0);
      LastStatement(f, w);
    } else {
      var g := Worked(f, w);
      var m := HandlerAlone(serial, redis, g, w, input);
      n := m + 1;
      OneMore(serial, redis, f, w, input, m);
      SameElsewhere(f, g, w, g.rows, f.workers[w].(place := Ready));
    }
  }

  lemma LastStatement(f: Fleet, w: WorkerName)
    requires w in f.workers && f.workers[w].place.Working? && WellPlaced(f.workers[w].place)
    requires var rest := f.workers[w].place.rest; rest == [] || rest[0].Rescue?
    ensures var here := f.workers[w].place;
            Worked(f, w) == Put(f.(rows := PerformAll(f.rows, here.id, here.rest)), w, Ready)
  {
    var here := f.workers[w].place;
    if here.rest != [] {
      OnePerforms(f.rows, here.id, here.rest[0]);
    }
  }

  /** The fleet when `w` has claimed the row it selected. */
  function Claimed(f: Fleet, w: WorkerName, input: Worker.Input, id: JobId): Fleet
    requires w in f.workers && id in f.rows
  {
    Taken(Put(f, w, Chose(input, [], Selected(id, f.rows[id]))), w)
  }

  /** Left alone, it claims the first row that one of its attempts finds, or is ready again. */
  lemma {:induction false} SeekAlone(serial: bool, redis: bool, f: Fleet, w: WorkerName, input: Worker.Input) returns (n: nat)
    requires w in f.workers && f.workers[w].place.Seeking? && f.workers[w].place.input == input
    ensures var found := FirstFound(f.rows, f.workers[w].place.wants);
            DoAll(serial, redis, f, Gos(w, input, n)) ==
              if found.None? then Put(f, w, Ready) else Claimed(f, w, input, found.value)
    decreases |f.workers[w].place.wants|
  {
    var wants := f.workers[w].place.wants;
    var g := Sought(f, w);
    if wants == [] {
      n := 1;
      OneMore(serial, redis, f, w, input, 0);
    } else if Look(f.rows, wants[0]).Some? {
      n := 2;
      OneMore(serial, redis, f, w, input, 1);
      OneMore(serial, redis, g, w, input, 0);
      ClaimedAlike(f, w, input, wants[1..], Look(f.rows, wants[0]).value);
    } else {
      var m := SeekAlone(serial, redis, g, w, input);
      n := m + 1;
      OneMore(serial, redis, f, w, input, m);
      var found := FirstFound(f.rows, wants);
      if found.Some? {
        ClaimedElsewhere(f, g, w, input, found.value);
      }
    }
  }

  lemma ClaimedAlike(f: Fleet, w: WorkerName, input: Worker.Input, wants: seq<Wanted>, id: JobId)
    requires w in f.workers && IsPending(f.rows, id)
    ensures Taken(Put(f, w, Chose(input, wants, Selected(id, f.rows[id]))), w) == Claimed(f, w, input, id)
  {
  }

  lemma ClaimedElsewhere(f: Fleet, g: Fleet, w: WorkerName, input: Worker.Input, id: JobId)
    requires w in f.workers && id in f.rows && w in g.workers && g == Put(f, w, g.workers[w].place)
    ensures Claimed(g, w, input, id) == Claimed(f, w, input, id)
  {
  }

  /** A round that nobody interrupts is the round of the worker loop; and on a table of its own it is the round of
      the lone worker, with the same outcome and the same state of the worker. */
  lemma RoundAlone(serial: bool, redis: bool, f: Fleet, w: WorkerName, input: Worker.Input) returns (n: nat)
    requires w in f.workers && f.workers[w].place.Ready?
    ensures var (d, t, o) := RoundAmong(serial, redis, w, Shared(f), f.workers[w].own, input, Gaps([], []));
            DoAll(serial, redis, f, Gos(w, input, n)) ==
              f.(rows := d.rows, workers := f.workers[w := Process(if o == Worker.Died then Off else Ready, t)])
    ensures f.workers[w].own.rows == f.rows && input.news.jobs == [] ==>
              var (alone, o) := Worker.Round(redis, w, f.workers[w].own, input);
              var g := DoAll(serial, redis, f, Gos(w, input, n));
              && g.rows == alone.rows && w in g.workers && g.workers[w].place == (if o == Worker.Died then Off else Ready)
              && g.workers[w].own == alone.(rows := g.workers[w].own.rows)
  {
    var s := f.workers[w].own;
    n := RoundMoves(serial, redis, f, w, input);
    if s.rows == f.rows && input.news.jobs == [] {
      AloneIsRound(serial, redis, Shared(f), s, w, input);
    }
  }

  lemma RoundMoves(serial: bool, redis: bool, f: Fleet, w: WorkerName, input: Worker.Input) returns (n: nat)
    requires w in f.workers && f.workers[w].place.Ready?
    ensures var (d, t, o) := RoundAmong(serial, redis, w, Shared(f), f.workers[w].own, input, Gaps([], []));
            DoAll(serial, redis, f, Gos(w, input, n)) ==
              f.(rows := d.rows, workers := f.workers[w := Process(if o == Worker.Died then Off else Ready, t)])
  {
    var s := f.workers[w].own;
    if Worker.DiesIn(redis, s, input) {
      n := 1;
      OneMore(serial, redis, f, w, input, 0);
    } else {
      var found := FirstFound(f.rows, Wants(redis, input.delivery));
      if found.None? {
        IdleAmong(serial, redis, Shared(f), s, w, input);
        n := IdleMoves(serial, redis, f, w, input);
      } else {
        BusyAmong(serial, redis, Shared(f), s, w, input, found.value);
        n := BusyMoves(serial, redis, f, w, input, found.value);
      }
    }
  }

  lemma IdleAmong(serial: bool, redis: bool, c: Protocol.State, s: Worker.World, w: WorkerName, input: Worker.Input)
    requires !Worker.DiesIn(redis, s, input) && FirstFound(c.rows, Wants(redis, input.delivery)).None?
    ensures RoundAmong(serial, redis, w, c, s, input, Gaps([], []))
         == (c, Worker.Monitored(Worker.Before(s, input)), Worker.IdleRound)
  {
    ClaimAlone(serial, c, w, Wants(redis, input.delivery));
  }

  lemma BusyAmong(serial: bool, redis: bool, c: Protocol.State, s: Worker.World, w: WorkerName, input: Worker.Input, id: JobId)
    requires !Worker.DiesIn(redis, s, input) && FirstFound(c.rows, Wants(redis, input.delivery)) == Some(id)
    ensures var local := LocalWorld(Worker.Monitored(Worker.Before(s, input)), input, Selected(id, c.rows[id]), w);
            RoundAmong(serial, redis, w, c, s, input, Gaps([], [])) ==
              (PerformAmong(serial, c.(rows := ClaimUpdate(c.rows, id, w)), id, ScriptOf(local, c.rows[id], input.env), []),
               Worker.HandledJob(local, id, input.env), Worker.Handled(id))
  {
    ClaimAlone(serial, c, w, Wants(redis, input.delivery));
  }

  lemma IdleMoves(serial: bool, redis: bool, f: Fleet, w: WorkerName, input: Worker.Input) returns (n: nat)
    requires w in f.workers && f.workers[w].place.Ready? && !Worker.DiesIn(redis, f.workers[w].own, input)
    requires FirstFound(f.rows, Wants(redis, input.delivery)).None?
    ensures DoAll(serial, redis, f, Gos(w, input, n)) ==
              f.(workers := f.workers[w := Process(Ready, Worker.Monitored(Worker.Before(f.workers[w].own, input)))])
  {
    var m := SeekAlone(serial, redis, Begun(redis, f, w, input), w, input);
    n := m + 1;
    OneMore(serial, redis, f, w, input, m);
  }

  lemma BusyMoves(serial: bool, redis: bool, f: Fleet, w: WorkerName, input: Worker.Input, id: JobId) returns (n: nat)
    requires w in f.workers && f.workers[w].place.Ready? && !Worker.DiesIn(redis, f.workers[w].own, input)
    requires FirstFound(f.rows, Wants(redis, input.delivery)) == Some(id)
    ensures var local := LocalWorld(Worker.Monitored(Worker.Before(f.workers[w].own, input)), input,
                                    Selected(id, f.rows[id]), w);
            var d := Shared(f).(rows := ClaimUpdate(f.rows, id, w));
            DoAll(serial, redis, f, Gos(w, input, n)) ==
              f.(rows := PerformAmong(serial, d, id, ScriptOf(local, f.rows[id], input.env), []).rows,
                 workers := f.workers[w := Process(Ready, Worker.HandledJob(local, id, input.env))])
  {
    var g := Begun(redis, f, w, input);
    BegunSeeks(redis, f, w, input);
    var m, k := FoundMoves(serial, redis, g, w, input, id);
    n := 1 + (m + k);
    OneMore(serial, redis, f, w, input, m + k);
    var local := LocalWorld(g.workers[w].own, input, Selected(id, f.rows[id]), w);
    var d := Shared(f).(rows := ClaimUpdate(f.rows, id, w));
    SameElsewhere(f, g, w, PerformAmong(serial, d, id, ScriptOf(local, f.rows[id], input.env), []).rows,
                  Process(Ready, Worker.HandledJob(local, id, input.env)));
  }

  lemma BegunSeeks(redis: bool, f: Fleet, w: WorkerName, input: Worker.Input)
    requires w in f.workers && !Worker.DiesIn(redis, f.workers[w].own, input)
    ensures Begun(redis, f, w, input) == f.(workers := f.workers[w :=
              Process(Seeking(input, Wants(redis, input.delivery)), Worker.Monitored(Worker.Before(f.workers[w].own, input)))])
  {
  }

  lemma SameElsewhere(f: Fleet, g: Fleet, w: WorkerName, rows: Table, process: Process)
    requires w in g.workers && g == f.(rows := g.rows, workers := f.workers[w := g.workers[w]])
    ensures g.(rows := rows, workers := g.workers[w := process]) == f.(rows := rows, workers := f.workers[w := process])
  {
  }

  lemma FoundMoves(serial: bool, redis: bool, f: Fleet, w: WorkerName, input: Worker.Input, id: JobId)
    returns (m: nat, k: nat)
    requires w in f.workers && f.workers[w].place == Seeking(input, Wants(redis, input.delivery))
    requires FirstFound(f.rows, Wants(redis, input.delivery)) == Some(id)
    ensures var local := LocalWorld(f.workers[w].own, input, Selected(id, f.rows[id]), w);
            var d := Shared(f).(rows := ClaimUpdate(f.rows, id, w));
            DoAll(serial, redis, f, Gos(w, input, m + k)) ==
              f.(rows := PerformAmong(serial, d, id, ScriptOf(local, f.rows[id], input.env), []).rows,
                 workers := f.workers[w := Process(Ready, Worker.HandledJob(local, id, input.env))])
  {
    m := SeekAlone(serial, redis, f, w, input);
    k := ClaimedPerforms(serial, redis, f, w, input, id);
    GosAppend(serial, redis, f, w, input, m, k);
  }

  lemma {:induction false} GosAppend(serial: bool, redis: bool, f: Fleet, w: WorkerName, input: Worker.Input, m: nat, k: nat)
    requires w in f.workers
    ensures DoAll(serial, redis, f, Gos(w, input, m + k))
         == DoAll(serial, redis, DoAll(serial, redis, f, Gos(w, input, m)), Gos(w, input, k))
    decreases k
  {
    if k > 0 {
      GosAppend(serial, redis, f, w, input, m, k - 1);
      assert Gos(w, input, m + k)[..m + k - 1] == Gos(w, input, m + k - 1);
      assert Gos(w, input, k)[..k - 1] == Gos(w, input, k - 1);
    }
  }

  lemma ClaimedPerforms(serial: bool, redis: bool, f: Fleet, w: WorkerName, input: Worker.Input, id: JobId) returns (k: nat)
    requires w in f.workers && IsPending(f.rows, id)
    ensures var selected := Selected(id, f.rows[id]);
            var local := LocalWorld(f.workers[w].own, input, selected, w);
            var d := Shared(f).(rows := ClaimUpdate(f.rows, id, w));
            DoAll(serial, redis, Claimed(f, w, input, id), Gos(w, input, k)) ==
              f.(rows := PerformAmong(serial, d, id, ScriptOf(local, selected.row, input.env), []).rows,
                 workers := f.workers[w := Process(Ready, Worker.HandledJob(local, id, input.env))])
  {
    var g := Claimed(f, w, input, id);
    var local := LocalWorld(f.workers[w].own, input, Selected(id, f.rows[id]), w);
    ScriptIsWhole(local, f.rows[id], input.env);
    k := HandlerAlone(serial, redis, g, w, input);
    PerformAlone(serial, Shared(f).(rows := ClaimUpdate(f.rows, id, w)), id, ScriptOf(local, f.rows[id], input.env));
  }
}
