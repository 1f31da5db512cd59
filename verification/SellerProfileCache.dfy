/** The seller-profile cache: entries with a time to live, one load in flight per seller, and copies
    for every caller.

    Objects are references into an explicit heap, so that sharing is visible; a reference is the root of an
    object, and the heap says what the object reads as, with everything nested in it. `DeepCopy.Represents`
    relates this to the objects themselves, and `ProfileObjects` the steps.

    A step is the code between two await points of `get_or_load` or `_load_and_store`; the lock is never held
    across an await, so its critical sections are single steps. Nobody ever finds it taken either, so between
    the loader's return and the store only the running time of that code passes. The model lets other steps
    come there too, and so covers a lock that makes its callers wait. A step that cannot be taken leaves the
    state alone, and a run is any sequence of steps. */
module SellerProfileCache {
  import opened Basics
  import Trees

  type Seller = string
  type Profile = Trees.Tree
  type Time = int
  type Ref = nat
  type TaskId = nat
  type CallerId = nat

  datatype Entry = Entry(value: Ref, expiresAt: Time)

  /** A load: waiting for the loader, holding a result that is not stored yet, stored but still in
      flight, failed but still in flight, finished. */
  datatype Phase = Loading | Loaded(value: Ref, expiresAt: Time) | Stored(value: Ref) | Broken | Done(value: Ref) | Raised

  datatype Task = Task(seller: Seller, phase: Phase)

  datatype Caller = Waiting(seller: Seller, task: TaskId) | Got(seller: Seller, value: Ref) | Failed(seller: Seller)

  /** When the last stored load of a seller returned from its loader, and when it was stored. */
  datatype Load = Load(loadedAt: Time, storedAt: Time)

  /** `outside` holds the references that code outside the cache may change; `produced` and
      `lastLoad` are history that no step reads. */
  datatype State = State(
    now: Time, heap: map<Ref, Profile>, nextRef: Ref, outside: set<Ref>,
    entries: map<Seller, Entry>, inflight: map<Seller, TaskId>,
    tasks: map<TaskId, Task>, nextTask: TaskId, callers: map<CallerId, Caller>,
    produced: map<Seller, set<Profile>>, lastLoad: map<Seller, Load>)

  datatype Step =
    | Call(caller: CallerId, seller: Seller)
    | LoaderReturns(task: TaskId, profile: Profile)
    | LoaderRaises(task: TaskId)
    | StoreResult(task: TaskId)
    | LeaveFlight(task: TaskId)
    | Resume(caller: CallerId)
    | Mutate(target: Ref, profile: Profile)
    | Tick(ticks: nat)

  /** An empty dictionary. */
  const NOTHING := Trees.Nested([], [])

  const EMPTY := State(0, map[], 0, {}, map[], map[], map[], 0, map[], map[], map[])

  // ----- the steps -------------------------------------------------------------------------

  /** A fresh object that code outside the cache will hold. */
  function HandOut(s: State, caller: CallerId, seller: Seller, profile: Profile): State {
    s.(heap := s.heap[s.nextRef := profile], nextRef := s.nextRef + 1,
       outside := s.outside + {s.nextRef}, callers := s.callers[caller := Got(seller, s.nextRef)])
  }

  predicate Fresh(s: State, seller: Seller) {
    seller in s.entries && s.entries[seller].expiresAt >= s.now
  }

  /** The lookup drops an entry that has expired. */
  function Swept(s: State, seller: Seller): State {
    if seller in s.entries && !Fresh(s, seller) then s.(entries := Without(s.entries, seller)) else s
  }

  function Deref(s: State, r: Ref): Profile {
    if r in s.heap then s.heap[r] else NOTHING
  }

  function Produced(s: State, seller: Seller): set<Profile> {
    if seller in s.produced then s.produced[seller] else {}
  }

  function Joined(s: State, caller: CallerId, seller: Seller): State
    requires seller in s.inflight
  {
    s.(callers := s.callers[caller := Waiting(seller, s.inflight[seller])])
  }

  function Launched(s: State, caller: CallerId, seller: Seller): State {
    s.(tasks := s.tasks[s.nextTask := Task(seller, Loading)], nextTask := s.nextTask + 1,
       inflight := s.inflight[seller := s.nextTask],
       callers := s.callers[caller := Waiting(seller, s.nextTask)])
  }

  function Called(s: State, caller: CallerId, seller: Seller): State {
    if Fresh(s, seller) then HandOut(s, caller, seller, Deref(s, s.entries[seller].value))
    else
      var t := Swept(s, seller);
      if seller in t.inflight then Joined(t, caller, seller) else Launched(t, caller, seller)
  }

  function Moved(s: State, task: TaskId, phase: Phase): State
    requires task in s.tasks
  {
    s.(tasks := s.tasks[task := s.tasks[task].(phase := phase)])
  }

  predicate InPhase(s: State, task: TaskId, loading: bool, loaded: bool, ending: bool) {
    && task in s.tasks
    && ((loading && s.tasks[task].phase.Loading?) || (loaded && s.tasks[task].phase.Loaded?)
        || (ending && (s.tasks[task].phase.Stored? || s.tasks[task].phase.Broken?)))
  }

  /** The loader's object stays with the loader; the cache keeps a clone made at once. */
  function Returned(ttl: nat, s: State, task: TaskId, profile: Profile): State {
    if !InPhase(s, task, true, false, false) then s
    else
      var seller := s.tasks[task].seller;
      Moved(s, task, Loaded(s.nextRef + 1, s.now + ttl)).(
        heap := s.heap[s.nextRef := profile][s.nextRef + 1 := profile], nextRef := s.nextRef + 2,
        outside := s.outside + {s.nextRef},
        produced := s.produced[seller := Produced(s, seller) + {profile}])
  }

  function StoredResult(ttl: nat, s: State, task: TaskId): State {
    if !InPhase(s, task, false, true, false) then s
    else
      var seller := s.tasks[task].seller;
      var phase := s.tasks[task].phase;
      Moved(s, task, Stored(phase.value)).(
        entries := s.entries[seller := Entry(phase.value, phase.expiresAt)],
        lastLoad := s.lastLoad[seller := Load(phase.expiresAt - ttl, s.now)])
  }

  function Left(s: State, task: TaskId): State {
    if !InPhase(s, task, false, false, true) then s
    else
      var phase := s.tasks[task].phase;
      Moved(s, task, if phase.Stored? then Done(phase.value) else Raised).(
        inflight := Without(s.inflight, s.tasks[task].seller))
  }

  function Resumed(s: State, caller: CallerId): State {
    if caller !in s.callers || !s.callers[caller].Waiting? then s
    else
      var c := s.callers[caller];
      if c.task !in s.tasks then s
      else
        match s.tasks[c.task].phase
        case Done(value) => HandOut(s, caller, c.seller, Deref(s, value))
        case Raised => s.(callers := s.callers[caller := Failed(c.seller)])
        case _ => s
  }

  function Apply(ttl: nat, s: State, step: Step): State {
    match step
    case Call(caller, seller) => if caller in s.callers then s else Called(s, caller, seller)
    case LoaderReturns(task, profile) => Returned(ttl, s, task, profile)
    case LoaderRaises(task) => if InPhase(s, task, true, false, false) then Moved(s, task, Broken) else s
    case StoreResult(task) => StoredResult(ttl, s, task)
    case LeaveFlight(task) => Left(s, task)
    case Resume(caller) => Resumed(s, caller)
    case Mutate(target, profile) => if target in s.outside then s.(heap := s.heap[target := profile]) else s
    case Tick(ticks) => s.(now := s.now + ticks)
  }

  function Exec(ttl: nat, steps: seq<Step>): State
    decreases |steps|
  {
    if steps == [] then EMPTY else Apply(ttl, Exec(ttl, steps[..|steps| - 1]), steps[|steps| - 1])
  }

  // ----- the class -------------------------------------------------------------------------

  /** The cache with its segments as methods. The callers and the objects belong to the event loop
      around it; they are fields here so that each segment can state its whole effect. */
  class Cache {
    const ttl: nat
    var now: Time
    var heap: map<Ref, Profile>
    var nextRef: Ref
    var entries: map<Seller, Entry>
    var inflight: map<Seller, TaskId>
    var tasks: map<TaskId, Task>
    var nextTask: TaskId
    ghost var outside: set<Ref>
    ghost var produced: map<Seller, set<Profile>>
    ghost var lastLoad: map<Seller, Load>
    ghost var callers: map<CallerId, Caller>

    ghost function View(): State
      reads this
    {
      State(now, heap, nextRef, outside, entries, inflight, tasks, nextTask, callers, produced, lastLoad)
    }

    constructor (ttlSeconds: int)
      ensures View() == EMPTY && ttl == Max(0, ttlSeconds)
    {
      ttl := Max(0, ttlSeconds);
      now, heap, nextRef, outside, entries, inflight := 0, map[], 0, {}, map[], map[];
      tasks, nextTask, callers, produced, lastLoad := map[], 0, map[], map[], map[];
    }

    /** `_clone`: a new object with the same contents. */
    method Clone(r: Ref) returns (copy: Ref)
      modifies this`heap, this`nextRef
      ensures copy == old(nextRef) && nextRef == old(nextRef) + 1
      ensures heap == old(heap)[copy := Deref(old(View()), r)]
    {
      copy := nextRef;
      heap := heap[copy := if r in heap then heap[r] else NOTHING];
      nextRef := nextRef + 1;
    }

    /** `_get_entry_value`: a clone of an entry that has not expired; an expired one is dropped. */
    method GetEntryValue(seller: Seller) returns (value: Option<Ref>)
      modifies this`heap, this`nextRef, this`entries
      ensures Fresh(old(View()), seller) ==>
                && value == Some(old(nextRef)) && entries == old(entries) && nextRef == old(nextRef) + 1
                && heap == old(heap)[old(nextRef) := Deref(old(View()), old(entries)[seller].value)]
      ensures !Fresh(old(View()), seller) ==> value.None? && View() == Swept(old(View()), seller)
    {
      if seller !in entries {
        return None;
      }
      var entry := entries[seller];
      if entry.expiresAt < now {
        entries := Without(entries, seller);
        return None;
      }
      var copy := Clone(entry.value);
      return Some(copy);
    }

    /** Waits for the load in flight, or puts a new one in flight. */
    method JoinOrLaunch(caller: CallerId, seller: Seller) returns (task: TaskId)
      modifies this`tasks, this`nextTask, this`inflight, this`callers
      ensures View() == if seller in old(inflight) then Joined(old(View()), caller, seller)
                        else Launched(old(View()), caller, seller)
      ensures callers[caller] == Waiting(seller, task)
    {
      if seller in inflight {
        task := inflight[seller];
      } else {
        task := nextTask;
        tasks := tasks[task := Task(seller, Loading)];
        nextTask := nextTask + 1;
        inflight := inflight[seller := task];
      }
      callers := callers[caller := Waiting(seller, task)];
    }

    /** `get_or_load` up to its await: an answer at once, or a task to wait for. */
    method BeginGet(caller: CallerId, seller: Seller) returns (value: Option<Ref>, task: TaskId)
      requires caller !in callers
      modifies this
      ensures View() == Called(old(View()), caller, seller)
      ensures caller in callers
      ensures callers[caller] == if value.Some? then Got(seller, value.value) else Waiting(seller, task)
    {
      value := GetEntryValue(seller);
      if value.Some? {
        task := 0;
        outside := outside + {value.value};
        callers := callers[caller := Got(seller, value.value)];
      } else {
        task := JoinOrLaunch(caller, seller);
      }
    }

    /** The loader's own object stays in its hands. */
    method Receive(profile: Profile) returns (original: Ref)
      modifies this`heap, this`nextRef, this`outside
      ensures original == old(nextRef) && nextRef == original + 1
      ensures heap == old(heap)[original := profile] && outside == old(outside) + {original}
    {
      original := nextRef;
      heap := heap[original := profile];
      nextRef := nextRef + 1;
      outside := outside + {original};
    }

    /** `_load_and_store` after the loader has returned: clone, and fix the expiry. */
    method LoaderReturned(task: TaskId, profile: Profile)
      requires task in tasks && tasks[task].phase.Loading?
      modifies this
      ensures View() == Returned(ttl, old(View()), task, profile)
    {
      var original := Receive(profile);
      var value := Clone(original);
      var expiresAt := now + ttl;
      produced := produced[tasks[task].seller :=
        (if tasks[task].seller in produced then produced[tasks[task].seller] else {}) + {profile}];
      tasks := tasks[task := tasks[task].(phase := Loaded(value, expiresAt))];
    }

    /** The first critical section of `_load_and_store`. */
    method StoreEntry(task: TaskId)
      requires task in tasks && tasks[task].phase.Loaded?
      modifies this
      ensures View() == StoredResult(ttl, old(View()), task)
    {
      var seller, value, expiresAt := tasks[task].seller, tasks[task].phase.value, tasks[task].phase.expiresAt;
      entries := entries[seller := Entry(value, expiresAt)];
      lastLoad := lastLoad[seller := Load(expiresAt - ttl, now)];
      tasks := tasks[task := tasks[task].(phase := Stored(value))];
    }

    /** The `finally` section: the task leaves the in-flight table whether it stored or failed. */
    method PopInflight(task: TaskId)
      requires task in tasks && (tasks[task].phase.Stored? || tasks[task].phase.Broken?)
      modifies this
      ensures View() == Left(old(View()), task)
    {
      inflight := Without(inflight, tasks[task].seller);
      var phase := if tasks[task].phase.Stored? then Done(tasks[task].phase.value) else Raised;
      tasks := tasks[task := tasks[task].(phase := phase)];
    }

    /** `get_or_load` after its await: a clone of the shared result, or the loader's error. */
    method EndGet(caller: CallerId, seller: Seller, task: TaskId) returns (value: Option<Ref>)
      requires caller in callers && callers[caller] == Waiting(seller, task)
      requires task in tasks && (tasks[task].phase.Done? || tasks[task].phase.Raised?)
      modifies this
      ensures View() == Resumed(old(View()), caller)
      ensures callers[caller] == if value.Some? then Got(seller, value.value) else Failed(seller)
    {
      if tasks[task].phase.Raised? {
        callers := callers[caller := Failed(seller)];
        return None;
      }
      var copy := Clone(tasks[task].phase.value);
      outside := outside + {copy};
      callers := callers[caller := Got(seller, copy)];
      return Some(copy);
    }
  }

  // ----- the invariant ---------------------------------------------------------------------

  predicate Unfinished(t: Task) {
    !t.phase.Done? && !t.phase.Raised?
  }

  predicate HasValue(t: Task) {
    t.phase.Loaded? || t.phase.Stored? || t.phase.Done?
  }

  /** A reference the cache relies on: allocated, unknown outside, holding a loaded profile. */
  predicate Inner(s: State, seller: Seller, r: Ref) {
    r in s.heap && r !in s.outside && s.heap[r] in Produced(s, seller)
  }

  ghost predicate Allocated(s: State) {
    (forall r | r in s.heap :: r < s.nextRef) && s.outside <= s.heap.Keys
  }

  ghost predicate ValuesInner(s: State) {
    && (forall u | u in s.entries :: Inner(s, u, s.entries[u].value))
    && (forall t | t in s.tasks && HasValue(s.tasks[t]) :: Inner(s, s.tasks[t].seller, s.tasks[t].phase.value))
  }

  /** The in-flight table lists exactly the unfinished loads. */
  ghost predicate FlightTable(s: State) {
    && (forall t | t in s.tasks :: t < s.nextTask)
    && (forall u | u in s.inflight ::
          s.inflight[u] in s.tasks && s.tasks[s.inflight[u]].seller == u && Unfinished(s.tasks[s.inflight[u]]))
    && (forall t | t in s.tasks && Unfinished(s.tasks[t]) ::
          s.tasks[t].seller in s.inflight && s.inflight[s.tasks[t].seller] == t)
  }

  ghost predicate CallersSeparate(s: State) {
    && (forall c | c in s.callers && s.callers[c].Got? :: s.callers[c].value in s.outside)
    && (forall c, d | c in s.callers && d in s.callers && c != d && s.callers[c].Got? && s.callers[d].Got? ::
          s.callers[c].value != s.callers[d].value)
    && (forall c | c in s.callers && s.callers[c].Waiting? ::
          s.callers[c].task in s.tasks && s.tasks[s.callers[c].task].seller == s.callers[c].seller)
  }

  /** An entry comes from the last stored load of its seller; a stored load that has no entry any
      more returned more than the time to live ago. */
  ghost predicate Remembered(ttl: nat, s: State) {
    && (forall u | u in s.entries ::
          u in s.lastLoad && s.entries[u].expiresAt == s.lastLoad[u].loadedAt + ttl)
    && (forall u | u in s.lastLoad ::
          && s.lastLoad[u].loadedAt <= s.lastLoad[u].storedAt <= s.now
          && (u in s.entries || s.now > s.lastLoad[u].loadedAt + ttl))
  }

  ghost predicate LoadedEarlier(ttl: nat, s: State) {
    forall t | t in s.tasks && s.tasks[t].phase.Loaded? :: s.tasks[t].phase.expiresAt <= s.now + ttl
  }

  ghost predicate Inv(ttl: nat, s: State) {
    && Allocated(s) && ValuesInner(s) && FlightTable(s) && CallersSeparate(s)
    && Remembered(ttl, s) && LoadedEarlier(ttl, s)
  }

  /** Old values stay inner when no inner object changes, leaks or is forgotten. */
  lemma ValuesFrame(s: State, t: State)
    requires ValuesInner(s)
    requires forall u | u in t.entries ::
               (u in s.entries && t.entries[u] == s.entries[u]) || Inner(t, u, t.entries[u].value)
    requires forall i | i in t.tasks && HasValue(t.tasks[i]) ::
               (i in s.tasks && HasValue(s.tasks[i]) && t.tasks[i].phase.value == s.tasks[i].phase.value
                && t.tasks[i].seller == s.tasks[i].seller)
               || Inner(t, t.tasks[i].seller, t.tasks[i].phase.value)
    requires forall r | r in s.heap && r !in s.outside :: r in t.heap && t.heap[r] == s.heap[r] && r !in t.outside
    requires forall u :: Produced(s, u) <= Produced(t, u)
    ensures ValuesInner(t)
  {
    forall u | u in t.entries ensures Inner(t, u, t.entries[u].value) {
      assert u in s.entries ==> Inner(s, u, s.entries[u].value);
    }
    forall i | i in t.tasks && HasValue(t.tasks[i]) ensures Inner(t, t.tasks[i].seller, t.tasks[i].phase.value) {
      assert i in s.tasks && HasValue(s.tasks[i]) ==> Inner(s, s.tasks[i].seller, s.tasks[i].phase.value);
    }
  }

  lemma HandOutKeepsInv(ttl: nat, s: State, caller: CallerId, seller: Seller, profile: Profile)
    requires Inv(ttl, s)
    ensures Inv(ttl, HandOut(s, caller, seller, profile))
  {
    ValuesFrame(s, HandOut(s, caller, seller, profile));
  }

  lemma SweepKeepsInv(ttl: nat, s: State, seller: Seller)
    requires Inv(ttl, s)
    ensures Inv(ttl, Swept(s, seller))
  {
    var t := Swept(s, seller);
    if t != s {
      ValuesFrame(s, t);
      assert FlightTable(t) && CallersSeparate(t);
    }
  }

  lemma JoinKeepsInv(ttl: nat, s: State, caller: CallerId, seller: Seller)
    requires Inv(ttl, s) && seller in s.inflight
    ensures Inv(ttl, Joined(s, caller, seller))
  {
    ValuesFrame(s, Joined(s, caller, seller));
  }

  lemma LaunchKeepsInv(ttl: nat, s: State, caller: CallerId, seller: Seller)
    requires Inv(ttl, s) && seller !in s.inflight
    ensures Inv(ttl, Launched(s, caller, seller))
  {
    ValuesFrame(s, Launched(s, caller, seller));
    LaunchKeepsTables(s, caller, seller);
  }

  lemma LaunchKeepsTables(s: State, caller: CallerId, seller: Seller)
    requires FlightTable(s) && CallersSeparate(s) && seller !in s.inflight
    ensures FlightTable(Launched(s, caller, seller))
    ensures CallersSeparate(Launched(s, caller, seller))
  {
    var t := Launched(s, caller, seller);
    forall i | i in t.tasks && Unfinished(t.tasks[i])
      ensures t.tasks[i].seller in t.inflight && t.inflight[t.tasks[i].seller] == i
    {
      assert i == s.nextTask || i in s.tasks;
    }
    forall c | c in t.callers && t.callers[c].Waiting?
      ensures t.callers[c].task in t.tasks && t.tasks[t.callers[c].task].seller == t.callers[c].seller
    {
      assert c == caller || c in s.callers;
    }
  }

  lemma CallKeepsInv(ttl: nat, s: State, caller: CallerId, seller: Seller)
    requires Inv(ttl, s)
    ensures Inv(ttl, Called(s, caller, seller))
  {
    if Fresh(s, seller) {
      HandOutKeepsInv(ttl, s, caller, seller, Deref(s, s.entries[seller].value));
    } else {
      SweepKeepsInv(ttl, s, seller);
      var t := Swept(s, seller);
      if seller in t.inflight {
        JoinKeepsInv(ttl, t, caller, seller);
      } else {
        LaunchKeepsInv(ttl, t, caller, seller);
      }
    }
  }

  /** A load that moves on without finishing leaves the in-flight table and the callers as they are. */
  lemma MovedKeepsTables(s: State, t: State, task: TaskId, phase: Phase)
    requires FlightTable(s) && CallersSeparate(s) && task in s.tasks
    requires t.tasks == s.tasks[task := s.tasks[task].(phase := phase)]
    requires Unfinished(s.tasks[task]) && Unfinished(t.tasks[task])
    requires t.inflight == s.inflight && t.nextTask == s.nextTask && t.callers == s.callers && s.outside <= t.outside
    ensures FlightTable(t) && CallersSeparate(t)
  {
  }

  lemma ReturnKeepsInv(ttl: nat, s: State, task: TaskId, profile: Profile)
    requires Inv(ttl, s)
    ensures Inv(ttl, Returned(ttl, s, task, profile))
  {
    var t := Returned(ttl, s, task, profile);
    if InPhase(s, task, true, false, false) {
      MovedKeepsTables(s, t, task, Loaded(s.nextRef + 1, s.now + ttl));
      ReturnKeepsValues(ttl, s, task, profile);
      assert Allocated(t) && Remembered(ttl, t);
    }
  }

  lemma ReturnKeepsValues(ttl: nat, s: State, task: TaskId, profile: Profile)
    requires Allocated(s) && ValuesInner(s) && InPhase(s, task, true, false, false)
    ensures ValuesInner(Returned(ttl, s, task, profile))
  {
    var t := Returned(ttl, s, task, profile);
    assert Inner(t, t.tasks[task].seller, t.tasks[task].phase.value);
    ValuesFrame(s, t);
  }

  lemma BreakKeepsInv(ttl: nat, s: State, task: TaskId)
    requires Inv(ttl, s) && InPhase(s, task, true, false, false)
    ensures Inv(ttl, Moved(s, task, Broken))
  {
    ValuesFrame(s, Moved(s, task, Broken));
  }

  lemma StoreKeepsInv(ttl: nat, s: State, task: TaskId)
    requires Inv(ttl, s)
    ensures Inv(ttl, StoredResult(ttl, s, task))
  {
    var t := StoredResult(ttl, s, task);
    if InPhase(s, task, false, true, false) {
      MovedKeepsTables(s, t, task, Stored(s.tasks[task].phase.value));
      StoreKeepsValues(ttl, s, task);
      assert Allocated(t) && Remembered(ttl, t);
    }
  }

  lemma StoreKeepsValues(ttl: nat, s: State, task: TaskId)
    requires ValuesInner(s) && InPhase(s, task, false, true, false)
    ensures ValuesInner(StoredResult(ttl, s, task))
  {
    var t := StoredResult(ttl, s, task);
    assert Inner(s, s.tasks[task].seller, s.tasks[task].phase.value);
    assert Inner(t, s.tasks[task].seller, s.tasks[task].phase.value);
    ValuesFrame(s, t);
  }

  lemma LeaveKeepsInv(ttl: nat, s: State, task: TaskId)
    requires Inv(ttl, s)
    ensures Inv(ttl, Left(s, task))
  {
    if InPhase(s, task, false, false, true) {
      ValuesFrame(s, Left(s, task));
    }
  }

  lemma FailedKeepsInv(ttl: nat, s: State, caller: CallerId)
    requires Inv(ttl, s) && caller in s.callers && s.callers[caller].Waiting?
    ensures Inv(ttl, s.(callers := s.callers[caller := Failed(s.callers[caller].seller)]))
  {
    var t := s.(callers := s.callers[caller := Failed(s.callers[caller].seller)]);
    ValuesFrame(s, t);
    assert FlightTable(t);
  }

  lemma ResumeKeepsInv(ttl: nat, s: State, caller: CallerId)
    requires Inv(ttl, s)
    ensures Inv(ttl, Resumed(s, caller))
  {
    if caller in s.callers && s.callers[caller].Waiting? {
      var c := s.callers[caller];
      if s.tasks[c.task].phase.Done? {
        HandOutKeepsInv(ttl, s, caller, c.seller, Deref(s, s.tasks[c.task].phase.value));
      } else if s.tasks[c.task].phase.Raised? {
        FailedKeepsInv(ttl, s, caller);
      }
    }
  }

  lemma MutateKeepsInv(ttl: nat, s: State, target: Ref, profile: Profile)
    requires Inv(ttl, s) && target in s.outside
    ensures Inv(ttl, s.(heap := s.heap[target := profile]))
  {
    ValuesFrame(s, s.(heap := s.heap[target := profile]));
  }

  lemma TickKeepsInv(ttl: nat, s: State, ticks: nat)
    requires Inv(ttl, s)
    ensures Inv(ttl, s.(now := s.now + ticks))
  {
    ValuesFrame(s, s.(now := s.now + ticks));
  }

  lemma ApplyKeepsInv(ttl: nat, s: State, step: Step)
    requires Inv(ttl, s)
    ensures Inv(ttl, Apply(ttl, s, step))
  {
    match step
    case Call(caller, seller) => CallKeepsInv(ttl, s, caller, seller);
    case LoaderReturns(task, profile) => ReturnKeepsInv(ttl, s, task, profile);
    case LoaderRaises(task) =>
      if InPhase(s, task, true, false, false) {
        BreakKeepsInv(ttl, s, task);
      }
    case StoreResult(task) => StoreKeepsInv(ttl, s, task);
    case LeaveFlight(task) => LeaveKeepsInv(ttl, s, task);
    case Resume(caller) => ResumeKeepsInv(ttl, s, caller);
    case Mutate(target, profile) =>
      if target in s.outside {
        MutateKeepsInv(ttl, s, target, profile);
      }
    case Tick(ticks) => TickKeepsInv(ttl, s, ticks);
  }

  lemma {:induction false} ExecKeepsInv(ttl: nat, steps: seq<Step>)
    ensures Inv(ttl, Exec(ttl, steps))
    decreases |steps|
  {
    if steps != [] {
      ExecKeepsInv(ttl, steps[..|steps| - 1]);
      ApplyKeepsInv(ttl, Exec(ttl, steps[..|steps| - 1]), steps[|steps| - 1]);
    }
  }

  // ----- what every run guarantees ---------------------------------------------------------

  ghost predicate Reachable(ttl: nat, s: State) {
    exists steps :: s == Exec(ttl, steps)
  }

  lemma ReachableInv(ttl: nat, s: State)
    requires Reachable(ttl, s)
    ensures Inv(ttl, s)
  {
    var steps :| s == Exec(ttl, steps);
    ExecKeepsInv(ttl, steps);
  }

  /** At most one load per seller is under way at any time. */
  lemma SingleFlight(ttl: nat, s: State, a: TaskId, b: TaskId)
    requires Reachable(ttl, s)
    requires a in s.tasks && b in s.tasks && s.tasks[a].seller == s.tasks[b].seller
    requires Unfinished(s.tasks[a]) && Unfinished(s.tasks[b])
    ensures a == b
  {
    ReachableInv(ttl, s);
  }

  /** A call starts a new load exactly when there is neither a fresh entry nor a load in flight, and
      then the last stored load of that seller returned more than the time to live ago. An answer
      given at once comes from a load that is at most the time to live old. */
  lemma ReloadGap(ttl: nat, s: State, caller: CallerId, seller: Seller)
    requires Reachable(ttl, s) && caller !in s.callers
    ensures StartsLoad(ttl, s, caller, seller) <==> !Fresh(s, seller) && seller !in s.inflight
    ensures StartsLoad(ttl, s, caller, seller) && seller in s.lastLoad ==> s.now > s.lastLoad[seller].loadedAt + ttl
    ensures Fresh(s, seller) ==> seller in s.lastLoad && s.now <= s.lastLoad[seller].loadedAt + ttl
  {
    ReachableInv(ttl, s);
  }

  /** The object `r` is new, unknown to the cache and to every caller but `c`, and a copy of a
      profile that some load of the caller's seller produced. */
  ghost predicate IsPrivateCopy(s: State, t: State, c: CallerId) {
    && c in t.callers && t.callers[c].Got?
    && var r := t.callers[c].value;
    && r !in s.heap && r in t.heap
    && t.heap[r] in Produced(s, t.callers[c].seller)
    && (forall u | u in t.entries :: t.entries[u].value != r)
    && (forall i | i in t.tasks && HasValue(t.tasks[i]) :: t.tasks[i].phase.value != r)
    && (forall d | d in t.callers && d != c && t.callers[d].Got? :: t.callers[d].value != r)
  }

  lemma HandOutIsPrivate(ttl: nat, s: State, c: CallerId, seller: Seller, profile: Profile)
    requires Inv(ttl, s) && profile in Produced(s, seller)
    ensures IsPrivateCopy(s, HandOut(s, c, seller, profile), c)
  {
    forall u | u in s.entries ensures s.entries[u].value != s.nextRef {
      assert Inner(s, u, s.entries[u].value);
    }
    forall i | i in s.tasks && HasValue(s.tasks[i]) ensures s.tasks[i].phase.value != s.nextRef {
      assert Inner(s, s.tasks[i].seller, s.tasks[i].phase.value);
    }
  }

  /** The step hands the caller its answer. */
  predicate Answers(s: State, t: State, c: CallerId) {
    c in t.callers && t.callers[c].Got? && (c !in s.callers || !s.callers[c].Got?)
  }

  /** Whatever step hands a caller its answer, the answer is a private copy of a completed load. */
  lemma AnswersAreCopies(ttl: nat, s: State, step: Step, c: CallerId)
    requires Reachable(ttl, s) && Answers(s, Apply(ttl, s, step), c)
    ensures IsPrivateCopy(s, Apply(ttl, s, step), c)
  {
    ReachableInv(ttl, s);
    match step
    case Call(caller, seller) =>
      if caller !in s.callers {
        CallAnswers(ttl, s, caller, seller, c);
      }
    case Resume(caller) => ResumeAnswers(ttl, s, caller, c);
    case _ => OtherStepsAnswerNobody(ttl, s, step);
  }

  lemma CallAnswers(ttl: nat, s: State, caller: CallerId, seller: Seller, c: CallerId)
    requires Inv(ttl, s) && Answers(s, Called(s, caller, seller), c)
    ensures IsPrivateCopy(s, Called(s, caller, seller), c)
  {
    AnswerOfCall(ttl, s, caller, seller);
  }

  lemma ResumeAnswers(ttl: nat, s: State, caller: CallerId, c: CallerId)
    requires Inv(ttl, s) && Answers(s, Resumed(s, caller), c)
    ensures IsPrivateCopy(s, Resumed(s, caller), c)
  {
    AnswerOfResume(ttl, s, caller);
  }

  lemma AnswerOfCall(ttl: nat, s: State, c: CallerId, seller: Seller)
    requires Inv(ttl, s)
    ensures Fresh(s, seller) ==> IsPrivateCopy(s, Called(s, c, seller), c)
    ensures !Fresh(s, seller) ==> exists task :: Called(s, c, seller).callers == s.callers[c := Waiting(seller, task)]
    ensures forall d | d != c && d in Called(s, c, seller).callers ::
              d in s.callers && Called(s, c, seller).callers[d] == s.callers[d]
  {
    if Fresh(s, seller) {
      assert Inner(s, seller, s.entries[seller].value);
      HandOutIsPrivate(ttl, s, c, seller, Deref(s, s.entries[seller].value));
    } else {
      var t := Swept(s, seller);
      var task := if seller in t.inflight then t.inflight[seller] else t.nextTask;
      assert Called(s, c, seller).callers == s.callers[c := Waiting(seller, task)];
    }
  }

  lemma AnswerOfResume(ttl: nat, s: State, c: CallerId)
    requires Inv(ttl, s)
    ensures var t := Resumed(s, c);
            || t.callers == s.callers
            || IsPrivateCopy(s, t, c)
            || (c in s.callers && t.callers == s.callers[c := Failed(s.callers[c].seller)])
    ensures forall d | d != c && d in Resumed(s, c).callers :: d in s.callers && Resumed(s, c).callers[d] == s.callers[d]
  {
    if c in s.callers && s.callers[c].Waiting? && s.tasks[s.callers[c].task].phase.Done? {
      var waiting := s.callers[c];
      assert Inner(s, s.tasks[waiting.task].seller, s.tasks[waiting.task].phase.value);
      HandOutIsPrivate(ttl, s, c, waiting.seller, Deref(s, s.tasks[waiting.task].phase.value));
    }
  }

  lemma OtherStepsAnswerNobody(ttl: nat, s: State, step: Step)
    requires !step.Call? && !step.Resume?
    ensures Apply(ttl, s, step).callers == s.callers
  {
  }

  /** Changing an object that was handed out, or the loader's own object, changes nothing in the
      cache, in a pending result, or in another caller's answer: whatever changes is that object, and
      it is neither the value of an entry nor of a load. */
  lemma {:induction false} MutationIsPrivate(ttl: nat, s: State, target: Ref, profile: Profile, r: Ref)
    requires Reachable(ttl, s)
    requires Deref(Apply(ttl, s, Mutate(target, profile)), r) != Deref(s, r)
    ensures r == target && r in s.outside
    ensures forall u | u in s.entries :: s.entries[u].value != r
    ensures forall i | i in s.tasks && HasValue(s.tasks[i]) :: s.tasks[i].phase.value != r
  {
    InnerStaysInside(ttl, s);
    MutateChanges(ttl, s, target, profile, r);
  }

  lemma MutateChanges(ttl: nat, s: State, target: Ref, profile: Profile, r: Ref)
    requires Deref(Apply(ttl, s, Mutate(target, profile)), r) != Deref(s, r)
    ensures r == target && r in s.outside
  {
  }

  lemma InnerStaysInside(ttl: nat, s: State)
    requires Reachable(ttl, s)
    ensures forall u | u in s.entries :: s.entries[u].value !in s.outside
    ensures forall i | i in s.tasks && HasValue(s.tasks[i]) :: s.tasks[i].phase.value !in s.outside
  {
    ReachableInv(ttl, s);
    forall u | u in s.entries ensures s.entries[u].value !in s.outside {
      assert Inner(s, u, s.entries[u].value);
    }
    forall i | i in s.tasks && HasValue(s.tasks[i]) ensures s.tasks[i].phase.value !in s.outside {
      assert Inner(s, s.tasks[i].seller, s.tasks[i].phase.value);
    }
  }

  // ----- the gap is counted from the loader's return, not from the store -------------------

  /** The expiry is fixed before the lock is taken. Of all the later moments at which a call may
      start a load, every one lies more than the time to live after the store exactly when no time
      passed between the loader's return and the store, or that much time has passed already. */
  lemma GapAfterStoreIff(ttl: nat, s: State, seller: Seller)
    requires Reachable(ttl, s) && seller in s.entries && seller !in s.inflight
    ensures seller in s.lastLoad
    ensures (forall ticks: nat | MayStartLoadAfter(ttl, s, ticks, seller) ::
               s.now + ticks > s.lastLoad[seller].storedAt + ttl)
            <==> s.lastLoad[seller].storedAt == s.lastLoad[seller].loadedAt
                 || s.now > s.lastLoad[seller].storedAt + ttl
  {
    ReachableInv(ttl, s);
    var load := s.lastLoad[seller];
    forall ticks: nat
      ensures MayStartLoadAfter(ttl, s, ticks, seller) <==> s.now + ticks > load.loadedAt + ttl
    {
      var caller := UnusedCaller(s.callers.Keys);
      var later := s.(now := s.now + ticks);
      if s.now + ticks > load.loadedAt + ttl {
        assert !Fresh(later, seller);
        assert StartsLoad(ttl, later, caller, seller);
      } else {
        assert Fresh(later, seller);
      }
    }
    if load.storedAt != load.loadedAt && s.now <= load.storedAt + ttl {
      var ticks: nat := load.storedAt + ttl - s.now;
      assert MayStartLoadAfter(ttl, s, ticks, seller);
    }
  }

  lemma {:induction false} ReachNext(ttl: nat, s: State, step: Step)
    requires Reachable(ttl, s)
    ensures Reachable(ttl, Apply(ttl, s, step))
  {
    var steps :| s == Exec(ttl, steps);
    assert (steps + [step])[..|steps|] == steps;
    assert Exec(ttl, steps + [step]) == Apply(ttl, s, step);
  }

  /** One load that has returned from its loader and has not stored its result yet. */
  lemma {:induction false} LoadedOnce(ttl: nat, seller: Seller, profile: Profile) returns (s: State)
    ensures Reachable(ttl, s) && s.tasks == map[0 := Task(seller, Loaded(1, ttl))] && s.now == 0
  {
    s := EMPTY;
    assert Exec(ttl, []) == s;
    ReachNext(ttl, s, Call(0, seller));
    s := Apply(ttl, s, Call(0, seller));
    assert s == Launched(EMPTY, 0, seller);
    ReachNext(ttl, s, LoaderReturns(0, profile));
    s := Apply(ttl, s, LoaderReturns(0, profile));
  }

  lemma {:induction false} StoreThenLeave(ttl: nat, s: State, seller: Seller, value: Ref, expiresAt: Time)
    requires s.tasks == map[0 := Task(seller, Loaded(value, expiresAt))]
    ensures var t := Left(StoredResult(ttl, s, 0), 0);
            && seller in t.entries && seller !in t.inflight && seller in t.lastLoad
            && t.lastLoad[seller] == Load(expiresAt - ttl, s.now)
  {
    var t := StoredResult(ttl, s, 0);
    assert t.tasks == map[0 := Task(seller, Stored(value))];
  }

  lemma {:induction false} ReachStored(ttl: nat, s: State)
    requires Reachable(ttl, s)
    ensures Reachable(ttl, StoredResult(ttl, s, 0))
  {
    ReachNext(ttl, s, StoreResult(0));
  }

  lemma {:induction false} ReachLeft(ttl: nat, s: State)
    requires Reachable(ttl, s)
    ensures Reachable(ttl, Left(s, 0))
  {
    ReachNext(ttl, s, LeaveFlight(0));
  }

  lemma {:induction false} ReachLater(ttl: nat, s: State, ticks: nat)
    requires Reachable(ttl, s)
    ensures Reachable(ttl, s.(now := s.now + ticks))
  {
    ReachNext(ttl, s, Tick(ticks));
  }

  /** Any amount of time can pass between the loader's return and the store. In the code it is the running time
      of the lines between; a lock that others hold across an await would add to it. */
  lemma {:induction false} StoreMayBeLate(ttl: nat, seller: Seller, profile: Profile, ticks: nat) returns (s: State)
    ensures Reachable(ttl, s) && seller in s.entries && seller !in s.inflight && seller in s.lastLoad
    ensures s.lastLoad[seller].storedAt == s.lastLoad[seller].loadedAt + ticks
  {
    var loaded := LoadedOnce(ttl, seller, profile);
    var later := loaded.(now := loaded.now + ticks);
    ReachLater(ttl, loaded, ticks);
    s := StoredLate(ttl, later, seller);
  }

  lemma {:induction false} StoredLate(ttl: nat, later: State, seller: Seller) returns (s: State)
    requires Reachable(ttl, later) && later.tasks == map[0 := Task(seller, Loaded(1, ttl))]
    ensures Reachable(ttl, s) && seller in s.entries && seller !in s.inflight && seller in s.lastLoad
    ensures s.lastLoad[seller] == Load(0, later.now)
  {
    ReachStored(ttl, later);
    ReachLeft(ttl, StoredResult(ttl, later, 0));
    StoreThenLeave(ttl, later, seller, 1, ttl);
    s := Left(StoredResult(ttl, later, 0), 0);
  }

  ghost predicate MayStartLoadAfter(ttl: nat, s: State, ticks: nat, seller: Seller) {
    exists caller | caller !in s.callers :: StartsLoad(ttl, s.(now := s.now + ticks), caller, seller)
  }

  predicate StartsLoad(ttl: nat, s: State, caller: CallerId, seller: Seller) {
    Apply(ttl, s, Call(caller, seller)).nextTask > s.nextTask
  }

  ghost function UnusedCaller(used: set<CallerId>): (c: CallerId)
    ensures c !in used
  {
    SomeUnused(used);
    var c: CallerId :| AllBelow(used, c) && c !in used;
    c
  }

  ghost predicate AllBelow(used: set<CallerId>, top: CallerId) {
    forall c | c in used :: c < top
  }

  lemma SomeUnused(used: set<CallerId>)
    ensures exists top: CallerId :: AllBelow(used, top) && top !in used
    decreases used
  {
    if used == {} {
      assert AllBelow(used, 0);
    } else {
      var x := Member(used);
      SomeUnused(used - {x});
      var top: CallerId :| AllBelow(used - {x}, top) && top !in used - {x};
      var higher: CallerId := Max(top, x + 1);
      assert AllBelow(used, higher) by {
        assert forall c | c in used :: c == x || c in used - {x};
      }
      assert higher !in used;
    }
  }
}
