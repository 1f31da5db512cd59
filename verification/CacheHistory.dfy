/** What the seller-profile cache answers, from the steps of the run alone: which loader returned what and when,
    and which load was stored last. */
module CacheHistory {
  import opened Basics
  import opened SellerProfileCache

  /** The time that has passed. */
  function Clock(steps: seq<Step>): Time
    decreases |steps|
  {
    var n := |steps| - 1;
    if n < 0 then 0 else Clock(steps[..n]) + if steps[n].Tick? then steps[n].ticks else 0
  }

  /** The step did something where it came. */
  predicate Counts(ttl: nat, steps: seq<Step>, n: nat)
    requires n < |steps|
  {
    Exec(ttl, steps[..n + 1]) != Exec(ttl, steps[..n])
  }

  /** What the loader of a load has come to. */
  datatype Ending = Open | Gave(profile: Profile, at: Time) | Broke

  function EndingOf(ttl: nat, steps: seq<Step>, i: TaskId): Ending
    decreases |steps|
  {
    var n := |steps| - 1;
    if n < 0 then Open
    else NextEnding(EndingOf(ttl, steps[..n], i), steps[n], Counts(ttl, steps, n), Clock(steps[..n]), i)
  }

  function NextEnding(ending: Ending, step: Step, counts: bool, now: Time, i: TaskId): Ending {
    if !counts then ending
    else if step.LoaderReturns? && step.task == i then Gave(step.profile, now)
    else if step.LoaderRaises? && step.task == i then Broke
    else ending
  }

  /** The load of this seller that was stored last. */
  function LastStored(ttl: nat, steps: seq<Step>, seller: Seller): Option<TaskId>
    decreases |steps|
  {
    var n := |steps| - 1;
    if n < 0 then None
    else NextStored(LastStored(ttl, steps[..n], seller), Exec(ttl, steps[..n]), steps[n], Counts(ttl, steps, n), seller)
  }

  function NextStored(stored: Option<TaskId>, s: State, step: Step, counts: bool, seller: Seller): Option<TaskId> {
    if counts && step.StoreResult? && step.task in s.tasks && s.tasks[step.task].seller == seller
    then Some(step.task)
    else stored
  }

  lemma OneMoreStep(ttl: nat, steps: seq<Step>, n: nat)
    requires n + 1 == |steps|
    ensures Exec(ttl, steps) == Apply(ttl, Exec(ttl, steps[..n]), steps[n])
    ensures Counts(ttl, steps, n) == (Exec(ttl, steps) != Exec(ttl, steps[..n]))
  {
    assert steps[..n + 1] == steps;
  }

  lemma {:induction false} ClockIsNow(ttl: nat, steps: seq<Step>)
    ensures Exec(ttl, steps).now == Clock(steps)
    decreases |steps|
  {
    if steps != [] {
      var n := |steps| - 1;
      ClockIsNow(ttl, steps[..n]);
      OneMoreStep(ttl, steps, n);
      TimePasses(ttl, Exec(ttl, steps[..n]), steps[n]);
    }
  }

  lemma TimePasses(ttl: nat, s: State, step: Step)
    ensures Apply(ttl, s, step).now == s.now + if step.Tick? then step.ticks else 0
  {
    if step.Call? {
      CalledFrame(s, step.caller, step.seller);
    }
  }

  /** What a call leaves alone: the loads there are, and every entry that has not expired. */
  lemma CalledFrame(s: State, caller: CallerId, called: Seller)
    ensures var t := Called(s, caller, called);
            && t.now == s.now
            && (forall i | i in s.tasks && i != s.nextTask :: i in t.tasks && t.tasks[i] == s.tasks[i])
            && (forall i | i in t.tasks && i !in s.tasks :: t.tasks[i].phase.Loading?)
            && (forall u | u in t.entries :: u in s.entries && t.entries[u] == s.entries[u])
            && (forall u | u in s.entries && u !in t.entries :: s.now > s.entries[u].expiresAt)
  {
    if !Fresh(s, called) {
      SweptFrame(s, called);
      var swept := Swept(s, called);
      if called in swept.inflight {
        assert Called(s, caller, called) == Joined(swept, caller, called);
      } else {
        assert Called(s, caller, called) == Launched(swept, caller, called);
      }
    }
  }

  lemma SweptFrame(s: State, called: Seller)
    ensures var t := Swept(s, called);
            && t == s.(entries := t.entries)
            && (forall u | u in t.entries :: u in s.entries && t.entries[u] == s.entries[u])
            && (forall u | u in s.entries && u !in t.entries :: s.now > s.entries[u].expiresAt)
  {
  }

  /** The steps of a load change no other load. */
  lemma OwnStepFrame(ttl: nat, s: State, step: Step, i: TaskId)
    requires (step.LoaderReturns? || step.LoaderRaises? || step.StoreResult? || step.LeaveFlight?) && step.task != i
    ensures (i in Apply(ttl, s, step).tasks <==> i in s.tasks)
    ensures i in s.tasks ==> Apply(ttl, s, step).tasks[i] == s.tasks[i]
  {
    var t := Apply(ttl, s, step);
    if step.task in s.tasks && t != s {
      OwnStepMoves(ttl, s, step);
    }
  }

  lemma OwnStepMoves(ttl: nat, s: State, step: Step)
    requires (step.LoaderReturns? || step.LoaderRaises? || step.StoreResult? || step.LeaveFlight?)
    requires step.task in s.tasks && Apply(ttl, s, step) != s
    ensures var t := Apply(ttl, s, step); step.task in t.tasks && t.tasks == s.tasks[step.task := t.tasks[step.task]]
  {
    match step
    case LoaderReturns(task, profile) => assert Apply(ttl, s, step) == Returned(ttl, s, task, profile);
    case LoaderRaises(task) => assert Apply(ttl, s, step) == Moved(s, task, Broken);
    case StoreResult(task) => assert Apply(ttl, s, step) == StoredResult(ttl, s, task);
    case LeaveFlight(task) => assert Apply(ttl, s, step) == Left(s, task);
  }

  lemma OutsideFrame(ttl: nat, s: State, step: Step)
    requires step.Resume? || step.Mutate? || step.Tick?
    ensures Apply(ttl, s, step).tasks == s.tasks && Apply(ttl, s, step).entries == s.entries
  {
  }

  // ----- loads -----------------------------------------------------------------------------------

  /** The object holds the profile and nobody outside can change it. */
  predicate Holds(s: State, r: Ref, profile: Profile) {
    r in s.heap && r !in s.outside && s.heap[r] == profile
  }

  /** A load stands where its loader's ending puts it. */
  predicate Stands(ttl: nat, s: State, i: TaskId, ending: Ending) {
    if i !in s.tasks then ending == Open
    else
      match s.tasks[i].phase
      case Loading => ending == Open
      case Loaded(value, expiresAt) => ending.Gave? && Holds(s, value, ending.profile) && expiresAt == ending.at + ttl
      case Stored(value) => ending.Gave? && Holds(s, value, ending.profile)
      case Done(value) => ending.Gave? && Holds(s, value, ending.profile)
      case Broken => ending == Broke
      case Raised => ending == Broke
  }

  /** What an object known only inside holds stays. */
  lemma InsideStays(ttl: nat, s: State, step: Step, r: Ref, profile: Profile)
    requires Inv(ttl, s) && Holds(s, r, profile)
    ensures Holds(Apply(ttl, s, step), r, profile)
  {
    assert r < s.nextRef;
    if step.Call? {
      CallKeepsInside(s, step.caller, step.seller, r);
    }
  }

  lemma CallKeepsInside(s: State, caller: CallerId, seller: Seller, r: Ref)
    requires r in s.heap && r !in s.outside && r < s.nextRef
    ensures var t := Called(s, caller, seller); r in t.heap && t.heap[r] == s.heap[r] && r !in t.outside
  {
    if !Fresh(s, seller) {
      SweptFrame(s, seller);
    }
  }

  /** The phase of a load after a step that is not its own. */
  lemma PhaseStays(ttl: nat, s: State, step: Step, i: TaskId)
    requires i in s.tasks && i < s.nextTask
    requires !((step.LoaderReturns? || step.LoaderRaises? || step.StoreResult? || step.LeaveFlight?) && step.task == i)
    ensures i in Apply(ttl, s, step).tasks && Apply(ttl, s, step).tasks[i] == s.tasks[i]
  {
    if step.Call? {
      CalledFrame(s, step.caller, step.seller);
    } else if step.Resume? || step.Mutate? || step.Tick? {
      OutsideFrame(ttl, s, step);
    } else {
      OwnStepFrame(ttl, s, step, i);
    }
  }

  lemma OthersStand(ttl: nat, s: State, step: Step, i: TaskId, ending: Ending)
    requires Inv(ttl, s) && Stands(ttl, s, i, ending) && i in s.tasks
    requires !((step.LoaderReturns? || step.LoaderRaises? || step.StoreResult? || step.LeaveFlight?) && step.task == i)
    ensures Stands(ttl, Apply(ttl, s, step), i, ending)
  {
    PhaseStays(ttl, s, step, i);
    if ending.Gave? {
      InsideStays(ttl, s, step, s.tasks[i].phase.value, ending.profile);
    }
  }

  lemma NewLoadStands(ttl: nat, s: State, step: Step, i: TaskId)
    requires Inv(ttl, s) && i !in s.tasks
    ensures i in Apply(ttl, s, step).tasks ==> Apply(ttl, s, step).tasks[i].phase.Loading?
  {
    if step.Call? {
      CalledFrame(s, step.caller, step.seller);
    } else if step.Resume? || step.Mutate? || step.Tick? {
      OutsideFrame(ttl, s, step);
    } else if step.task != i {
      OwnStepFrame(ttl, s, step, i);
    }
  }

  lemma OwnStands(ttl: nat, s: State, step: Step, i: TaskId, ending: Ending)
    requires Inv(ttl, s) && Stands(ttl, s, i, ending) && i in s.tasks
    requires (step.LoaderReturns? || step.LoaderRaises? || step.StoreResult? || step.LeaveFlight?) && step.task == i
    ensures var t := Apply(ttl, s, step); Stands(ttl, t, i, NextEnding(ending, step, t != s, s.now, i))
  {
    var t := Apply(ttl, s, step);
    if ending.Gave? {
      InsideStays(ttl, s, step, s.tasks[i].phase.value, ending.profile);
    }
    if step.LoaderReturns? && s.tasks[i].phase.Loading? {
      assert t.tasks[i].phase == Loaded(s.nextRef + 1, s.now + ttl);
    }
  }

  lemma StepStands(ttl: nat, s: State, step: Step, i: TaskId, ending: Ending)
    requires Inv(ttl, s) && Stands(ttl, s, i, ending)
    ensures var t := Apply(ttl, s, step); Stands(ttl, t, i, NextEnding(ending, step, t != s, s.now, i))
  {
    if i !in s.tasks {
      NewLoadStands(ttl, s, step, i);
    } else if (step.LoaderReturns? || step.LoaderRaises? || step.StoreResult? || step.LeaveFlight?) && step.task == i {
      OwnStands(ttl, s, step, i, ending);
    } else {
      OthersStand(ttl, s, step, i, ending);
    }
  }

  lemma {:induction false} LoadStands(ttl: nat, steps: seq<Step>, i: TaskId)
    ensures Stands(ttl, Exec(ttl, steps), i, EndingOf(ttl, steps, i))
    decreases |steps|
  {
    if steps != [] {
      var n := |steps| - 1;
      LoadStands(ttl, steps[..n], i);
      ExecKeepsInv(ttl, steps[..n]);
      OneMoreStep(ttl, steps, n);
      ClockIsNow(ttl, steps[..n]);
      StepStands(ttl, Exec(ttl, steps[..n]), steps[n], i, EndingOf(ttl, steps[..n], i));
    }
  }

  // ----- entries ---------------------------------------------------------------------------------

  /** The entry of a seller is that of the load stored last, and is gone only once that one has expired. */
  predicate Listed(ttl: nat, s: State, seller: Seller, stored: Option<TaskId>, ending: Ending) {
    if stored.None? then seller !in s.entries
    else
      && stored.value in s.tasks && s.tasks[stored.value].seller == seller
      && (s.tasks[stored.value].phase.Stored? || s.tasks[stored.value].phase.Done?)
      && ending.Gave?
      && (if seller in s.entries then s.entries[seller] == Entry(s.tasks[stored.value].phase.value, ending.at + ttl)
          else s.now > ending.at + ttl)
  }

  lemma TickAndMutate(ttl: nat, s: State, step: Step, seller: Seller)
    requires step.Tick? || step.Mutate? || step.Resume? || step.LoaderReturns? || step.LoaderRaises? || step.LeaveFlight?
    ensures Apply(ttl, s, step).entries == s.entries && Apply(ttl, s, step).now >= s.now
  {
  }

  lemma StoredStays(ttl: nat, s: State, step: Step, i: TaskId)
    requires i in s.tasks && i < s.nextTask && (s.tasks[i].phase.Stored? || s.tasks[i].phase.Done?)
    ensures var t := Apply(ttl, s, step);
            && i in t.tasks && t.tasks[i].seller == s.tasks[i].seller
            && (t.tasks[i].phase.Stored? || t.tasks[i].phase.Done?) && t.tasks[i].phase.value == s.tasks[i].phase.value
  {
    if !((step.LoaderReturns? || step.LoaderRaises? || step.StoreResult? || step.LeaveFlight?) && step.task == i) {
      PhaseStays(ttl, s, step, i);
    }
  }

  lemma StoreLists(ttl: nat, s: State, i: TaskId, seller: Seller)
    ensures var t := Apply(ttl, s, StoreResult(i));
            if t != s && i in s.tasks && s.tasks[i].seller == seller
            then s.tasks[i].phase.Loaded? && i in t.tasks && t.tasks[i] == Task(seller, Stored(s.tasks[i].phase.value))
                 && seller in t.entries && t.entries[seller] == Entry(s.tasks[i].phase.value, s.tasks[i].phase.expiresAt)
            else t.now == s.now && (seller in t.entries <==> seller in s.entries)
                 && (seller in s.entries ==> t.entries[seller] == s.entries[seller])
  {
  }

  lemma StepLists(ttl: nat, s: State, step: Step, seller: Seller, stored: Option<TaskId>, ending: Ending)
    requires Inv(ttl, s) && Listed(ttl, s, seller, stored, ending)
    requires !(step.StoreResult? && step.task in s.tasks && s.tasks[step.task].seller == seller && Apply(ttl, s, step) != s)
    ensures Listed(ttl, Apply(ttl, s, step), seller, stored, ending)
  {
    if stored.Some? {
      StoredStays(ttl, s, step, stored.value);
    }
    match step
    case Call(caller, called) => CalledFrame(s, caller, called);
    case StoreResult(i) => StoreLists(ttl, s, i, seller);
    case _ => TickAndMutate(ttl, s, step, seller);
  }

  function EndingOfStored(ttl: nat, steps: seq<Step>, stored: Option<TaskId>): Ending {
    if stored.None? then Open else EndingOf(ttl, steps, stored.value)
  }

  /** A loader ends once. */
  lemma GaveStays(ttl: nat, steps: seq<Step>, n: nat, i: TaskId)
    requires n + 1 == |steps| && EndingOf(ttl, steps[..n], i).Gave?
    ensures EndingOf(ttl, steps, i) == EndingOf(ttl, steps[..n], i)
  {
    LoadStands(ttl, steps[..n], i);
    OneMoreStep(ttl, steps, n);
  }

  lemma {:induction false} EntryListed(ttl: nat, steps: seq<Step>, seller: Seller)
    ensures var stored := LastStored(ttl, steps, seller);
            Listed(ttl, Exec(ttl, steps), seller, stored, EndingOfStored(ttl, steps, stored))
    decreases |steps|
  {
    if steps != [] {
      var n := |steps| - 1;
      var s, stored := Exec(ttl, steps[..n]), LastStored(ttl, steps[..n], seller);
      EntryListed(ttl, steps[..n], seller);
      ExecKeepsInv(ttl, steps[..n]);
      OneMoreStep(ttl, steps, n);
      if stored.Some? {
        GaveStays(ttl, steps, n, stored.value);
      }
      if steps[n].StoreResult? && steps[n].task in s.tasks && s.tasks[steps[n].task].seller == seller && Counts(ttl, steps, n) {
        StoreLists(ttl, s, steps[n].task, seller);
        LoadStands(ttl, steps[..n], steps[n].task);
        GaveStays(ttl, steps, n, steps[n].task);
      } else {
        StepLists(ttl, s, steps[n], seller, stored, EndingOfStored(ttl, steps[..n], stored));
      }
    }
  }

  // ----- answers -----------------------------------------------------------------------------------

  /** The caller holds an object of its own that reads as the profile. */
  predicate GotCopy(s: State, t: State, caller: CallerId, profile: Profile) {
    && caller in t.callers && t.callers[caller].Got?
    && t.callers[caller].value !in s.heap
    && t.callers[caller].value in t.heap && t.heap[t.callers[caller].value] == profile
  }

  /** A load is over: its loader has ended and the load has left flight. */
  predicate Finished(s: State, i: TaskId) {
    i in s.tasks && !Unfinished(s.tasks[i])
  }

  /** In every run a caller whose load is over gets its answer when it resumes: the error exactly when the loader
      of that very load raised, and otherwise its own copy of what that loader returned. */
  lemma ResumeTellsTheLoad(ttl: nat, steps: seq<Step>, caller: CallerId)
    requires var s := Exec(ttl, steps);
             caller in s.callers && s.callers[caller].Waiting? && Finished(s, s.callers[caller].task)
    ensures var s := Exec(ttl, steps);
            var t := Apply(ttl, s, Resume(caller));
            var ending := EndingOf(ttl, steps, s.callers[caller].task);
            && caller in t.callers
            && (ending == Broke || ending.Gave?)
            && (t.callers[caller] == Failed(s.callers[caller].seller) <==> ending == Broke)
            && (ending.Gave? ==> GotCopy(s, t, caller, ending.profile) && t.callers[caller].seller == s.callers[caller].seller)
  {
    var s := Exec(ttl, steps);
    LoadStands(ttl, steps, s.callers[caller].task);
    ExecKeepsInv(ttl, steps);
    ResumeGives(ttl, s, caller, EndingOf(ttl, steps, s.callers[caller].task));
  }

  lemma ResumeGives(ttl: nat, s: State, caller: CallerId, ending: Ending)
    requires Inv(ttl, s) && caller in s.callers && s.callers[caller].Waiting? && Finished(s, s.callers[caller].task)
    requires Stands(ttl, s, s.callers[caller].task, ending)
    ensures var t := Apply(ttl, s, Resume(caller));
            && caller in t.callers
            && (ending == Broke || ending.Gave?)
            && (t.callers[caller] == Failed(s.callers[caller].seller) <==> ending == Broke)
            && (ending.Gave? ==> GotCopy(s, t, caller, ending.profile) && t.callers[caller].seller == s.callers[caller].seller)
  {
  }

  /** In every run a new caller gets at once its own copy of what the load stored last returned, while no more than
      the time to live has passed since that loader returned. Later, or when nothing was stored, it waits for
      the load of its seller that is not over, which is a new one exactly when there was none. */
  lemma CallIsAnswered(ttl: nat, steps: seq<Step>, caller: CallerId, seller: Seller)
    requires caller !in Exec(ttl, steps).callers
    ensures var s := Exec(ttl, steps);
            var t := Apply(ttl, s, Call(caller, seller));
            var stored := LastStored(ttl, steps, seller);
            var ending := EndingOfStored(ttl, steps, stored);
            && (stored.Some? ==> ending.Gave?)
            && (seller in t.entries ==> Fresh(s, seller))
            && (if stored.Some? && Clock(steps) <= ending.at + ttl then GotCopy(s, t, caller, ending.profile)
                else && caller in t.callers && t.callers[caller].Waiting? && t.callers[caller].seller == seller
                     && var i := t.callers[caller].task;
                     && i in t.tasks && t.tasks[i].seller == seller && Unfinished(t.tasks[i])
                     && (i in s.tasks <==> exists k :: UnderWay(s, k, seller)))
  {
    var s := Exec(ttl, steps);
    EntryListed(ttl, steps, seller);
    ExecKeepsInv(ttl, steps);
    ClockIsNow(ttl, steps);
    var stored := LastStored(ttl, steps, seller);
    if stored.Some? {
      LoadStands(ttl, steps, stored.value);
    }
    if Fresh(s, seller) {
      CallHandsOut(ttl, s, caller, seller);
    } else {
      CallWaits(ttl, s, caller, seller);
    }
  }

  predicate UnderWay(s: State, k: TaskId, seller: Seller) {
    k in s.tasks && s.tasks[k].seller == seller && Unfinished(s.tasks[k])
  }

  lemma CallHandsOut(ttl: nat, s: State, caller: CallerId, seller: Seller)
    requires Inv(ttl, s) && caller !in s.callers && Fresh(s, seller)
    ensures GotCopy(s, Apply(ttl, s, Call(caller, seller)), caller, Deref(s, s.entries[seller].value))
  {
  }

  lemma CallWaits(ttl: nat, s: State, caller: CallerId, seller: Seller)
    requires Inv(ttl, s) && caller !in s.callers && !Fresh(s, seller)
    ensures var t := Apply(ttl, s, Call(caller, seller));
            && caller in t.callers && t.callers[caller].Waiting? && t.callers[caller].seller == seller
            && UnderWay(t, t.callers[caller].task, seller)
            && (t.callers[caller].task in s.tasks <==> exists k :: UnderWay(s, k, seller))
  {
    if seller in s.inflight {
      assert UnderWay(s, s.inflight[seller], seller);
    }
  }

  /** A load whose loader has ended needs only its own steps to be over: it leaves flight, and unless its loader
      raised its result is stored. So a failure is not kept, and the next call may load again. */
  lemma LoadsEnd(ttl: nat, s: State, i: TaskId, profile: Profile)
    requires Inv(ttl, s) && i in s.tasks && s.tasks[i].phase.Loading?
    ensures var failed := Apply(ttl, Apply(ttl, s, LoaderRaises(i)), LeaveFlight(i));
            Finished(failed, i) && failed.entries == s.entries && s.tasks[i].seller !in failed.inflight
    ensures var stored := Apply(ttl, Apply(ttl, s, LoaderReturns(i, profile)), StoreResult(i));
            var over := Apply(ttl, stored, LeaveFlight(i));
            && s.tasks[i].seller in stored.entries && stored.entries[s.tasks[i].seller].expiresAt == s.now + ttl
            && Deref(stored, stored.entries[s.tasks[i].seller].value) == profile
            && Finished(over, i) && over.entries == stored.entries && s.tasks[i].seller !in over.inflight
  {
    var broken := Apply(ttl, s, LoaderRaises(i));
    assert broken == Moved(s, i, Broken);
    var returned := Apply(ttl, s, LoaderReturns(i, profile));
    assert returned == Returned(ttl, s, i, profile);
    assert Apply(ttl, returned, StoreResult(i)) == StoredResult(ttl, returned, i);
  }

  /** The loader keeps its own object: whatever it does to it later, the load goes on with what was returned. */
  lemma LoaderKeepsItsObject(ttl: nat, s: State, i: TaskId, profile: Profile, other: Profile)
    requires Inv(ttl, s) && i in s.tasks && s.tasks[i].phase.Loading?
    ensures var returned := Apply(ttl, s, LoaderReturns(i, profile));
            exists own | own in returned.heap :: LoadersOwn(ttl, s, returned, own, i, profile, other)
  {
    var returned := Apply(ttl, s, LoaderReturns(i, profile));
    assert returned == Returned(ttl, s, i, profile);
    assert LoadersOwn(ttl, s, returned, s.nextRef, i, profile, other);
  }

  predicate LoadersOwn(ttl: nat, s: State, returned: State, own: Ref, i: TaskId, profile: Profile, other: Profile) {
    && own !in s.heap && own in returned.outside && Deref(returned, own) == profile
    && var changed := Apply(ttl, returned, Mutate(own, other));
    && Deref(changed, own) == other
    && i in changed.tasks && changed.tasks[i].phase.Loaded? && Deref(changed, changed.tasks[i].phase.value) == profile
  }
}
