/**
 * The registry as the engine sees it: a map from instances to executors. Every operation of the registry amounts to the
 * engine's step on that map, and a selection to the turn of a ring among the executors the engine may choose.
 */
module RegistryViews {
  import opened Wrappers
  import opened ProtocolTypes
  import opened RingBuffers
  import opened Registries
  import opened StoreRecords
  import opened EngineWorlds
  import opened RecordMeanings

  ghost function ViewOf(r: ExecutorRegistry): map<InstanceID, Executor>
    reads r`entries, r.entries.Values
  {
    map id | id in r.entries :: r.entries[id].Image()
  }

  // What a step of the engine does to the executors.
  ghost function ExecutorsAfter(executors: map<InstanceID, Executor>, e: Event): map<InstanceID, Executor> {
    Step(EMPTY_WORLD.(executors := executors), e).executors
  }

  // A step on one executor, when all others stay as they were.
  lemma StepOnOne(before: map<InstanceID, Executor>, after: map<InstanceID, Executor>, id: InstanceID)
    requires after - {id} == before - {id}
    ensures id in after ==> after == ExecutorsAfter(before, Event.Join(id, after[id]))
    ensures id !in after ==> after == ExecutorsAfter(before, Event.Leave(id))
    ensures id in before && id in after && after[id] == before[id].(labels := after[id].labels) ==>
              after == ExecutorsAfter(before, Event.Relabel(id, after[id].labels))
    ensures (id in before <==> id in after) && (id in before ==> after[id] == before[id]) ==> after == before
  {
    OneChanged(before, after, id);
  }

  lemma OneChanged(before: map<InstanceID, Executor>, after: map<InstanceID, Executor>, id: InstanceID)
    requires after - {id} == before - {id}
    ensures after == if id in after then before[id := after[id]] else before - {id}
    ensures (id in before <==> id in after) && (id in before ==> after[id] == before[id]) ==> after == before
  {
    forall other | other != id
      ensures other in after <==> other in before
      ensures other in after ==> after[other] == before[other]
    {
      assert other in after <==> other in after - {id};
      assert other in before <==> other in before - {id};
    }
  }

  method Join(r: ExecutorRegistry, instanceID: InstanceID, executorType: ExecutorType, capacity: nat,
              functions: seq<FunctionSpec>, labels: seq<Label>)
    returns (entry: ExecutorEntry, ghost joined: Event)
    requires r.Valid()
    modifies r, r.pools.Values, r.labelPools.Values, r.entries.Values`closed
    ensures r.Valid() && ViewOf(r) == ExecutorsAfter(old(ViewOf(r)), joined)
    ensures joined.Join? && joined.instanceID == instanceID && joined.executor.inFlight == {}
    ensures joined.executor ==
            Executor(executorType, old(r.generation) + 1, capacity, IndexFunctions(functions), NonEmpty(labels), {},
                     false)
  {
    hide ExecutorRegistry.Valid, IndexFunctions, NonEmpty, ExecutorsAfter;
    EntriesApart(r);
    ghost var entries, before := r.entries, ViewOf(r);
    var replaced;
    entry, replaced := r.Register(instanceID, executorType, capacity, functions, labels);
    joined := Event.Join(instanceID, entry.Image());
    OthersSame(r, entries, before, instanceID);
    StepOnOne(before, ViewOf(r), instanceID);
  }

  method Leave(r: ExecutorRegistry, instanceID: InstanceID, generation: nat) returns (removed: bool)
    requires r.Valid()
    modifies r`entries, r`labelPools, r`poolIndex, r`labelIndex, r.pools.Values, r.labelPools.Values,
             r.entries.Values`closed
    ensures r.Valid()
    ensures removed <==>
              instanceID in old(ViewOf(r)) && old(ViewOf(r))[instanceID].generation == generation
    ensures ViewOf(r) == if removed then ExecutorsAfter(old(ViewOf(r)), Event.Leave(instanceID)) else old(ViewOf(r))
  {
    hide ExecutorRegistry.Valid, ExecutorsAfter;
    EntriesApart(r);
    ghost var entries, before := r.entries, ViewOf(r);
    removed := r.Deregister(instanceID, generation);
    OthersSame(r, entries, before, instanceID);
    StepOnOne(before, ViewOf(r), instanceID);
  }

  method Relabel(r: ExecutorRegistry, instanceID: InstanceID, announce: seq<Label>, withdraw: seq<Label>)
    returns (result: Result<nat, RegistryError>)
    requires r.Valid()
    modifies r`labelPools, r`labelIndex, r.labelPools.Values, r.entries.Values`labels
    ensures r.Valid()
    ensures result.Err? ==> ViewOf(r) == old(ViewOf(r))
    ensures result.Ok? ==>
              && instanceID in old(ViewOf(r))
              && ViewOf(r) == ExecutorsAfter(old(ViewOf(r)), Event.Relabel(
                                instanceID, Revised(old(ViewOf(r))[instanceID].labels, announce, withdraw)))
  {
    hide ExecutorRegistry.Valid, Revised, ExecutorsAfter;
    EntriesApart(r);
    ghost var entries, before := r.entries, ViewOf(r);
    result := r.UpdateLabels(instanceID, announce, withdraw);
    OthersSame(r, entries, before, instanceID);
    StepOnOne(before, ViewOf(r), instanceID);
  }

  method Occupy(r: ExecutorRegistry, entry: ExecutorEntry, attemptID: AttemptID)
    requires r.Valid() && entry in r.entries.Values
    modifies entry`inFlight
    ensures r.Valid() && ViewOf(r) == Occupied(old(ViewOf(r)), entry.instanceID, attemptID)
  {
    EntriesApart(r);
    entry.AddInFlight(attemptID);
  }

  method Release(r: ExecutorRegistry, instanceID: InstanceID, attemptID: AttemptID)
    requires r.Valid()
    modifies r.entries.Values`inFlight
    ensures r.Valid() && ViewOf(r) == Released(old(ViewOf(r)), instanceID, attemptID)
  {
    EntriesApart(r);
    var entry := r.Get(instanceID);
    if entry.Some? {
      entry.value.ReleaseInFlight(attemptID);
    }
  }

  // Whoever keeps its entry, with what it holds, keeps its place in the view.
  lemma OthersSame(r: ExecutorRegistry, entries: Entries, before: map<InstanceID, Executor>, instanceID: InstanceID)
    requires before.Keys == entries.Keys
    requires forall id | id in entries && id != instanceID ::
               id in r.entries && r.entries[id] == entries[id] && entries[id].Image() == before[id]
    requires forall id | id in r.entries && id != instanceID :: id in entries
    ensures ViewOf(r) - {instanceID} == before - {instanceID}
  {
  }

  lemma EntriesApart(r: ExecutorRegistry)
    requires r.Valid()
    ensures forall id | id in r.entries :: r.entries[id].instanceID == id
  {
  }

  // The entries a selection is about are the executors the engine's guard speaks of.
  lemma TakersAre(r: ExecutorRegistry, job: Job)
    requires r.Valid()
    ensures forall e :: e in r.Takers(job.scope.executorType, job.function_) <==>
              e in r.entries.Values && ViewOf(r)[e.instanceID].Takes(job.scope.executorType, job.function_)
    ensures forall e :: e in r.LabeledTakers(job.scope.executorType, job.function_, job.pin.pinned) <==>
              e in r.Takers(job.scope.executorType, job.function_) && job.pin.pinned in ViewOf(r)[e.instanceID].labels
  {
    EntriesApart(r);
  }

  // Whoever may be chosen: the announcers of a pinned label that can take the work, or anyone who can when there is no
  // pin, or when it is only preferred and no announcer can.
  ghost function Candidates(r: ExecutorRegistry, job: Job): set<ExecutorEntry>
    reads r`entries, r.entries.Values
  {
    var labeled := r.LabeledTakers(job.scope.executorType, job.function_, job.pin.pinned);
    if job.pin.pinned == NO_LABEL || (job.pin.policy == PIN_POLICY_PREFERRED && labeled == {})
    then r.Takers(job.scope.executorType, job.function_) else labeled
  }

  // They are the eligible ones.
  lemma CandidatesAreEligible(r: ExecutorRegistry, job: Job)
    requires r.Valid()
    ensures forall e :: e in Candidates(r, job) <==>
              e in r.entries.Values && Eligible(ViewOf(r), job, e.instanceID)
    ensures Candidates(r, job) == {} ==> forall x :: !Eligible(ViewOf(r), job, x)
  {
    EntriesApart(r);
    TakersAre(r, job);
    var labeled := r.LabeledTakers(job.scope.executorType, job.function_, job.pin.pinned);
    assert LabelHasTaker(ViewOf(r), job) <==> labeled != {} by {
      LabelTakerIffAny(r, job);
    }
    forall x | Candidates(r, job) == {} ensures !Eligible(ViewOf(r), job, x) {
      assert x in r.entries ==> r.entries[x] !in Candidates(r, job);
    }
  }

  lemma LabelTakerIffAny(r: ExecutorRegistry, job: Job)
    requires r.Valid()
    ensures LabelHasTaker(ViewOf(r), job) <==>
            r.LabeledTakers(job.scope.executorType, job.function_, job.pin.pinned) != {}
  {
    EntriesApart(r);
    TakersAre(r, job);
    if LabelHasTaker(ViewOf(r), job) {
      var id :| id in ViewOf(r) && job.pin.pinned in ViewOf(r)[id].labels &&
                ViewOf(r)[id].Takes(job.scope.executorType, job.function_);
      assert r.entries[id] in r.LabeledTakers(job.scope.executorType, job.function_, job.pin.pinned);
    }
    if e :| e in r.LabeledTakers(job.scope.executorType, job.function_, job.pin.pinned) {
      assert e.instanceID in ViewOf(r);
    }
  }

  // The ring whose turn it is: the pinned label's while it has a candidate, else the pool.
  ghost predicate ByLabel(r: ExecutorRegistry, job: Job)
    reads r`entries, r.entries.Values
  {
    job.pin.pinned != NO_LABEL && r.LabeledTakers(job.scope.executorType, job.function_, job.pin.pinned) != {}
  }

  // The choice follows the pin, and falls back to the pool where the pin is only a preference.
  method SelectByPin(r: ExecutorRegistry, job: Job) returns (found: Option<ExecutorEntry>)
    requires r.Valid()
    modifies r.pools.Values`cursor, r.labelPools.Values`cursor
    ensures r.Valid() && ViewOf(r) == old(ViewOf(r))
    ensures found.Some? ==> found.value in r.entries.Values && Eligible(ViewOf(r), job, found.value.instanceID)
    ensures found.None? ==> forall x :: !Eligible(ViewOf(r), job, x)
    ensures var t := job.scope.executorType;
            found.Some? && !ByLabel(r, job) && t in r.pools && old(r.pools[t].Valid()) && r.pools[t].Valid() ==>
              (r.pools[t].View(), found) == Turn(old(r.pools[t].View()), In(Candidates(r, job)))
    ensures var l := job.pin.pinned;
            ByLabel(r, job) && l in r.labelPools && old(r.labelPools[l].Valid()) && r.labelPools[l].Valid() ==>
              (r.labelPools[l].View(), found) == Turn(old(r.labelPools[l].View()), In(Candidates(r, job)))
  {
    hide ExecutorRegistry.Valid, ExecutorRegistry.Takers, ExecutorRegistry.LabeledTakers, ViewOf, Eligible, Turn,
         RingBuffer.View, RingBuffer.Valid, Serves, Executor.Takes, ExecutorEntry.Image;
    RingsDisjoint(r);
    if job.pin.pinned == NO_LABEL {
      found := r.Select(job.scope.executorType, job.function_);
      CandidatesAreEligible(r, job);
      return;
    }
    found := r.SelectLabeled(job.scope.executorType, job.function_, job.pin.pinned);
    CandidatesAreEligible(r, job);
    if found.Some? {
      return;
    }
    if job.pin.policy == PIN_POLICY_PREFERRED {
      found := r.Select(job.scope.executorType, job.function_);
      CandidatesAreEligible(r, job);
    }
  }

  // The engine's choice of an executor: one that can get the work whenever there is one, and of those the one whose
  // turn it is.
  method SelectExecutor(r: ExecutorRegistry, job: Job) returns (found: Option<ExecutorEntry>)
    requires r.Valid()
    modifies r.pools.Values`cursor, r.labelPools.Values`cursor
    ensures r.Valid() && ViewOf(r) == old(ViewOf(r))
    ensures found.Some? ==> found.value in r.entries.Values && CanGet(ViewOf(r), job, found.value.instanceID)
    ensures found.None? ==> forall x :: !CanGet(ViewOf(r), job, x)
    ensures var t := job.scope.executorType;
            found.Some? && !ByLabel(r, job) && t in r.pools && old(r.pools[t].Valid()) && r.pools[t].Valid() ==>
              (r.pools[t].View(), found) == Turn(old(r.pools[t].View()), In(Candidates(r, job)))
    ensures var l := job.pin.pinned;
            ByLabel(r, job) && l in r.labelPools && old(r.labelPools[l].Valid()) && r.labelPools[l].Valid() ==>
              (r.labelPools[l].View(), found) == Turn(old(r.labelPools[l].View()), In(Candidates(r, job)))
  {
    hide ExecutorRegistry.Valid, ExecutorRegistry.Takers, ExecutorRegistry.LabeledTakers, ViewOf, Eligible, CanGet,
         Turn, RingBuffer.View, RingBuffer.Valid, ByLabel, Candidates;
    EligibleIffCanGet(ViewOf(r), job);
    found := SelectByPin(r, job);
  }

  lemma RingsDisjoint(r: ExecutorRegistry)
    requires r.Valid()
    ensures r.pools.Values !! r.labelPools.Values
  {
  }

  // What parking asks of the registry.
  method PoolAliveNow(r: ExecutorRegistry, executorType: ExecutorType) returns (alive: bool)
    requires r.Valid()
    ensures alive <==> exists x :: x in ViewOf(r) && ViewOf(r)[x].executorType == executorType && !ViewOf(r)[x].closed
  {
    var size := r.PoolSize(executorType);
    EntriesApart(r);
    ghost var members := r.AliveOfType(executorType);
    if e :| e in members {
      assert e.instanceID in ViewOf(r);
    }
    if x :| x in ViewOf(r) && ViewOf(r)[x].executorType == executorType && !ViewOf(r)[x].closed {
      assert r.entries[x] in members;
    }
    return size > 0;
  }
}
