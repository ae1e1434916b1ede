/**
 * The executor registry: pools by type and rings by label, kept as indexes over the registered entries.
 *
 * `entries` is the truth. `Valid` says that every index holds exactly the entries a plain filter would.
 */
module Registries {
  import opened Wrappers
  import opened ProtocolTypes
  import opened RingBuffers

  datatype FunctionKey = FunctionKey(name: Bytes, version: Bytes)

  function KeyOf(spec: FunctionSpec): FunctionKey {
    FunctionKey(spec.name, spec.version)
  }

  function SupportsSpec(functions: map<FunctionKey, FunctionSpec>, spec: FunctionSpec): bool {
    var key := KeyOf(spec);
    && key in functions
    && (spec.inputSignature == [] || spec.inputSignature == functions[key].inputSignature)
    && (spec.outputSignature == [] || spec.outputSignature == functions[key].outputSignature)
  }

  // One registration as a value.
  datatype Executor = Executor(
    executorType: ExecutorType, generation: nat, capacity: nat, functions: map<FunctionKey, FunctionSpec>,
    labels: set<Label>, inFlight: set<AttemptID>, closed: bool)
  {
    predicate HasCapacity() {
      capacity == 0 || |inFlight| < capacity
    }

    // What Select asks of a pool member.
    predicate Takes(executorType: ExecutorType, spec: FunctionSpec) {
      && !closed
      && this.executorType == executorType
      && SupportsSpec(functions, spec)
      && HasCapacity()
    }
  }

  // The function was registered by its name and version, and agrees in each signature that the request states.
  ghost predicate Runs(x: Executor, spec: FunctionSpec) {
    && FunctionKey(spec.name, spec.version) in x.functions
    && var registered := x.functions[FunctionKey(spec.name, spec.version)];
       && (spec.inputSignature != [] ==> registered.inputSignature == spec.inputSignature)
       && (spec.outputSignature != [] ==> registered.outputSignature == spec.outputSignature)
  }

  // Who may be handed work now: a live executor of the type that runs the function and has a slot left.
  ghost predicate Serves(x: Executor, executorType: ExecutorType, spec: FunctionSpec) {
    && !x.closed && x.executorType == executorType && Runs(x, spec)
    && (x.capacity > 0 ==> |x.inFlight| < x.capacity)
  }

  // Selection asks for exactly that.
  lemma TakesIffServes(x: Executor, executorType: ExecutorType, spec: FunctionSpec)
    ensures x.Takes(executorType, spec) <==> Serves(x, executorType, spec)
    ensures SupportsSpec(x.functions, spec) <==> Runs(x, spec)
  {
  }

  class ExecutorEntry {
    const instanceID: InstanceID
    const executorType: ExecutorType
    const generation: nat
    const capacity: nat
    const functions: map<FunctionKey, FunctionSpec>
    var labels: set<Label>
    var inFlight: set<AttemptID>
    var closed: bool

    constructor (instanceID: InstanceID, executorType: ExecutorType, generation: nat, capacity: nat,
                 functions: map<FunctionKey, FunctionSpec>, labels: set<Label>)
      ensures this.instanceID == instanceID
      ensures Image() == Executor(executorType, generation, capacity, functions, labels, {}, false)
    {
      this.instanceID, this.executorType, this.generation := instanceID, executorType, generation;
      this.capacity, this.functions, this.labels := capacity, functions, labels;
      this.inFlight, this.closed := {}, false;
    }

    function Image(): Executor
      reads this
    {
      Executor(executorType, generation, capacity, functions, labels, inFlight, closed)
    }

    function HasCapacity(): bool
      reads this`inFlight
    {
      capacity == 0 || |inFlight| < capacity
    }

    function Alive(): bool
      reads this`closed
    {
      !closed
    }

    method MarkClosed()
      modifies this`closed
      ensures Image() == old(Image()).(closed := true)
    {
      closed := true;
    }

    method AddInFlight(attemptID: AttemptID)
      modifies this`inFlight
      ensures Image() == old(Image()).(inFlight := old(inFlight) + {attemptID})
    {
      inFlight := inFlight + {attemptID};
    }

    method ReleaseInFlight(attemptID: AttemptID)
      modifies this`inFlight
      ensures Image() == old(Image()).(inFlight := old(inFlight) - {attemptID})
    {
      inFlight := inFlight - {attemptID};
    }
  }

  type EntryRing = RingBuffer<InstanceID, ExecutorEntry>

  datatype RegistryError = EmptyLabel | UnknownInstance | LabelLimitExceeded(held: nat)

  type Entries = map<InstanceID, ExecutorEntry>

  type LabelSets = map<InstanceID, set<Label>>

  // What each ring of an index holds.
  type Index<!K> = map<K, Entries>

  ghost function Held<K>(index: Index<K>, key: K): Entries {
    if key in index then index[key] else map[]
  }

  ghost function OfType(entries: Entries, t: ExecutorType): Entries {
    map id | id in entries && entries[id].executorType == t :: entries[id]
  }

  ghost function Announcing(entries: Entries, labels: LabelSets, l: Label): Entries {
    map id | id in entries && id in labels && l in labels[id] :: entries[id]
  }

  // Every pool and every label ring holds exactly the entries a filter over the registered entries would pick.
  ghost predicate Agree(entries: Entries, labels: LabelSets, pools: Index<ExecutorType>, rings: Index<Label>) {
    && labels.Keys == entries.Keys
    && (forall t :: Held(pools, t) == OfType(entries, t))
    && (forall l :: Held(rings, l) == Announcing(entries, labels, l))
  }

  ghost function Attached<K(!new)>(index: Index<K>, keys: set<K>, id: InstanceID, entry: ExecutorEntry): Index<K> {
    map k | k in index.Keys + keys :: if k in keys then Held(index, k)[id := entry] else index[k]
  }

  ghost function Detached<K(!new)>(index: Index<K>, keys: set<K>, id: InstanceID): Index<K> {
    map k | k in index && (k in keys ==> index[k] - {id} != map[]) :: if k in keys then index[k] - {id} else index[k]
  }

  lemma AttachedMore<K(!new)>(index: Index<K>, done: set<K>, k: K, id: InstanceID, entry: ExecutorEntry)
    requires k !in done
    ensures Attached(Attached(index, done, id, entry), {k}, id, entry) == Attached(index, done + {k}, id, entry)
  {
  }

  lemma DetachedMore<K(!new)>(index: Index<K>, done: set<K>, k: K, id: InstanceID)
    requires k !in done
    ensures Detached(Detached(index, done, id), {k}, id) == Detached(index, done + {k}, id)
  {
  }

  ghost predicate NoneEmpty<K(!new)>(index: Index<K>) {
    forall k | k in index :: index[k] != map[]
  }

  lemma AttachedOne<K(!new)>(index: Index<K>, k: K, id: InstanceID, entry: ExecutorEntry)
    ensures Attached(index, {k}, id, entry) == index[k := Held(index, k)[id := entry]]
    ensures NoneEmpty(index) ==> NoneEmpty(Attached(index, {k}, id, entry))
  {
    assert id in Held(index, k)[id := entry];
  }

  lemma Overwrite<K, V>(m: map<K, V>, k: K, v: V, w: V)
    ensures m[k := v][k := w] == m[k := w] && m[k := v][k] == v
  {
  }

  lemma DetachedOne<K(!new)>(index: Index<K>, k: K, id: InstanceID)
    requires NoneEmpty(index)
    ensures Detached(index, {k}, id) ==
            if k !in index then index else if index[k] - {id} == map[] then index - {k} else index[k := index[k] - {id}]
    ensures NoneEmpty(Detached(index, {k}, id))
  {
  }

  lemma OfTypeUpdate(entries: Entries, id: InstanceID, entry: ExecutorEntry, t: ExecutorType)
    ensures OfType(entries[id := entry], t) ==
            if entry.executorType == t then OfType(entries, t)[id := entry] else OfType(entries, t) - {id}
    ensures OfType(entries - {id}, t) == OfType(entries, t) - {id}
  {
  }

  lemma AnnouncingUpdate(entries: Entries, labels: LabelSets, id: InstanceID, entry: ExecutorEntry,
                         announced: set<Label>, l: Label)
    ensures Announcing(entries[id := entry], labels[id := announced], l) ==
            var was := Announcing(entries, labels, l);
            if l in announced then was[id := entry] else was - {id}
    ensures Announcing(entries - {id}, labels - {id}, l) == Announcing(entries, labels, l) - {id}
  {
  }

  lemma WithoutAbsent(m: Entries, id: InstanceID)
    requires id !in m
    ensures m - {id} == m
  {
  }

  // A pool index following one entry that moves between pools.
  ghost function Moved(pools: Index<ExecutorType>, t: ExecutorType, id: InstanceID): Index<ExecutorType> {
    if t in pools then pools[t := pools[t] - {id}] else pools
  }

  // The indexes once a displaced registration left what the new one does not share with it.
  ghost function PoolsLeft(entries: Entries, pools: Index<ExecutorType>, id: InstanceID, t: ExecutorType)
    : Index<ExecutorType>
  {
    if id in entries && entries[id].executorType != t then Moved(pools, entries[id].executorType, id) else pools
  }

  ghost function RingsLeft(labels: LabelSets, rings: Index<Label>, id: InstanceID, announced: set<Label>): Index<Label>
  {
    if id in labels then Detached(rings, labels[id] - announced, id) else rings
  }

  // The indexes after a registration took its place, by pool and by label.
  lemma RegisteredAgree(entries: Entries, labels: LabelSets, pools: Index<ExecutorType>, rings: Index<Label>,
                        id: InstanceID, entry: ExecutorEntry, announced: set<Label>)
    requires Agree(entries, labels, pools, rings)
    ensures Agree(entries[id := entry], labels[id := announced],
                  Attached(PoolsLeft(entries, pools, id, entry.executorType), {entry.executorType}, id, entry),
                  Attached(RingsLeft(labels, rings, id, announced), announced, id, entry))
  {
    var left, dropped := PoolsLeft(entries, pools, id, entry.executorType), RingsLeft(labels, rings, id, announced);
    forall t
      ensures Held(Attached(left, {entry.executorType}, id, entry), t) == OfType(entries[id := entry], t)
    {
      assert Held(pools, t) == OfType(entries, t);
      OfTypeUpdate(entries, id, entry, t);
      if t != entry.executorType {
        assert Held(left, t) == Held(pools, t) - {id} by {
          if id !in Held(pools, t) { WithoutAbsent(Held(pools, t), id); }
        }
      } else {
        assert Held(left, t) == Held(pools, t);
      }
    }
    forall l
      ensures Held(Attached(dropped, announced, id, entry), l) ==
              Announcing(entries[id := entry], labels[id := announced], l)
    {
      AnnouncingRetaken(entries, labels, rings, id, entry, announced, l);
    }
  }

  lemma AnnouncingRetaken(entries: Entries, labels: LabelSets, rings: Index<Label>,
                          id: InstanceID, entry: ExecutorEntry, announced: set<Label>, l: Label)
    requires labels.Keys == entries.Keys && Held(rings, l) == Announcing(entries, labels, l)
    ensures Held(Attached(RingsLeft(labels, rings, id, announced), announced, id, entry), l) ==
            Announcing(entries[id := entry], labels[id := announced], l)
  {
    AnnouncingUpdate(entries, labels, id, entry, announced, l);
    var dropped := RingsLeft(labels, rings, id, announced);
    if l in announced {
      assert Held(dropped, l) == Held(rings, l);
    } else {
      assert Held(dropped, l) == Held(rings, l) - {id} by {
        if id !in Held(rings, l) { WithoutAbsent(Held(rings, l), id); }
      }
    }
  }

  lemma DeregisteredAgree(entries: Entries, labels: LabelSets, pools: Index<ExecutorType>, rings: Index<Label>,
                          id: InstanceID)
    requires Agree(entries, labels, pools, rings) && id in entries
    ensures Agree(entries - {id}, labels - {id}, Moved(pools, entries[id].executorType, id),
                  Detached(rings, labels[id], id))
  {
    var left, dropped := Moved(pools, entries[id].executorType, id), Detached(rings, labels[id], id);
    forall t ensures Held(left, t) == OfType(entries - {id}, t) {
      assert Held(pools, t) == OfType(entries, t);
      OfTypeUpdate(entries, id, entries[id], t);
      if id !in Held(pools, t) { WithoutAbsent(Held(pools, t), id); }
    }
    forall l ensures Held(dropped, l) == Announcing(entries - {id}, labels - {id}, l) {
      assert Held(rings, l) == Announcing(entries, labels, l);
      AnnouncingUpdate(entries, labels, id, entries[id], {}, l);
      if id !in Held(rings, l) { WithoutAbsent(Held(rings, l), id); }
    }
  }

  lemma RelabeledAgree(entries: Entries, labels: LabelSets, pools: Index<ExecutorType>, rings: Index<Label>,
                       id: InstanceID, announced: set<Label>)
    requires Agree(entries, labels, pools, rings) && id in entries
    ensures Agree(entries, labels[id := announced], pools,
                  Attached(Detached(rings, labels[id] - announced, id), announced, id, entries[id]))
  {
    var revised := Attached(Detached(rings, labels[id] - announced, id), announced, id, entries[id]);
    assert entries[id := entries[id]] == entries;
    forall l ensures Held(revised, l) == Announcing(entries, labels[id := announced], l) {
      AnnouncingRetaken(entries, labels, rings, id, entries[id], announced, l);
    }
  }

  ghost function LabelsOf(entries: Entries): (labels: LabelSets)
    reads entries.Values`labels
  {
    map id | id in entries :: entries[id].labels
  }

  lemma LabelsOfUpdate(entries: Entries, id: InstanceID, entry: ExecutorEntry)
    ensures LabelsOf(entries[id := entry]) == LabelsOf(entries)[id := entry.labels]
    ensures LabelsOf(entries - {id}) == LabelsOf(entries) - {id}
  {
  }

  // No ring serves two keys, and every ring is sound and holds what the index says.
  ghost predicate IndexValid<K(!new)>(rings: map<K, EntryRing>, index: Index<K>)
    reads rings.Values
  {
    && rings.Keys == index.Keys
    && (forall j, k | j in rings && k in rings && j != k :: rings[j] != rings[k])
    && (forall k | k in rings :: rings[k].Valid() && rings[k].Contents() == index[k])
  }

  // Taking one key out of an index, and putting a sound ring back under it.
  lemma IndexWithout<K(!new)>(rings: map<K, EntryRing>, index: Index<K>, k: K)
    requires IndexValid(rings, index)
    ensures IndexValid(rings - {k}, index - {k})
    ensures k in rings ==> rings[k].Valid() && rings[k].Contents() == index[k] && rings[k] !in (rings - {k}).Values
    ensures (rings - {k}).Values <= rings.Values && rings.Keys == index.Keys
  {
  }

  lemma IndexWith<K(!new)>(rings: map<K, EntryRing>, index: Index<K>, k: K, ring: EntryRing)
    requires IndexValid(rings - {k}, index - {k})
    requires ring.Valid() && ring !in (rings - {k}).Values
    ensures IndexValid(rings[k := ring], index[k := ring.Contents()])
  {
    var others, held, index' := rings - {k}, rings[k := ring], index[k := ring.Contents()];
    assert held.Keys == others.Keys + {k} && index'.Keys == (index - {k}).Keys + {k};
    forall j | j in held && j != k ensures held[j] != ring && held[j].Valid() && held[j].Contents() == index'[j] {
      assert j in others && others[j] == held[j] && (index - {k})[j] == index'[j];
    }
    forall i, j | i in held && j in held && i != j ensures held[i] != held[j] {
      if i != k && j != k {
        assert others[i] != others[j];
      }
    }
  }

  // The chosen values found in a stretch of a ring.
  ghost function Among(order: seq<Entry<InstanceID, ExecutorEntry>>, chosen: set<ExecutorEntry>): set<ExecutorEntry> {
    set e | e in order && e.value in chosen :: e.value
  }

  lemma AmongEnds(order: seq<Entry<InstanceID, ExecutorEntry>>, chosen: set<ExecutorEntry>)
    requires forall x | x in chosen :: exists e :: e in order && e.value == x
    ensures Among(order[..0], chosen) == {} && Among(order, chosen) == chosen
  {
  }

  lemma AmongNext(order: seq<Entry<InstanceID, ExecutorEntry>>, chosen: set<ExecutorEntry>, i: nat)
    requires i < |order| && Distinct(order)
    requires forall e | e in order :: e.key == e.value.instanceID
    ensures var before := Among(order[..i], chosen);
            |Among(order[..i + 1], chosen)| == if order[i].value in chosen then |before| + 1 else |before|
  {
    var before := Among(order[..i], chosen);
    assert order[..i + 1] == order[..i] + [order[i]];
    if order[i].value in chosen {
      forall e | e in order[..i] ensures e.value != order[i].value {
        var j :| 0 <= j < i && order[j] == e;
        assert order[j] in order && order[i] in order;
      }
      assert Among(order[..i + 1], chosen) == before + {order[i].value};
    } else {
      assert Among(order[..i + 1], chosen) == before;
    }
  }

  class ExecutorRegistry {
    var pools: map<ExecutorType, EntryRing>
    var labelPools: map<Label, EntryRing>
    var entries: Entries
    var generation: nat
    ghost var poolIndex: Index<ExecutorType>
    ghost var labelIndex: Index<Label>

    // The two kinds of index share no ring.
    ghost predicate RingsApart()
      reads this`pools, this`labelPools, this`poolIndex, this`labelIndex, pools.Values, labelPools.Values
    {
      && pools.Values !! labelPools.Values
      && IndexValid(pools, poolIndex)
      && IndexValid(labelPools, labelIndex)
    }

    // No empty label ring is kept.
    ghost predicate RingsValid()
      reads this`pools, this`labelPools, this`poolIndex, this`labelIndex, pools.Values, labelPools.Values
    {
      RingsApart() && NoneEmpty(labelIndex)
    }

    ghost predicate Indexed()
      reads this`pools, this`labelPools, this`entries, this`poolIndex, this`labelIndex
      reads pools.Values, labelPools.Values, entries.Values`labels
    {
      RingsValid() && Agree(entries, LabelsOf(entries), poolIndex, labelIndex)
    }

    ghost predicate Valid()
      reads this, pools.Values, labelPools.Values, entries.Values`labels
    {
      && Indexed()
      && (forall id | id in entries :: entries[id].instanceID == id && entries[id].generation <= generation)
    }

    constructor ()
      ensures Valid() && entries == map[]
    {
      pools, labelPools, entries, generation, poolIndex, labelIndex := map[], map[], map[], 0, map[], map[];
    }

    method AttachLabels(entry: ExecutorEntry, tags: set<Label>)
      requires RingsValid()
      modifies this`labelPools, this`labelIndex, labelPools.Values
      ensures RingsValid()
      ensures forall r | r in labelPools.Values :: r in old(labelPools.Values) || fresh(r)
      ensures labelIndex == Attached(old(labelIndex), tags, entry.instanceID, entry)
    {
      var rest := tags;
      assert labelIndex == Attached(old(labelIndex), {}, entry.instanceID, entry);
      while rest != {}
        invariant rest <= tags && RingsValid()
        invariant forall r | r in labelPools.Values :: r in old(labelPools.Values) || fresh(r)
        invariant labelIndex == Attached(old(labelIndex), tags - rest, entry.instanceID, entry)
      {
        hide Attached, RingsValid;
        var tag :| tag in rest;
        AttachedMore(old(labelIndex), tags - rest, tag, entry.instanceID, entry);
        assert tags - rest + {tag} == tags - (rest - {tag});
        AttachLabel(entry, tag);
        rest := rest - {tag};
      }
      assert tags - rest == tags;
    }

    method AttachLabel(entry: ExecutorEntry, tag: Label)
      requires RingsValid()
      modifies this`labelPools, this`labelIndex, labelPools.Values
      ensures RingsValid()
      ensures forall r | r in labelPools.Values :: r in old(labelPools.Values) || fresh(r)
      ensures labelIndex == Attached(old(labelIndex), {tag}, entry.instanceID, entry)
    {
      hide RingsApart, NoneEmpty, Attached, Held;
      ghost var was := labelIndex;
      OpenLabelRing(tag);
      UpsertLabelRing(tag, entry);
      AttachedOne(was, tag, entry.instanceID, entry);
      Overwrite(was, tag, Held(was, tag), Held(was, tag)[entry.instanceID := entry]);
    }

    method OpenLabelRing(tag: Label)
      requires RingsApart()
      modifies this`labelPools, this`labelIndex
      ensures RingsApart()
      ensures forall r | r in labelPools.Values :: r in old(labelPools.Values) || fresh(r)
      ensures labelIndex == old(labelIndex)[tag := Held(old(labelIndex), tag)]
    {
      hide RingBuffer.Valid, RingBuffer.Contents, RingBuffer.View, IndexValid;
      IndexWithout(labelPools, labelIndex, tag);
      if tag !in labelPools {
        var ring := new RingBuffer(0);
        labelPools := labelPools[tag := ring];
        IndexWith(old(labelPools), labelIndex, tag, ring);
        labelIndex := labelIndex[tag := map[]];
      }
    }

    method UpsertLabelRing(tag: Label, entry: ExecutorEntry)
      requires RingsApart() && tag in labelIndex
      modifies this`labelIndex, labelPools.Values
      ensures RingsApart()
      ensures labelIndex == old(labelIndex)[tag := old(labelIndex)[tag][entry.instanceID := entry]]
    {
      hide RingBuffer.Valid, RingBuffer.Contents, RingBuffer.View, Upserted, IndexValid;
      IndexWithout(labelPools, labelIndex, tag);
      var _ := labelPools[tag].Upsert(entry.instanceID, entry);
      IndexWith(labelPools, labelIndex, tag, labelPools[tag]);
      assert labelPools[tag := labelPools[tag]] == labelPools;
      labelIndex := labelIndex[tag := labelPools[tag].Contents()];
    }

    method DetachLabels(instanceID: InstanceID, tags: set<Label>)
      requires RingsValid()
      modifies this`labelPools, this`labelIndex, labelPools.Values
      ensures RingsValid() && labelPools.Values <= old(labelPools.Values)
      ensures labelIndex == Detached(old(labelIndex), tags, instanceID)
    {
      var rest := tags;
      assert labelIndex == Detached(old(labelIndex), {}, instanceID);
      while rest != {}
        invariant rest <= tags && RingsValid() && labelPools.Values <= old(labelPools.Values)
        invariant labelIndex == Detached(old(labelIndex), tags - rest, instanceID)
      {
        hide Detached, RingsValid;
        var tag :| tag in rest;
        DetachedMore(old(labelIndex), tags - rest, tag, instanceID);
        assert tags - rest + {tag} == tags - (rest - {tag});
        DetachLabel(instanceID, tag);
        rest := rest - {tag};
      }
      assert tags - rest == tags;
    }

    method DetachLabel(instanceID: InstanceID, tag: Label)
      requires RingsValid()
      modifies this`labelPools, this`labelIndex, labelPools.Values
      ensures RingsValid() && labelPools.Values <= old(labelPools.Values)
      ensures labelIndex == Detached(old(labelIndex), {tag}, instanceID)
    {
      hide RingBuffer.Valid, RingBuffer.Contents, RingBuffer.View, Removed, IndexValid, NoneEmpty, Detached;
      IndexWithout(labelPools, labelIndex, tag);
      ghost var was := labelIndex;
      if tag in labelPools {
        var ring := labelPools[tag];
        var _ := ring.Remove(instanceID);
        if ring.Len() == 0 {
          labelPools := labelPools - {tag};
          labelIndex := labelIndex - {tag};
        } else {
          IndexWith(labelPools, labelIndex, tag, ring);
          assert labelPools[tag := ring] == labelPools;
          labelIndex := labelIndex[tag := ring.Contents()];
        }
      }
      DetachedOne(was, tag, instanceID);
    }

    method LeavePool(instanceID: InstanceID, executorType: ExecutorType)
      requires RingsValid()
      modifies this`poolIndex, pools.Values
      ensures RingsValid()
      ensures poolIndex == Moved(old(poolIndex), executorType, instanceID)
    {
      hide RingBuffer.Valid, RingBuffer.Contents, RingBuffer.View, Removed, IndexValid;
      IndexWithout(pools, poolIndex, executorType);
      if executorType in pools {
        var _ := pools[executorType].Remove(instanceID);
        IndexWith(pools, poolIndex, executorType, pools[executorType]);
        assert pools[executorType := pools[executorType]] == pools;
        poolIndex := poolIndex[executorType := pools[executorType].Contents()];
      }
    }

    method JoinPool(entry: ExecutorEntry)
      requires RingsValid()
      modifies this`pools, this`poolIndex, pools.Values
      ensures RingsValid()
      ensures forall r | r in pools.Values :: r in old(pools.Values) || fresh(r)
      ensures poolIndex == Attached(old(poolIndex), {entry.executorType}, entry.instanceID, entry)
    {
      hide RingsApart, NoneEmpty, Attached, Held;
      ghost var was := poolIndex;
      var t := entry.executorType;
      OpenPool(t);
      UpsertPool(entry);
      AttachedOne(was, t, entry.instanceID, entry);
      Overwrite(was, t, Held(was, t), Held(was, t)[entry.instanceID := entry]);
    }

    method OpenPool(t: ExecutorType)
      requires RingsApart()
      modifies this`pools, this`poolIndex
      ensures RingsApart()
      ensures forall r | r in pools.Values :: r in old(pools.Values) || fresh(r)
      ensures poolIndex == old(poolIndex)[t := Held(old(poolIndex), t)]
    {
      hide RingBuffer.Valid, RingBuffer.Contents, RingBuffer.View, IndexValid;
      IndexWithout(pools, poolIndex, t);
      if t !in pools {
        var ring := new RingBuffer(0);
        pools := pools[t := ring];
        IndexWith(old(pools), poolIndex, t, ring);
        poolIndex := poolIndex[t := map[]];
      }
    }

    method UpsertPool(entry: ExecutorEntry)
      requires RingsApart() && entry.executorType in poolIndex
      modifies this`poolIndex, pools.Values
      ensures RingsApart()
      ensures var t := entry.executorType;
              poolIndex == old(poolIndex)[t := old(poolIndex)[t][entry.instanceID := entry]]
    {
      hide RingBuffer.Valid, RingBuffer.Contents, RingBuffer.View, Upserted, IndexValid;
      var t := entry.executorType;
      IndexWithout(pools, poolIndex, t);
      var _ := pools[t].Upsert(entry.instanceID, entry);
      IndexWith(pools, poolIndex, t, pools[t]);
      assert pools[t := pools[t]] == pools;
      poolIndex := poolIndex[t := pools[t].Contents()];
    }

    // A registration replaces whatever its instance held before and starts with nothing in flight.
    method Register(instanceID: InstanceID, executorType: ExecutorType, capacity: nat,
                    functions: seq<FunctionSpec>, labels: seq<Label>)
      returns (entry: ExecutorEntry, replaced: Option<ExecutorEntry>)
      requires Valid()
      modifies this, pools.Values, labelPools.Values, entries.Values`closed
      ensures Valid() && fresh(entry)
      ensures generation == old(generation) + 1
      ensures entries == old(entries)[instanceID := entry]
      ensures entry.instanceID == instanceID
      ensures entry.Image() ==
              Executor(executorType, generation, capacity, IndexFunctions(functions), NonEmpty(labels), {}, false)
      ensures forall l :: l in entry.labels <==> l in labels && l.name != []
      ensures replaced == if instanceID in old(entries) then Some(old(entries)[instanceID]) else None
      ensures forall e | e in old(entries.Values) :: e.closed == (Some(e) == replaced || old(e.closed))
    {
      NonEmptyAre(labels);
      hide ExecutorRegistry.Valid, IndexFunctions, NonEmpty;
      var functionIndex := BuildIndex(functions);
      var labelSet := NonEmpty(labels);
      NextGeneration();
      entry := new ExecutorEntry(instanceID, executorType, generation, capacity, functionIndex, labelSet);
      replaced := Install(entry);
    }

    method Install(entry: ExecutorEntry) returns (replaced: Option<ExecutorEntry>)
      requires Valid() && entry !in entries.Values && entry.generation <= generation
      modifies this`pools, this`labelPools, this`entries, this`poolIndex, this`labelIndex
      modifies pools.Values, labelPools.Values, entries.Values`closed
      ensures Valid() && entries == old(entries)[entry.instanceID := entry]
      ensures replaced == if entry.instanceID in old(entries) then Some(old(entries)[entry.instanceID]) else None
      ensures forall e | e in old(entries.Values) :: e.closed == (Some(e) == replaced || old(e.closed))
    {
      hide ExecutorRegistry.Valid;
      replaced := if entry.instanceID in entries then Some(entries[entry.instanceID]) else None;
      Admit(entry);
      if replaced.Some? {
        replaced.value.MarkClosed();
      }
    }

    method NextGeneration()
      requires Valid()
      modifies this`generation
      ensures Valid() && generation == old(generation) + 1
    {
      hide ExecutorRegistry.Indexed;
      generation := generation + 1;
    }

    // Puts an entry under its instance and moves every index along.
    method Admit(entry: ExecutorEntry)
      requires Valid() && entry.generation <= generation
      modifies this`pools, this`labelPools, this`entries, this`poolIndex, this`labelIndex
      modifies pools.Values, labelPools.Values
      ensures Valid()
      ensures entries == old(entries)[entry.instanceID := entry]
    {
      hide RingsValid, Agree, Attached, PoolsLeft, RingsLeft;
      ghost var labelsWere := LabelsOf(entries);
      RegisteredAgree(entries, labelsWere, poolIndex, labelIndex, entry.instanceID, entry, entry.labels);
      LabelsOfUpdate(entries, entry.instanceID, entry);
      Enter(entry);
    }

    method Enter(entry: ExecutorEntry)
      requires RingsValid()
      modifies this`pools, this`labelPools, this`entries, this`poolIndex, this`labelIndex
      modifies pools.Values, labelPools.Values
      ensures RingsValid()
      ensures entries == old(entries)[entry.instanceID := entry]
      ensures poolIndex == Attached(PoolsLeft(old(entries), old(poolIndex), entry.instanceID, entry.executorType),
                                    {entry.executorType}, entry.instanceID, entry)
      ensures labelIndex == Attached(RingsLeft(old(LabelsOf(entries)), old(labelIndex), entry.instanceID, entry.labels),
                                     entry.labels, entry.instanceID, entry)
    {
      hide RingsValid, Attached, LabelsOf, PoolsLeft, RingsLeft;
      LeaveStale(entry);
      entries := entries[entry.instanceID := entry];
      JoinPool(entry);
      AttachLabels(entry, entry.labels);
    }

    // Takes the displaced registration out of the pool and the label rings it no longer belongs to.
    method LeaveStale(entry: ExecutorEntry)
      requires RingsValid()
      modifies this`labelPools, this`poolIndex, this`labelIndex, pools.Values, labelPools.Values
      ensures RingsValid() && labelPools.Values <= old(labelPools.Values)
      ensures poolIndex == PoolsLeft(entries, old(poolIndex), entry.instanceID, entry.executorType)
      ensures labelIndex == RingsLeft(LabelsOf(entries), old(labelIndex), entry.instanceID, entry.labels)
    {
      hide RingsValid, Detached, Moved;
      var id := entry.instanceID;
      if id in entries {
        var replaced := entries[id];
        if replaced.executorType != entry.executorType {
          LeavePool(id, replaced.executorType);
        }
        DetachLabels(id, replaced.labels - entry.labels);
      }
    }

    method Deregister(instanceID: InstanceID, generation: nat) returns (removed: bool)
      requires Valid()
      modifies this`entries, this`labelPools, this`poolIndex, this`labelIndex, pools.Values, labelPools.Values,
          entries.Values`closed
      ensures Valid()
      ensures removed <==> instanceID in old(entries) && old(entries)[instanceID].generation == generation
      ensures entries == if removed then old(entries) - {instanceID} else old(entries)
      ensures forall id | id in old(entries) ::
                old(entries)[id].closed == ((removed && id == instanceID) || old(entries[id].closed))
    {
      hide ExecutorRegistry.Indexed;
      if instanceID !in entries || entries[instanceID].generation != generation {
        return false;
      }
      var entry := entries[instanceID];
      Dismiss(instanceID);
      entry.MarkClosed();
      return true;
    }

    method Dismiss(id: InstanceID)
      requires Valid() && id in entries
      modifies this`entries, this`labelPools, this`poolIndex, this`labelIndex, pools.Values, labelPools.Values
      ensures Valid()
      ensures entries == old(entries) - {id}
    {
      hide RingsValid, Agree, Detached, Moved;
      ghost var labelsWere := LabelsOf(entries);
      DeregisteredAgree(entries, labelsWere, poolIndex, labelIndex, id);
      LabelsOfUpdate(entries, id, entries[id]);
      Leave(id);
    }

    method Leave(id: InstanceID)
      requires RingsValid() && id in entries
      modifies this`entries, this`labelPools, this`poolIndex, this`labelIndex, pools.Values, labelPools.Values
      ensures RingsValid()
      ensures entries == old(entries) - {id}
      ensures poolIndex == Moved(old(poolIndex), old(entries)[id].executorType, id)
      ensures labelIndex == Detached(old(labelIndex), old(entries)[id].labels, id)
    {
      hide RingsValid, Detached, Moved;
      var entry := entries[id];
      entries := entries - {id};
      LeavePool(id, entry.executorType);
      DetachLabels(id, entry.labels);
    }

    // A refused revision changes nothing.
    method UpdateLabels(instanceID: InstanceID, announce: seq<Label>, withdraw: seq<Label>)
      returns (result: Result<nat, RegistryError>)
      requires Valid()
      modifies this`labelPools, this`labelIndex, labelPools.Values, entries.Values`labels
      ensures Valid()
      ensures result == if instanceID in old(entries)
                        then Revision(old(entries[instanceID].labels), announce, withdraw)
                        else Err(if NO_LABEL in announce || NO_LABEL in withdraw then EmptyLabel else UnknownInstance)
      ensures forall id | id in entries ::
                entries[id].labels ==
                if result.Ok? && id == instanceID then Revised(old(entries[id].labels), announce, withdraw)
                else old(entries[id].labels)
      ensures result == Err(EmptyLabel) <==> Label([]) in announce || Label([]) in withdraw
      ensures result == Err(UnknownInstance) <==>
              Label([]) !in announce && Label([]) !in withdraw && instanceID !in entries
      ensures result.Ok? ==>
                && instanceID in entries && result.value == |entries[instanceID].labels| <= 64
                && forall l :: l in entries[instanceID].labels <==>
                                 (l in old(entries[instanceID].labels) || l in announce) && l !in withdraw
      ensures result.Err? && Label([]) !in announce && Label([]) !in withdraw && instanceID in entries ==>
                var kept := entries[instanceID].labels;
                && result == Err(LabelLimitExceeded(|kept|)) && kept == old(entries[instanceID].labels)
                && |set l | l in kept + (set a | a in announce) && l !in withdraw| > 64
    {
      if NO_LABEL in announce || NO_LABEL in withdraw {
        return Err(EmptyLabel);
      }
      if instanceID !in entries {
        return Err(UnknownInstance);
      }
      var entry := entries[instanceID];
      var desired := Revised(entry.labels, announce, withdraw);
      if |desired| > DEFAULT_MAX_LABELS {
        assert desired == set l | l in entry.labels + (set a | a in announce) && l !in withdraw;
        return Err(LabelLimitExceeded(|entry.labels|));
      }
      Relabel(entry, desired);
      return Ok(|desired|);
    }

    method Relabel(entry: ExecutorEntry, desired: set<Label>)
      requires Valid() && entry.instanceID in entries && entries[entry.instanceID] == entry
      modifies this`labelPools, this`labelIndex, labelPools.Values, entry`labels
      ensures Valid() && entry.labels == desired
    {
      hide RingsValid, Agree, Attached, Detached;
      var id := entry.instanceID;
      ghost var labelsWere := LabelsOf(entries);
      RelabeledAgree(entries, labelsWere, poolIndex, labelIndex, id, desired);
      Retag(entry, desired);
      assert LabelsOf(entries) == labelsWere[id := desired];
    }

    method Retag(entry: ExecutorEntry, desired: set<Label>)
      requires RingsValid()
      modifies this`labelPools, this`labelIndex, labelPools.Values, entry`labels
      ensures RingsValid() && entry.labels == desired
      ensures labelIndex == Attached(Detached(old(labelIndex), old(entry.labels) - desired, entry.instanceID),
                                     desired, entry.instanceID, entry)
    {
      hide RingsValid, Attached, Detached;
      DetachLabels(entry.instanceID, entry.labels - desired);
      entry.labels := desired;
      AttachLabels(entry, desired);
    }

    // The entries an unlabeled selection may return.
    ghost function Takers(executorType: ExecutorType, spec: FunctionSpec): set<ExecutorEntry>
      reads this`entries, entries.Values
    {
      set e | e in entries.Values && e.Image().Takes(executorType, spec)
    }

    ghost function LabeledTakers(executorType: ExecutorType, spec: FunctionSpec, tag: Label): set<ExecutorEntry>
      reads this`entries, entries.Values
    {
      set e | e in entries.Values && tag in e.labels && e.Image().Takes(executorType, spec)
    }

    lemma TakersServe(executorType: ExecutorType, spec: FunctionSpec)
      ensures forall e :: e in Takers(executorType, spec) <==>
                          e in entries.Values && Serves(e.Image(), executorType, spec)
    {
      forall e | e in entries.Values
        ensures e.Image().Takes(executorType, spec) <==> Serves(e.Image(), executorType, spec)
      {
        TakesIffServes(e.Image(), executorType, spec);
      }
      hide Serves, Executor.Takes;
    }

    lemma LabeledTakersServe(executorType: ExecutorType, spec: FunctionSpec, tag: Label)
      ensures forall e :: e in LabeledTakers(executorType, spec, tag) <==>
                          e in entries.Values && tag in e.labels && Serves(e.Image(), executorType, spec)
    {
      forall e | e in entries.Values
        ensures e.Image().Takes(executorType, spec) <==> Serves(e.Image(), executorType, spec)
      {
        TakesIffServes(e.Image(), executorType, spec);
      }
      hide Serves, Executor.Takes;
    }

    // Fails exactly when no registered entry of the type is alive, supports the function and has capacity;
    // otherwise the pool's turn decides among those.
    method Select(executorType: ExecutorType, spec: FunctionSpec) returns (entry: Option<ExecutorEntry>)
      requires Valid()
      modifies pools.Values`cursor
      ensures Valid()
      ensures entry.None? <==> Takers(executorType, spec) == {}
      ensures entry.Some? ==> entry.value in Takers(executorType, spec)
      ensures entry.None? <==> forall e | e in entries.Values :: !Serves(e.Image(), executorType, spec)
      ensures entry.Some? ==> entry.value in entries.Values && Serves(entry.value.Image(), executorType, spec)
      ensures executorType in pools && old(pools[executorType].Valid()) && pools[executorType].Valid() ==>
                (pools[executorType].View(), entry) ==
                Turn(old(pools[executorType].View()), In(Takers(executorType, spec)))
    {
      TakersServe(executorType, spec);
      hide ExecutorRegistry.Valid, ExecutorRegistry.Takers, RingBuffer.View, RingBuffer.Valid, Turn, Serves;
      PoolServes(executorType, spec);
      if executorType !in pools {
        return None;
      }
      entry := Draw(pools[executorType], executorType, spec, Takers(executorType, spec));
      TakersServe(executorType, spec);
    }

    // The same among the entries that announce a label, by the turn of the label's ring.
    method SelectLabeled(executorType: ExecutorType, spec: FunctionSpec, tag: Label)
      returns (entry: Option<ExecutorEntry>)
      requires Valid()
      modifies labelPools.Values`cursor
      ensures Valid()
      ensures entry.None? <==> LabeledTakers(executorType, spec, tag) == {}
      ensures entry.Some? ==> entry.value in LabeledTakers(executorType, spec, tag)
      ensures entry.None? <==>
              forall e | e in entries.Values && tag in e.labels :: !Serves(e.Image(), executorType, spec)
      ensures entry.Some? ==>
                && entry.value in entries.Values && tag in entry.value.labels
                && Serves(entry.value.Image(), executorType, spec)
      ensures tag in labelPools && old(labelPools[tag].Valid()) && labelPools[tag].Valid() ==>
                (labelPools[tag].View(), entry) ==
                Turn(old(labelPools[tag].View()), In(LabeledTakers(executorType, spec, tag)))
    {
      LabeledTakersServe(executorType, spec, tag);
      hide ExecutorRegistry.Valid, ExecutorRegistry.LabeledTakers, RingBuffer.View, RingBuffer.Valid, Turn, Serves;
      LabelRingServes(executorType, spec, tag);
      if tag !in labelPools {
        return None;
      }
      entry := Draw(labelPools[tag], executorType, spec, LabeledTakers(executorType, spec, tag));
      LabeledTakersServe(executorType, spec, tag);
    }

    // One turn of a ring among the entries that take the function.
    method Draw(ring: EntryRing, executorType: ExecutorType, spec: FunctionSpec, ghost takers: set<ExecutorEntry>)
      returns (entry: Option<ExecutorEntry>)
      requires Valid() && ring in pools.Values + labelPools.Values && ring.Valid()
      requires forall e | e in ring.View().order :: e.value in takers <==> e.value.Image().Takes(executorType, spec)
      modifies ring`cursor
      ensures Valid() && ring.Valid()
      ensures (ring.View(), entry) == Turn(old(ring.View()), In(takers))
    {
      hide RingBuffer.View, RingBuffer.Valid, RingBuffer.Contents, Turn, Agree, NoneEmpty;
      entry := Scan(ring, executorType, spec, takers);
    }

    method Scan(ring: EntryRing, executorType: ExecutorType, spec: FunctionSpec, ghost takers: set<ExecutorEntry>)
      returns (entry: Option<ExecutorEntry>)
      requires ring.Valid()
      requires forall e | e in ring.View().order :: e.value in takers <==> e.value.Image().Takes(executorType, spec)
      modifies ring`cursor
      ensures ring.Valid() && ring.Contents() == old(ring.Contents())
      ensures (ring.View(), entry) == Turn(old(ring.View()), In(takers))
    {
      forall i | 0 <= i < |ring.entries| ensures ring.entries[i] in ring.View().order {
        LayoutAt(ring.entries, ring.cursor, i);
      }
      entry := ring.NextMatch(
        (candidate: ExecutorEntry) reads candidate =>
          && candidate.Alive()
          && candidate.executorType == executorType
          && SupportsSpec(candidate.functions, spec)
          && candidate.HasCapacity(),
        In(takers));
    }

    lemma PoolHolds(t: ExecutorType)
      requires Valid() && t in pools
      ensures pools[t].Valid()
      ensures forall e | e in pools[t].View().order ::
                e.value in entries.Values && e.value.executorType == t && e.key == e.value.instanceID
      ensures forall x | x in entries.Values && x.executorType == t :: Entry(x.instanceID, x) in pools[t].View().order
    {
      pools[t].ViewHoldsContents();
      assert Held(poolIndex, t) == OfType(entries, t);
      forall x | x in entries.Values && x.executorType == t ensures Entry(x.instanceID, x) in pools[t].View().order {
        assert x.instanceID in OfType(entries, t);
      }
    }

    lemma PoolServes(t: ExecutorType, spec: FunctionSpec)
      requires Valid()
      ensures t !in pools ==> Takers(t, spec) == {}
      ensures t in pools ==>
                && pools[t].Valid()
                && (forall e | e in pools[t].View().order ::
                      e.value in Takers(t, spec) <==> e.value.Image().Takes(t, spec))
                && var drawn := Turn(pools[t].View(), In(Takers(t, spec))).1;
                   if drawn.Some? then drawn.value in Takers(t, spec) else Takers(t, spec) == {}
    {
      if t in pools {
        PoolHolds(t);
        TurnIsGiven(pools[t].View(), In(Takers(t, spec)));
        forall x | x in Takers(t, spec) ensures Entry(x.instanceID, x) in pools[t].View().order {
        }
      } else {
        assert OfType(entries, t) == Held(poolIndex, t) == map[];
        forall x | x in Takers(t, spec) ensures x.instanceID in OfType(entries, t) {
        }
      }
    }

    lemma LabelRingServes(t: ExecutorType, spec: FunctionSpec, tag: Label)
      requires Valid()
      ensures tag !in labelPools ==> LabeledTakers(t, spec, tag) == {}
      ensures tag in labelPools ==>
                && labelPools[tag].Valid()
                && (forall e | e in labelPools[tag].View().order ::
                      e.value in LabeledTakers(t, spec, tag) <==> e.value.Image().Takes(t, spec))
                && var drawn := Turn(labelPools[tag].View(), In(LabeledTakers(t, spec, tag))).1;
                   if drawn.Some? then drawn.value in LabeledTakers(t, spec, tag) else LabeledTakers(t, spec, tag) == {}
    {
      if tag in labelPools {
        LabelRingHolds(tag);
        TurnIsGiven(labelPools[tag].View(), In(LabeledTakers(t, spec, tag)));
        forall x | x in LabeledTakers(t, spec, tag) ensures Entry(x.instanceID, x) in labelPools[tag].View().order {
        }
      } else {
        assert Announcing(entries, LabelsOf(entries), tag) == Held(labelIndex, tag) == map[];
        forall x | x in LabeledTakers(t, spec, tag)
          ensures x.instanceID in Announcing(entries, LabelsOf(entries), tag)
        {
        }
      }
    }

    lemma LabelRingHolds(tag: Label)
      requires Valid() && tag in labelPools
      ensures labelPools[tag].Valid()
      ensures forall e | e in labelPools[tag].View().order ::
                e.value in entries.Values && tag in e.value.labels && e.key == e.value.instanceID
      ensures forall x | x in entries.Values && tag in x.labels ::
                Entry(x.instanceID, x) in labelPools[tag].View().order
    {
      labelPools[tag].ViewHoldsContents();
      assert Held(labelIndex, tag) == Announcing(entries, LabelsOf(entries), tag);
      forall x | x in entries.Values && tag in x.labels ensures Entry(x.instanceID, x) in labelPools[tag].View().order {
        assert x.instanceID in Announcing(entries, LabelsOf(entries), tag);
      }
    }

    ghost function AliveOfType(executorType: ExecutorType): set<ExecutorEntry>
      reads this`entries, entries.Values`closed
    {
      set e | e in entries.Values && e.executorType == executorType && !e.closed
    }

    ghost function AliveAnnouncing(tag: Label): set<ExecutorEntry>
      reads this`entries, entries.Values`closed, entries.Values`labels
    {
      set e | e in entries.Values && tag in e.labels && !e.closed
    }

    method PoolSize(executorType: ExecutorType) returns (alive: nat)
      requires Valid()
      ensures alive == |AliveOfType(executorType)|
    {
      hide RingBuffer.View, RingBuffer.Valid;
      if executorType !in pools {
        forall x | x in AliveOfType(executorType) ensures x.instanceID in OfType(entries, executorType) {
        }
        assert OfType(entries, executorType) == Held(poolIndex, executorType) == map[];
        return 0;
      }
      PoolHolds(executorType);
      alive := CountAlive(pools[executorType]);
      ghost var ring := pools[executorType];
      assert AliveOfType(executorType) == set e | e in ring.View().order && e.value.Alive() :: e.value by {
        forall x | x in AliveOfType(executorType) ensures Entry(x.instanceID, x) in ring.View().order {
        }
      }
    }

    method LabelPoolSize(tag: Label) returns (alive: nat)
      requires Valid()
      ensures alive == |AliveAnnouncing(tag)|
    {
      hide RingBuffer.View, RingBuffer.Valid;
      if tag !in labelPools {
        forall x | x in AliveAnnouncing(tag) ensures x.instanceID in Announcing(entries, LabelsOf(entries), tag) {
        }
        assert Announcing(entries, LabelsOf(entries), tag) == Held(labelIndex, tag) == map[];
        return 0;
      }
      LabelRingHolds(tag);
      alive := CountAlive(labelPools[tag]);
      ghost var ring := labelPools[tag];
      assert AliveAnnouncing(tag) == set e | e in ring.View().order && e.value.Alive() :: e.value by {
        forall x | x in AliveAnnouncing(tag) ensures Entry(x.instanceID, x) in ring.View().order {
        }
      }
    }

    method CountAlive(ring: EntryRing) returns (alive: nat)
      requires ring.Valid()
      requires forall e | e in ring.View().order :: e.key == e.value.instanceID
      ensures alive == |set e | e in ring.View().order && e.value.Alive() :: e.value|
    {
      hide RingBuffer.View, RingBuffer.Valid, Among;
      var values := ring.Values();
      ghost var order := ring.View().order;
      ghost var chosen := set e | e in order && e.value.Alive() :: e.value;
      ring.ViewIsWellFormed();
      alive := 0;
      AmongEnds(order, chosen);
      for i := 0 to |values|
        invariant forall e | e in order :: e.value in chosen <==> e.value.Alive()
        invariant alive == |Among(order[..i], chosen)|
      {
        AmongNext(order, chosen, i);
        assert order[i] in order;
        if values[i].Alive() {
          alive := alive + 1;
        }
      }
      assert order[..|values|] == order;
      assert chosen == set e | e in ring.View().order && e.value.Alive() :: e.value;
    }

    lemma RunningAre(executorType: ExecutorType, spec: FunctionSpec)
      ensures (exists e :: e in AliveOfType(executorType) && SupportsSpec(e.functions, spec)) <==>
              exists e :: e in entries.Values && !e.closed && e.executorType == executorType && Runs(e.Image(), spec)
    {
      forall e | e in entries.Values ensures SupportsSpec(e.functions, spec) <==> Runs(e.Image(), spec) {
        TakesIffServes(e.Image(), executorType, spec);
      }
      hide SupportsSpec, Runs;
      if e :| e in entries.Values && !e.closed && e.executorType == executorType && Runs(e.Image(), spec) {
        assert e in AliveOfType(executorType);
      }
    }

    // Whatever its load, some alive executor of the type runs the function.
    method SupportsFunction(executorType: ExecutorType, spec: FunctionSpec) returns (supported: bool)
      requires Valid()
      ensures supported <==> exists e :: e in AliveOfType(executorType) && SupportsSpec(e.functions, spec)
      ensures supported <==>
              exists e :: e in entries.Values && !e.closed && e.executorType == executorType && Runs(e.Image(), spec)
    {
      hide RingBuffer.View, RingBuffer.Valid;
      RunningAre(executorType, spec);
      if executorType !in pools {
        forall x | x in AliveOfType(executorType) ensures x.instanceID in OfType(entries, executorType) {
        }
        assert OfType(entries, executorType) == Held(poolIndex, executorType) == map[];
        return false;
      }
      PoolHolds(executorType);
      var values := pools[executorType].Values();
      ghost var order := pools[executorType].View().order;
      var i := 0;
      while i < |values|
        invariant i <= |values|
        invariant forall j | 0 <= j < i :: !(values[j].Alive() && SupportsSpec(values[j].functions, spec))
      {
        if values[i].Alive() && SupportsSpec(values[i].functions, spec) {
          assert order[i] in order;
          return true;
        }
        i := i + 1;
      }
      forall x | x in AliveOfType(executorType) ensures !SupportsSpec(x.functions, spec) {
        var j :| 0 <= j < |order| && order[j] == Entry(x.instanceID, x);
      }
      return false;
    }

    // Every registered entry is retired; the registry itself keeps them.
    method CloseAll()
      requires Valid()
      modifies entries.Values`closed
      ensures Valid()
      ensures forall id | id in entries :: entries[id].closed
    {
      hide ExecutorRegistry.Indexed;
      var rest := entries.Keys;
      while rest != {}
        invariant rest <= entries.Keys && Valid()
        invariant forall id | id in entries.Keys - rest :: entries[id].closed
      {
        var id :| id in rest;
        entries[id].MarkClosed();
        rest := rest - {id};
      }
    }

    method Get(instanceID: InstanceID) returns (entry: Option<ExecutorEntry>)
      ensures entry == if instanceID in entries then Some(entries[instanceID]) else None
    {
      entry := if instanceID in entries then Some(entries[instanceID]) else None;
    }
  }

  // What a live connection is answered: a refusal, or how many labels it carries afterwards.
  function Revision(held: set<Label>, announce: seq<Label>, withdraw: seq<Label>): Result<nat, RegistryError> {
    var desired := Revised(held, announce, withdraw);
    if NO_LABEL in announce || NO_LABEL in withdraw then Err(EmptyLabel)
    else if |desired| > DEFAULT_MAX_LABELS then Err(LabelLimitExceeded(|held|))
    else Ok(|desired|)
  }

  function In<V>(members: set<V>): V -> bool {
    v => v in members
  }

  function NonEmpty(labels: seq<Label>): set<Label> {
    set l | l in labels && l != NO_LABEL
  }

  lemma NonEmptyAre(labels: seq<Label>)
    ensures forall l :: l in NonEmpty(labels) <==> l in labels && l.name != []
  {
  }

  // Announced labels join first and withdrawals apply last.
  function Revised(labels: set<Label>, announce: seq<Label>, withdraw: seq<Label>): set<Label> {
    labels + (set l | l in announce) - (set l | l in withdraw)
  }

  function IndexFunctions(functions: seq<FunctionSpec>): map<FunctionKey, FunctionSpec> {
    if functions == [] then map[] else
      var last := functions[|functions| - 1];
      IndexFunctions(functions[..|functions| - 1])[KeyOf(last) := last]
  }

  ghost predicate LastUnder(functions: seq<FunctionSpec>, key: FunctionKey, i: nat) {
    && i < |functions|
    && (functions[i].name, functions[i].version) == (key.name, key.version)
    && forall j | i < j < |functions| :: (functions[j].name, functions[j].version) != (key.name, key.version)
  }

  // A key is a name and a version. It finds the last function announced under it, and nothing when none was.
  lemma {:induction false} IndexFindsLast(functions: seq<FunctionSpec>, key: FunctionKey)
    ensures key !in IndexFunctions(functions) ==>
              forall i | 0 <= i < |functions| :: (functions[i].name, functions[i].version) != (key.name, key.version)
    ensures key in IndexFunctions(functions) ==>
              exists i: nat :: LastUnder(functions, key, i) && functions[i] == IndexFunctions(functions)[key]
  {
    if functions != [] {
      var n := |functions| - 1;
      var earlier := functions[..n];
      IndexFindsLast(earlier, key);
      if KeyOf(functions[n]) == key {
        assert LastUnder(functions, key, n);
      } else if key in IndexFunctions(earlier) {
        var i: nat :| LastUnder(earlier, key, i) && earlier[i] == IndexFunctions(earlier)[key];
        assert LastUnder(functions, key, i);
      }
    }
  }

  method BuildIndex(functions: seq<FunctionSpec>) returns (functionIndex: map<FunctionKey, FunctionSpec>)
    ensures functionIndex == IndexFunctions(functions)
  {
    functionIndex := map[];
    for i := 0 to |functions|
      invariant functionIndex == IndexFunctions(functions[..i])
    {
      assert functions[..i + 1][..i] == functions[..i];
      functionIndex := functionIndex[KeyOf(functions[i]) := functions[i]];
    }
    assert functions[..|functions|] == functions;
  }
}
