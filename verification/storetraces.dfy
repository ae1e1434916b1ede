/**
 * Single store operations in any interleaving: what optimistic versions guarantee however handlers overlap.
 */
module StoreTraces {
  import opened ProtocolTypes
  import opened Schedules
  import opened StoreRecords
  import opened EngineWorlds
  import opened MemStores

  // The stored executions and the last identifier handed out.
  datatype Table = Table(executions: map<ExecutionID, Execution>, last: ExecutionID)

  datatype Operation =
    | Insert(jobID: JobUUID, scheduledAt: Instant, backfilled: bool, now: Instant)
    | Update(id: ExecutionID, expectedVersion: nat, update: ExecutionUpdate, now: Instant)
    | Delete(id: ExecutionID)

  predicate Succeeds(t: Table, op: Operation) {
    op.Update? ==> op.id in t.executions && Revise(t.executions[op.id], op.expectedVersion, op.update, op.now).Ok?
  }

  function Apply(t: Table, op: Operation): Table {
    match op
    case Insert(jobID, scheduledAt, backfilled, now) =>
      Table(t.executions[t.last + 1 := NewExecution(t.last + 1, jobID, scheduledAt, backfilled, now)], t.last + 1)
    case Update(id, version, update, now) =>
      if Succeeds(t, op) then t.(executions := t.executions[id := Revise(t.executions[id], version, update, now).value])
      else t
    case Delete(id) => t.(executions := t.executions - {id})
  }

  ghost function After(trace: seq<Operation>): Table {
    if trace == [] then Table(map[], 0) else Apply(After(trace[..|trace| - 1]), trace[|trace| - 1])
  }

  // A record as it was read, against the table later on: it is gone, or unchanged, or has a higher version; and once
  // settled it keeps its state.
  ghost predicate Follows(r: Execution, id: ExecutionID, t: Table) {
    && id <= t.last
    && (id in t.executions ==>
          && (t.executions[id] == r || t.executions[id].version > r.version)
          && (r.state.Terminal() ==> t.executions[id].state == r.state))
  }

  lemma ApplyFollows(r: Execution, id: ExecutionID, t: Table, op: Operation)
    requires Follows(r, id, t)
    ensures Follows(r, id, Apply(t, op))
  {
  }

  lemma {:induction false} Numbered(trace: seq<Operation>, id: ExecutionID)
    ensures id in After(trace).executions ==> id <= After(trace).last
  {
    if trace != [] {
      Numbered(trace[..|trace| - 1], id);
    }
  }

  lemma {:induction false} ReadFollows(trace: seq<Operation>, i: nat, id: ExecutionID)
    requires i <= |trace| && id in After(trace[..i]).executions
    ensures Follows(After(trace[..i]).executions[id], id, After(trace))
  {
    hide Apply;
    if i == |trace| {
      assert trace[..i] == trace;
      Numbered(trace, id);
    } else {
      var before := trace[..|trace| - 1];
      assert before[..i] == trace[..i];
      ReadFollows(before, i, id);
      ApplyFollows(After(trace[..i]).executions[id], id, After(before), trace[|trace| - 1]);
    }
  }

  // An update that passes the version check acts on exactly the record its author read, however many operations of
  // other handlers came in between.
  lemma UpdateActsOnWhatWasRead(trace: seq<Operation>, i: nat, j: nat, r: Execution)
    requires i <= j < |trace| && trace[j].Update? && trace[j].id in After(trace[..i]).executions
    requires r == After(trace[..i]).executions[trace[j].id] && trace[j].expectedVersion == r.version
    requires Succeeds(After(trace[..j]), trace[j])
    ensures After(trace[..j]).executions[trace[j].id] == r
  {
    assert trace[..j][..i] == trace[..i];
    ReadFollows(trace[..j], i, trace[j].id);
    hide After, Apply;
  }

  // The j-th operation takes an unsettled execution into a settled state.
  ghost predicate Settles(trace: seq<Operation>, j: nat, id: ExecutionID)
    requires j < |trace|
  {
    var before, after := After(trace[..j]), Apply(After(trace[..j]), trace[j]);
    && id in before.executions && id in after.executions
    && !before.executions[id].state.Terminal() && after.executions[id].state.Terminal()
  }

  // However operations interleave, each execution settles at most once.
  lemma SettlesOnce(trace: seq<Operation>, i: nat, j: nat, id: ExecutionID)
    requires i < |trace| && j < |trace| && Settles(trace, i, id) && Settles(trace, j, id)
    ensures i == j
  {
    if i < j {
      SettledBefore(trace, i, j, id);
    } else if j < i {
      SettledBefore(trace, j, i, id);
    }
  }

  lemma SettledBefore(trace: seq<Operation>, i: nat, j: nat, id: ExecutionID)
    requires i < j < |trace| && Settles(trace, i, id)
    ensures !Settles(trace, j, id)
  {
    assert trace[..i + 1][..i] == trace[..i];
    assert After(trace[..i + 1]) == Apply(After(trace[..i]), trace[i]);
    assert trace[..j][..i + 1] == trace[..i + 1];
    ReadFollows(trace[..j], i + 1, id);
    hide After, Apply;
  }

  // A handler that read an unsettled execution and whose settling update succeeded is the one that settled it. So the
  // outcome is counted and captured at most once, even when handlers overlap.
  lemma SuccessfulSettleIsUnique(trace: seq<Operation>, i: nat, j: nat, i': nat, j': nat)
    requires HandlerSettled(trace, i, j) && HandlerSettled(trace, i', j')
    requires trace[j].id == trace[j'].id
    ensures j == j'
  {
    HandlerSettles(trace, i, j);
    HandlerSettles(trace, i', j');
    SettlesOnce(trace, j, j', trace[j].id);
  }

  ghost predicate HandlerSettled(trace: seq<Operation>, i: nat, j: nat) {
    && i <= j < |trace| && trace[j].Update? && trace[j].id in After(trace[..i]).executions
    && var read := After(trace[..i]).executions[trace[j].id];
       && !read.state.Terminal()
       && trace[j].expectedVersion == read.version
       && trace[j].update.state.Some? && trace[j].update.state.value.Terminal()
       && Succeeds(After(trace[..j]), trace[j])
  }

  lemma HandlerSettles(trace: seq<Operation>, i: nat, j: nat)
    requires HandlerSettled(trace, i, j)
    ensures Settles(trace, j, trace[j].id)
  {
    UpdateActsOnWhatWasRead(trace, i, j, After(trace[..i]).executions[trace[j].id]);
  }
}
