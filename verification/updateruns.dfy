/**
 * What every run of the update scheduler keeps: any interleaving of arrivals and of running tasks finishing.
 */
module UpdateRuns {
  import opened UpdateScheduling

  ghost function After(events: seq<Event>): State {
    if events == [] then State([], 0)
    else Step(After(events[..|events| - 1]), events[|events| - 1])
  }

  ghost predicate Run(events: seq<Event>) {
    events != [] ==>
      && Run(events[..|events| - 1])
      && Enabled(After(events[..|events| - 1]), events[|events| - 1])
  }

  // The keys of every task that ever arrived, by ticket.
  ghost function Arrivals(events: seq<Event>): seq<seq<Key>> {
    if events == [] then []
    else
      var e := events[|events| - 1];
      Arrivals(events[..|events| - 1]) + if e.Arrive? then [e.keys] else []
  }

  ghost predicate Pending(s: State, ticket: nat) {
    Place(s.tasks, ticket) < |s.tasks|
  }

  ghost predicate Finished(events: seq<Event>, ticket: nat) {
    Event.Finish(ticket) in events
  }

  // The line holds the unfinished arrivals in ticket order, with the keys they arrived with.
  ghost predicate InLine(s: State, arrivals: seq<seq<Key>>) {
    && s.arrived == |arrivals|
    && (forall i, j | 0 <= i < j < |s.tasks| :: s.tasks[i].ticket < s.tasks[j].ticket)
    && (forall i | 0 <= i < |s.tasks| ::
          s.tasks[i].ticket < |arrivals| && s.tasks[i].keys == arrivals[s.tasks[i].ticket])
  }

  lemma PlaceOfTicket(s: State, arrivals: seq<seq<Key>>, j: nat)
    requires InLine(s, arrivals) && j < |s.tasks|
    ensures Place(s.tasks, s.tasks[j].ticket) == j
  {
  }

  lemma ArriveKeepsLine(s: State, arrivals: seq<seq<Key>>, keys: seq<Key>, t: nat)
    requires InLine(s, arrivals)
    ensures InLine(Step(s, Arrive(keys)), arrivals + [keys])
    ensures Pending(Step(s, Arrive(keys)), t) <==> Pending(s, t) || t == |arrivals|
  {
    hide Place;
    var s' := Step(s, Arrive(keys));
    assert s'.tasks[|s.tasks|].ticket == |arrivals|;
    if Pending(s, t) {
      assert s'.tasks[Place(s.tasks, t)].ticket == t;
    }
  }

  lemma FinishKeepsLine(s: State, arrivals: seq<seq<Key>>, ticket: nat, t: nat)
    requires InLine(s, arrivals) && Pending(s, ticket)
    ensures InLine(Step(s, Event.Finish(ticket)), arrivals)
    ensures Pending(Step(s, Event.Finish(ticket)), t) <==> Pending(s, t) && t != ticket
  {
    hide Place;
    var s', q := Step(s, Event.Finish(ticket)), Place(s.tasks, ticket);
    forall i | 0 <= i < |s'.tasks| ensures s'.tasks[i] == s.tasks[if i < q then i else i + 1] {
    }
    hide Step;
    if Pending(s, t) && t != ticket {
      var p := Place(s.tasks, t);
      assert s'.tasks[if p < q then p else p - 1].ticket == t;
    }
  }

  // An arrival is pending until it finishes, and only arrivals finish.
  lemma {:induction false} RunKeepsLine(events: seq<Event>, t: nat)
    requires Run(events)
    ensures InLine(After(events), Arrivals(events))
    ensures Pending(After(events), t) <==> t < |Arrivals(events)| && !Finished(events, t)
    ensures Finished(events, t) ==> t < |Arrivals(events)|
  {
    hide Pending, InLine, Step;
    if events == [] {
      EmptyLine(t);
    } else {
      var n := |events| - 1;
      var e := events[n];
      RunKeepsLine(events[..n], t);
      assert events == events[..n] + [e];
      match e
      case Arrive(keys) => ArriveKeepsLine(After(events[..n]), Arrivals(events[..n]), keys, t);
      case Finish(ticket) =>
        EnabledPending(After(events[..n]), ticket);
        assert Arrivals(events) == Arrivals(events[..n]) + [] == Arrivals(events[..n]);
        FinishKeepsLine(After(events[..n]), Arrivals(events[..n]), ticket, t);
    }
  }

  lemma EmptyLine(t: nat)
    ensures InLine(State([], 0), []) && !Pending(State([], 0), t)
  {
  }

  lemma EnabledPending(s: State, ticket: nat)
    requires Enabled(s, Event.Finish(ticket))
    ensures Pending(s, ticket)
  {
  }

  ghost predicate ShareKey(a: seq<Key>, b: seq<Key>) {
    exists k :: k in a && k in b
  }

  // A pending task runs exactly when every earlier arrival that shares a key with it has finished.
  lemma RunsWhenEarlierFinished(events: seq<Event>, t: nat)
    requires Run(events) && Pending(After(events), t)
    ensures t < |Arrivals(events)|
    ensures Runs(After(events), t) <==>
            forall u | 0 <= u < t && ShareKey(Arrivals(events)[u], Arrivals(events)[t]) :: Finished(events, u)
  {
    hide Run, After, Arrivals, Finished;
    RunKeepsLine(events, t);
    forall u | 0 <= u < t ensures Pending(After(events), u) <==> !Finished(events, u) {
      RunKeepsLine(events, u);
    }
    RunsWhenUnblocked(After(events), Arrivals(events), t);
  }

  lemma RunsWhenUnblocked(s: State, arrivals: seq<seq<Key>>, t: nat)
    requires InLine(s, arrivals) && Pending(s, t)
    ensures t < |arrivals|
    ensures Runs(s, t) <==> forall u | 0 <= u < t && ShareKey(arrivals[u], arrivals[t]) :: !Pending(s, u)
  {
    hide Place;
    var p := Place(s.tasks, t);
    assert forall j | 0 <= j < p :: Conflicts(s.tasks[j], s.tasks[p]) <==>
        ShareKey(arrivals[s.tasks[j].ticket], arrivals[t]);
    if Runs(s, t) {
      forall u | 0 <= u < t && Pending(s, u) ensures !ShareKey(arrivals[u], arrivals[t]) {
        assert !Conflicts(s.tasks[Place(s.tasks, u)], s.tasks[p]);
      }
    } else {
      var j :| 0 <= j < p && Conflicts(s.tasks[j], s.tasks[p]);
      PlaceOfTicket(s, arrivals, j);
      assert Pending(s, s.tasks[j].ticket);
    }
  }

  // Tasks that share a key finish in arrival order.
  lemma FinishInOrder(events: seq<Event>, u: nat, t: nat, j: nat)
    requires Run(events) && u < t && j < |events| && events[j] == Event.Finish(t)
    ensures t < |Arrivals(events)|
    ensures ShareKey(Arrivals(events)[u], Arrivals(events)[t]) ==> Finished(events[..j], u)
  {
    RunPrefix(events, j + 1);
    assert events[..j + 1][..j] == events[..j];
    EnabledPending(After(events[..j]), t);
    RunsWhenEarlierFinished(events[..j], t);
    ArrivalsPrefix(events, j);
  }

  lemma {:induction false} RunPrefix(events: seq<Event>, n: nat)
    requires Run(events) && n <= |events|
    ensures Run(events[..n])
  {
    if n == |events| {
      assert events[..n] == events;
    } else {
      assert events[..|events| - 1][..n] == events[..n];
      RunPrefix(events[..|events| - 1], n);
    }
  }

  lemma {:induction false} ArrivalsPrefix(events: seq<Event>, n: nat)
    requires n <= |events|
    ensures Arrivals(events[..n]) <= Arrivals(events)
  {
    if n == |events| {
      assert events[..n] == events;
    } else {
      assert events[..|events| - 1][..n] == events[..n];
      ArrivalsPrefix(events[..|events| - 1], n);
    }
  }

  // Two running tasks hold no key in common.
  lemma MutualExclusion(s: State, t: nat, u: nat, key: Key)
    requires Runs(s, t) && Runs(s, u) && t != u
    requires key in s.tasks[Place(s.tasks, t)].keys
    ensures key !in s.tasks[Place(s.tasks, u)].keys
  {
    var p, q := Place(s.tasks, t), Place(s.tasks, u);
    assert if p < q then !Conflicts(s.tasks[p], s.tasks[q]) else !Conflicts(s.tasks[q], s.tasks[p]);
  }

  // The oldest unfinished task runs, so the scheduler never deadlocks.
  lemma OldestRuns(s: State)
    requires s.tasks != []
    ensures Enabled(s, Event.Finish(s.tasks[0].ticket))
    ensures Step(s, Event.Finish(s.tasks[0].ticket)).tasks == s.tasks[1..]
  {
  }

  // From any state of any run, as many finishes as there are unfinished tasks empty the line, and none gets stuck.
  lemma {:induction false} Drains(events: seq<Event>) returns (finishes: seq<Event>)
    requires Run(events)
    ensures |finishes| == |After(events).tasks|
    ensures forall e | e in finishes :: e.Finish?
    ensures Run(events + finishes) && After(events + finishes).tasks == []
    decreases |After(events).tasks|
  {
    hide Step, Enabled;
    var s := After(events);
    if s.tasks == [] {
      finishes := [];
      assert events + finishes == events;
    } else {
      var e := Event.Finish(s.tasks[0].ticket);
      OldestRuns(s);
      assert (events + [e])[..|events|] == events;
      var rest := Drains(events + [e]);
      finishes := [e] + rest;
      assert events + finishes == events + [e] + rest;
    }
  }

  // Without arrivals, every finish takes exactly one task out of the line, whatever the order.
  lemma {:induction false} FinishesShrink(events: seq<Event>, finishes: seq<Event>)
    requires Run(events + finishes) && forall e | e in finishes :: e.Finish?
    ensures |After(events + finishes).tasks| + |finishes| == |After(events).tasks|
  {
    if finishes == [] {
      assert events + finishes == events;
    } else {
      var n := |finishes| - 1;
      assert (events + finishes)[..|events + finishes| - 1] == events + finishes[..n];
      assert finishes[n] in finishes;
      FinishesShrink(events, finishes[..n]);
    }
  }
}
