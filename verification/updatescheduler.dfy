/**
 * The bot's asynchronous update scheduler: jobs that hold several keys, each key a first-come first-served queue.
 *
 * The abstract state is a line of unfinished tasks in arrival order. A task runs exactly when no earlier task in
 * the line shares a key with it, so the whole scheduler refines the two steps of `Step`.
 */
module UpdateScheduling {
  import opened Sequences

  datatype Key = Key(name: string)

  const UNIQUE_STRINGS_NOOP_THRESHOLD := 2

  // An unfinished job, numbered in arrival order.
  datatype Task = Task(ticket: nat, keys: seq<Key>)

  ghost predicate Conflicts(a: Task, b: Task) {
    exists k :: k in a.keys && k in b.keys
  }

  ghost predicate Free(tasks: seq<Task>, i: nat)
    requires i < |tasks|
  {
    forall j | 0 <= j < i :: !Conflicts(tasks[j], tasks[i])
  }

  // The unfinished tasks in arrival order, and how many arrived so far.
  datatype State = State(tasks: seq<Task>, arrived: nat)

  datatype Event = Arrive(keys: seq<Key>) | Finish(ticket: nat)

  ghost function Place(tasks: seq<Task>, ticket: nat): (p: nat)
    ensures p <= |tasks|
    ensures p < |tasks| ==> tasks[p].ticket == ticket
    ensures forall i | 0 <= i < p :: tasks[i].ticket != ticket
  {
    if tasks == [] || tasks[0].ticket == ticket then 0 else 1 + Place(tasks[1..], ticket)
  }

  ghost predicate Runs(s: State, ticket: nat) {
    Place(s.tasks, ticket) < |s.tasks| && Free(s.tasks, Place(s.tasks, ticket))
  }

  // A task is queued under at least one key, and only a running task finishes.
  ghost predicate Enabled(s: State, e: Event) {
    match e
    case Arrive(keys) => keys != []
    case Finish(ticket) => Runs(s, ticket)
  }

  ghost function Step(s: State, e: Event): State {
    match e
    case Arrive(keys) => State(s.tasks + [Task(s.arrived, keys)], s.arrived + 1)
    case Finish(ticket) =>
      var p := Place(s.tasks, ticket);
      if p < |s.tasks| then s.(tasks := s.tasks[..p] + s.tasks[p + 1..]) else s
  }

  class Job {
    const keys: seq<Key>
    ghost const ticket: nat
    var started: bool
    var done: bool

    constructor (keys: seq<Key>, ghost ticket: nat)
      ensures this.keys == keys && this.ticket == ticket && !started && !done
    {
      this.keys, this.ticket, started, done := keys, ticket, false, false;
    }
  }

  ghost function TaskOf(job: Job): Task {
    Task(job.ticket, job.keys)
  }

  ghost function TasksOf(line: seq<Job>): (tasks: seq<Task>)
    ensures |tasks| == |line|
    ensures forall i | 0 <= i < |line| :: tasks[i] == TaskOf(line[i])
  {
    seq(|line|, i requires 0 <= i < |line| => TaskOf(line[i]))
  }

  // The jobs of the line that hold a key.
  ghost function WithKey(line: seq<Job>, key: Key): seq<Job>
  {
    if line == [] then []
    else (if key in line[0].keys then [line[0]] else []) + WithKey(line[1..], key)
  }

  // The jobs that are not done.
  ghost function Undone(jobs: seq<Job>, done: set<Job>): seq<Job>
  {
    if jobs == [] then []
    else (if jobs[0] in done then [] else [jobs[0]]) + Undone(jobs[1..], done)
  }

  ghost function KeysOf(running: set<Job>): set<Key> {
    set j, k | j in running && k in j.keys :: k
  }

  lemma {:induction false} WithKeyConcat(a: seq<Job>, b: seq<Job>, key: Key)
    ensures WithKey(a + b, key) == WithKey(a, key) + WithKey(b, key)
  {
    if a == [] {
      assert a + b == b;
    } else {
      assert (a + b)[1..] == a[1..] + b;
      WithKeyConcat(a[1..], b, key);
    }
  }

  lemma {:induction false} UndoneConcat(a: seq<Job>, b: seq<Job>, done: set<Job>)
    ensures Undone(a + b, done) == Undone(a, done) + Undone(b, done)
  {
    if a == [] {
      assert a + b == b;
    } else {
      assert (a + b)[1..] == a[1..] + b;
      UndoneConcat(a[1..], b, done);
    }
  }

  lemma {:induction false} WithKeyEmpty(line: seq<Job>, key: Key)
    ensures WithKey(line, key) == [] <==> forall j | j in line :: key !in j.keys
  {
    if line != [] {
      WithKeyEmpty(line[1..], key);
      assert forall j :: j in line <==> j == line[0] || j in line[1..];
    }
  }

  lemma {:induction false} WithKeyMembers(line: seq<Job>, key: Key)
    ensures forall j | j in WithKey(line, key) :: j in line && key in j.keys
  {
    if line != [] {
      WithKeyMembers(line[1..], key);
    }
  }

  lemma {:induction false} UndoneMembers(jobs: seq<Job>, done: set<Job>)
    ensures forall j | j in Undone(jobs, done) :: j in jobs && j !in done
    ensures forall j | j in jobs && j !in done :: j in Undone(jobs, done)
  {
    if jobs != [] {
      UndoneMembers(jobs[1..], done);
    }
  }

  // A job heads the queue of a key it holds exactly when no earlier job of the line holds that key.
  lemma HeadIsFirst(line: seq<Job>, i: nat, key: Key)
    requires Distinct(line) && i < |line| && key in line[i].keys
    ensures WithKey(line, key) != []
    ensures WithKey(line, key)[0] == line[i] <==> forall j | 0 <= j < i :: key !in line[j].keys
  {
    assert line == line[..i] + ([line[i]] + line[i + 1..]);
    WithKeyConcat(line[..i], [line[i]] + line[i + 1..], key);
    WithKeyEmpty(line[..i], key);
    WithKeyMembers(line[..i], key);
    if WithKey(line[..i], key) != [] {
      assert WithKey(line[..i], key)[0] in line[..i];
    }
  }

  ghost predicate AllFree(line: seq<Job>, running: set<Job>) {
    forall i | 0 <= i < |line| && line[i] in running :: Free(TasksOf(line), i)
  }

  lemma FreeIffHeads(line: seq<Job>, i: nat)
    requires Distinct(line) && i < |line|
    ensures Free(TasksOf(line), i) <==>
            forall k | k in line[i].keys :: WithKey(line, k) != [] && WithKey(line, k)[0] == line[i]
  {
    hide WithKey;
    var tasks := TasksOf(line);
    forall k | k in line[i].keys
      ensures WithKey(line, k) != []
      ensures WithKey(line, k)[0] == line[i] <==> forall j | 0 <= j < i :: k !in line[j].keys
    {
      HeadIsFirst(line, i, k);
    }
    if Free(tasks, i) {
      forall k, j | k in line[i].keys && 0 <= j < i ensures k !in line[j].keys {
        assert !Conflicts(tasks[j], tasks[i]);
      }
    }
  }

  lemma FreeIsNotBusy(line: seq<Job>, running: set<Job>, i: nat, key: Key)
    requires i < |line| && line[i] !in running && Free(TasksOf(line), i) && key in line[i].keys
    requires (forall j | j in running :: j in line) && AllFree(line, running)
    ensures key !in KeysOf(running)
  {
    var tasks := TasksOf(line);
    forall other | other in running ensures key !in other.keys {
      var j :| 0 <= j < |line| && line[j] == other;
      assert if i < j then !Conflicts(tasks[i], tasks[j]) else !Conflicts(tasks[j], tasks[i]);
    }
  }

  // With every running job free, the busy keys and the queue heads decide exactly whether a job is free.
  lemma StartableIffFree(line: seq<Job>, running: set<Job>, i: nat)
    requires Distinct(line) && i < |line| && line[i] !in running
    requires (forall j | j in running :: j in line) && AllFree(line, running)
    ensures Free(TasksOf(line), i) <==>
            forall k | k in line[i].keys ::
              k !in KeysOf(running) && WithKey(line, k) != [] && WithKey(line, k)[0] == line[i]
  {
    hide WithKey, Free, KeysOf, AllFree;
    FreeIffHeads(line, i);
    if Free(TasksOf(line), i) {
      forall k | k in line[i].keys ensures k !in KeysOf(running) {
        FreeIsNotBusy(line, running, i, k);
      }
    }
  }

  // What the single pass decides about the job at the head of the unscanned stretch.
  lemma ScanPosition(jobs: seq<Job>, done: set<Job>, i: nat)
    requires i < |jobs|
    ensures var line, p := Undone(jobs, done), |Undone(jobs[..i], done)|;
            && (jobs[i] !in done ==> p < |line| && line[p] == jobs[i])
            && |Undone(jobs[..i + 1], done)| == (if jobs[i] in done then p else p + 1) <= |line|
  {
    assert jobs == jobs[..i] + ([jobs[i]] + jobs[i + 1..]);
    UndoneConcat(jobs[..i], [jobs[i]] + jobs[i + 1..], done);
    UndoneConcat([jobs[i]], jobs[i + 1..], done);
    assert jobs[..i + 1] == jobs[..i] + [jobs[i]];
    UndoneConcat(jobs[..i], [jobs[i]], done);
  }

  ghost predicate Ordered(line: seq<Job>, arrived: nat) {
    && (forall i, j | 0 <= i < j < |line| :: line[i].ticket < line[j].ticket)
    && (forall i | 0 <= i < |line| :: line[i].ticket < arrived && line[i].keys != [] && Distinct(line[i].keys))
  }

  type Queues = map<Key, seq<Job>>

  // Each queue is the arrival-ordered unfinished jobs with its key, and no empty queue is kept.
  ghost predicate Queued(queues: Queues, line: seq<Job>) {
    && (forall k :: Bucket(queues, k) == WithKey(line, k))
    && NoEmptyBucket(queues)
  }

  ghost function Without(line: seq<Job>, i: nat): seq<Job>
    requires i < |line|
  {
    line[..i] + line[i + 1..]
  }

  lemma UndoneWithout(jobs: seq<Job>, done: set<Job>, i: nat, p: nat)
    requires Distinct(jobs) && i < |jobs|
    requires Distinct(Undone(jobs, done)) && p < |Undone(jobs, done)| && Undone(jobs, done)[p] == jobs[i]
    ensures Undone(jobs, done + {jobs[i]}) == Without(Undone(jobs, done), p)
  {
    hide Undone;
    var before, job, after := jobs[..i], jobs[i], jobs[i + 1..];
    assert jobs == before + [job] + after;
    assert job !in done by { UndoneMembers(jobs, done); }
    UndoneAround(before, job, after, done);
    assert Undone(jobs, done)[|Undone(before, done)|] == job;
  }

  lemma UndoneAround(before: seq<Job>, job: Job, after: seq<Job>, done: set<Job>)
    requires job !in before && job !in after && job !in done
    ensures Undone(before + [job] + after, done) == Undone(before, done) + [job] + Undone(after, done)
    ensures Undone(before + [job] + after, done + {job}) == Undone(before, done) + Undone(after, done)
  {
    assert [job][1..] == [];
    assert Undone([job], done) == [job] && Undone([job], done + {job}) == Undone([], done + {job}) == [];
    hide Undone;
    UndoneConcat(before + [job], after, done);
    UndoneConcat(before, [job], done);
    UndoneConcat(before + [job], after, done + {job});
    UndoneConcat(before, [job], done + {job});
    UndoneIgnores(before, done, job);
    UndoneIgnores(after, done, job);
  }

  lemma {:induction false} UndoneIgnores(jobs: seq<Job>, done: set<Job>, job: Job)
    requires job !in jobs
    ensures Undone(jobs, done + {job}) == Undone(jobs, done)
  {
    if jobs != [] {
      UndoneIgnores(jobs[1..], done, job);
    }
  }

  // A free job heads all its queues, and finishing it pops those and leaves every other queue alone.
  lemma WithKeyWithout(line: seq<Job>, p: nat, key: Key)
    requires p < |line|
    ensures key !in line[p].keys ==> WithKey(Without(line, p), key) == WithKey(line, key)
    ensures key in line[p].keys && Free(TasksOf(line), p) ==>
              WithKey(line, key) == [line[p]] + WithKey(Without(line, p), key)
  {
    hide WithKey, Free;
    var before, after := line[..p], line[p + 1..];
    assert line == before + [line[p]] + after;
    WithKeyAround(before, line[p], after, key);
    if key in line[p].keys && Free(TasksOf(line), p) {
      NoneBefore(line, p, key);
      WithKeyEmpty(before, key);
    }
  }

  lemma WithKeyAround(before: seq<Job>, job: Job, after: seq<Job>, key: Key)
    ensures WithKey(before + [job] + after, key) ==
            WithKey(before, key) + (if key in job.keys then [job] else []) + WithKey(after, key)
    ensures WithKey(before + after, key) == WithKey(before, key) + WithKey(after, key)
  {
    assert WithKey([job], key) == if key in job.keys then [job] else [];
    hide WithKey;
    WithKeyConcat(before + [job], after, key);
    WithKeyConcat(before, [job], key);
    WithKeyConcat(before, after, key);
  }

  lemma NoneBefore(line: seq<Job>, p: nat, key: Key)
    requires p < |line| && Free(TasksOf(line), p) && key in line[p].keys
    ensures forall j | j in line[..p] :: key !in j.keys
  {
    forall j | j in line[..p] ensures key !in j.keys {
      var q :| 0 <= q < p && line[q] == j;
      assert !Conflicts(TasksOf(line)[q], TasksOf(line)[p]);
    }
  }

  lemma FreeWithout(line: seq<Job>, p: nat, i: nat)
    requires p < |line| && i < |line| && i != p && Free(TasksOf(line), i)
    ensures Free(TasksOf(Without(line, p)), if i < p then i else i - 1)
  {
    var tasks, rest, q := TasksOf(line), TasksOf(Without(line, p)), if i < p then i else i - 1;
    forall j | 0 <= j < q ensures !Conflicts(rest[j], rest[q]) {
      assert !Conflicts(tasks[if j < p then j else j + 1], tasks[i]);
    }
  }

  lemma FreeAppend(line: seq<Job>, job: Job, i: nat)
    requires i < |line|
    ensures Free(TasksOf(line + [job]), i) <==> Free(TasksOf(line), i)
  {
    var tasks, more := TasksOf(line), TasksOf(line + [job]);
    assert forall j | 0 <= j <= i :: more[j] == tasks[j];
  }

  // The jobs among the first n of the line that are free but were not running before, in arrival order.
  ghost function Starting(line: seq<Job>, n: nat, before: set<Job>): seq<Job>
    requires n <= |line|
  {
    if n == 0 then []
    else Starting(line, n - 1, before) +
         if Free(TasksOf(line), n - 1) && line[n - 1] !in before then [line[n - 1]] else []
  }

  // The jobs that start are those that run afterwards and did not before, in arrival order.
  ghost predicate Starts(before: set<Job>, running: set<Job>, runnable: seq<Job>) {
    && (set j | j in runnable) == running - before
    && (forall a, b | 0 <= a < b < |runnable| :: runnable[a].ticket < runnable[b].ticket)
  }

  lemma {:induction false} StartingStarts(line: seq<Job>, n: nat, before: set<Job>, arrived: nat)
    requires n <= |line| && Ordered(line, arrived)
    ensures Starts(before, before + (set j | j in Starting(line, n, before)), Starting(line, n, before))
    ensures forall j | j in Starting(line, n, before) :: j in line[..n]
  {
    if n > 0 {
      hide Free;
      StartingStarts(line, n - 1, before, arrived);
      assert line[..n] == line[..n - 1] + [line[n - 1]];
      forall j | j in line[..n - 1] ensures j.ticket < line[n - 1].ticket {
        var q :| 0 <= q < n - 1 && line[q] == j;
      }
    }
  }

  // A scan has decided the first p jobs of the line.
  ghost predicate Scanned(line: seq<Job>, p: nat, before: set<Job>, running: set<Job>, runnable: seq<Job>) {
    && p <= |line|
    && runnable == Starting(line, p, before)
    && (forall j | j in runnable :: j in line[..p])
    && running == before + (set j | j in runnable)
    && (forall q | 0 <= q < p :: line[q] in running <==> Free(TasksOf(line), q))
  }

  lemma NothingScanned(line: seq<Job>, finished: set<Job>, before: set<Job>)
    ensures Scanned(line, 0, before, before, []) && Undone([], finished) == []
  {
  }

  lemma ScannedNext(line: seq<Job>, p: nat, before: set<Job>, running: set<Job>, runnable: seq<Job>)
    requires Scanned(line, p, before, running, runnable) && p < |line|
    requires Distinct(line) && AllFree(line, running)
    ensures if line[p] !in running && Free(TasksOf(line), p)
            then Scanned(line, p + 1, before, running + {line[p]}, runnable + [line[p]])
            else Scanned(line, p + 1, before, running, runnable)
  {
    hide Free, AllFree;
    assert line[..p + 1] == line[..p] + [line[p]];
    assert line[p] !in line[..p];
    if line[p] in running {
      FreeRunning(line, running, p);
    }
  }

  lemma FreeRunning(line: seq<Job>, running: set<Job>, p: nat)
    requires p < |line| && line[p] in running && AllFree(line, running)
    ensures Free(TasksOf(line), p)
  {
  }

  lemma AllScanned(line: seq<Job>, before: set<Job>, running: set<Job>, runnable: seq<Job>)
    requires Scanned(line, |line|, before, running, runnable)
    ensures runnable == Starting(line, |line|, before) && running == before + set j | j in runnable
    ensures forall q | 0 <= q < |line| :: line[q] in running <==> Free(TasksOf(line), q)
  {
  }

  // What holds between any two statements that look at the queues, whether or not a scan is under way.
  ghost predicate Sound(jobs: seq<Job>, line: seq<Job>, running: set<Job>, finished: set<Job>, busy: set<Key>,
                        queues: Queues, arrived: nat)
  {
    && Ordered(jobs, arrived)
    && Ordered(line, arrived)
    && line == Undone(jobs, finished)
    && (forall j | j in running :: j in line)
    && AllFree(line, running)
    && busy == KeysOf(running)
    && Queued(queues, line)
  }

  // One more free job starts.
  lemma StartKeepsSound(jobs: seq<Job>, line: seq<Job>, running: set<Job>, finished: set<Job>, busy: set<Key>,
                        queues: Queues, arrived: nat, p: nat)
    requires Sound(jobs, line, running, finished, busy, queues, arrived)
    requires p < |line| && Free(TasksOf(line), p)
    ensures Sound(jobs, line, running + {line[p]}, finished, busy + (set k | k in line[p].keys), queues, arrived)
  {
    assert line[p] in line;
    assert KeysOf(running + {line[p]}) == KeysOf(running) + (set k | k in line[p].keys);
  }

  lemma AppendKeepsSound(jobs: seq<Job>, line: seq<Job>, running: set<Job>, finished: set<Job>, busy: set<Key>,
                         queues: Queues, arrived: nat, job: Job, queues': Queues)
    requires Sound(jobs, line, running, finished, busy, queues, arrived)
    requires job !in finished && job.ticket == arrived && job.keys != [] && Distinct(job.keys)
    requires forall k :: Bucket(queues', k) == Bucket(queues, k) + if k in job.keys then [job] else []
    requires NoEmptyBucket(queues')
    ensures Sound(jobs + [job], line + [job], running, finished, busy, queues', arrived + 1)
  {
    AppendKeepsQueued(line, queues, job, queues');
    AppendKeepsOrdered(jobs, arrived, job);
    AppendKeepsOrdered(line, arrived, job);
    AppendKeepsFree(line, running, arrived, job);
    UndoneConcat(jobs, [job], finished);
    OneUndone(job, finished);
    hide Undone, Queued, Ordered, AllFree;
  }

  lemma AppendKeepsOrdered(line: seq<Job>, arrived: nat, job: Job)
    requires Ordered(line, arrived) && job.ticket == arrived && job.keys != [] && Distinct(job.keys)
    ensures Ordered(line + [job], arrived + 1)
  {
  }

  lemma AppendKeepsQueued(line: seq<Job>, queues: Queues, job: Job, queues': Queues)
    requires Queued(queues, line)
    requires forall k :: Bucket(queues', k) == Bucket(queues, k) + if k in job.keys then [job] else []
    requires NoEmptyBucket(queues')
    ensures Queued(queues', line + [job])
  {
    forall k ensures Bucket(queues', k) == WithKey(line + [job], k) {
      WithKeyConcat(line, [job], k);
      assert Bucket(queues, k) == WithKey(line, k);
    }
  }

  lemma AppendKeepsFree(line: seq<Job>, running: set<Job>, arrived: nat, job: Job)
    requires AllFree(line, running) && Ordered(line, arrived) && job.ticket == arrived
    requires forall j | j in running :: j in line
    ensures AllFree(line + [job], running)
  {
    hide Free;
    assert job !in running;
    forall i | 0 <= i < |line| && line[i] in running ensures Free(TasksOf(line + [job]), i) {
      FreeAppend(line, job, i);
    }
  }

  lemma OneUndone(job: Job, done: set<Job>)
    requires job !in done
    ensures Undone([job], done) == [job]
  {
  }

  // Running jobs hold disjoint keys.
  lemma RunningDisjoint(line: seq<Job>, running: set<Job>, a: Job, b: Job, key: Key)
    requires (forall j | j in running :: j in line) && AllFree(line, running)
    requires a in running && b in running && a != b && key in a.keys
    ensures key !in b.keys
  {
    var i :| 0 <= i < |line| && line[i] == a;
    var j :| 0 <= j < |line| && line[j] == b;
    var tasks := TasksOf(line);
    assert if i < j then !Conflicts(tasks[i], tasks[j]) else !Conflicts(tasks[j], tasks[i]);
  }

  lemma FinishKeepsSound(jobs: seq<Job>, line: seq<Job>, running: set<Job>, finished: set<Job>, busy: set<Key>,
                         queues: Queues, arrived: nat, p: nat, i: nat, queues': Queues)
    requires Sound(jobs, line, running, finished, busy, queues, arrived)
    requires p < |line| && line[p] in running && i < |jobs| && jobs[i] == line[p]
    requires forall k :: Bucket(queues', k) ==
                         if k in line[p].keys then RemoveFirst(Bucket(queues, k), line[p]) else Bucket(queues, k)
    requires NoEmptyBucket(queues')
    ensures Sound(jobs, Without(line, p), running - {line[p]}, finished + {line[p]},
                  busy - (set k | k in line[p].keys), queues', arrived)
  {
    hide Undone, RemoveFirst, KeysOf;
    assert Ordered(Without(line, p), arrived);
    FinishKeepsQueued(line, queues, p, queues');
    UndoneWithout(jobs, finished, i, p);
    FinishKeepsFree(line, running, p);
    FinishFreesKeys(line, running, line[p]);
    hide Queued, Ordered, AllFree, Without;
  }

  lemma FinishKeepsQueued(line: seq<Job>, queues: Queues, p: nat, queues': Queues)
    requires p < |line| && Free(TasksOf(line), p) && Queued(queues, line)
    requires forall k :: Bucket(queues', k) ==
                         if k in line[p].keys then RemoveFirst(Bucket(queues, k), line[p]) else Bucket(queues, k)
    requires NoEmptyBucket(queues')
    ensures Queued(queues', Without(line, p))
  {
    forall k ensures Bucket(queues', k) == WithKey(Without(line, p), k) {
      hide WithKey, Without, Free;
      WithKeyWithout(line, p, k);
      assert Bucket(queues, k) == WithKey(line, k);
    }
  }

  lemma FinishFreesKeys(line: seq<Job>, running: set<Job>, job: Job)
    requires (forall j | j in running :: j in line) && AllFree(line, running) && job in running
    ensures KeysOf(running - {job}) == KeysOf(running) - (set k | k in job.keys)
  {
    forall k, b | k in job.keys && b in running - {job} ensures k !in b.keys {
      RunningDisjoint(line, running, job, b, k);
    }
  }

  lemma FinishKeepsFree(line: seq<Job>, running: set<Job>, p: nat)
    requires Distinct(line) && p < |line| && line[p] in running
    requires (forall j | j in running :: j in line) && AllFree(line, running)
    ensures AllFree(Without(line, p), running - {line[p]})
    ensures forall j | j in running - {line[p]} :: j in Without(line, p)
  {
    var rest := Without(line, p);
    forall q | 0 <= q < |rest| && rest[q] in running - {line[p]} ensures Free(TasksOf(rest), q) {
      FreeWithout(line, p, if q < p then q else q + 1);
    }
    forall j | j in running - {line[p]} ensures j in rest {
      var q :| 0 <= q < |line| && line[q] == j;
      assert rest[if q < p then q else q - 1] == j;
    }
  }

  // Letting go of the oldest job once it is done.
  lemma DropKeepsSound(jobs: seq<Job>, line: seq<Job>, running: set<Job>, finished: set<Job>, busy: set<Key>,
                       queues: Queues, arrived: nat)
    requires Sound(jobs, line, running, finished, busy, queues, arrived)
    requires jobs != [] && jobs[0] in finished
    ensures Sound(jobs[1..], line, running, finished, busy, queues, arrived)
  {
  }

  lemma PlaceOf(line: seq<Job>, arrived: nat, p: nat)
    requires Ordered(line, arrived) && p < |line|
    ensures Place(TasksOf(line), line[p].ticket) == p
    ensures TasksOf(Without(line, p)) == TasksOf(line)[..p] + TasksOf(line)[p + 1..]
  {
  }

  // A newcomer frees nobody, so it is the only job that can start.
  lemma OnlyNewcomerStarts(line: seq<Job>, job: Job, running: set<Job>)
    requires forall i | 0 <= i < |line| :: line[i] in running <==> Free(TasksOf(line), i)
    requires job !in running
    ensures Starting(line + [job], |line| + 1, running) ==
            if Free(TasksOf(line + [job]), |line|) then [job] else []
  {
    hide Free;
    StartingNone(line, |line|, job, running);
  }

  lemma {:induction false} StartingNone(line: seq<Job>, n: nat, job: Job, running: set<Job>)
    requires n <= |line| && forall i | 0 <= i < |line| :: line[i] in running <==> Free(TasksOf(line), i)
    ensures Starting(line + [job], n, running) == []
  {
    hide Free;
    if n > 0 {
      StartingNone(line, n - 1, job, running);
      FreeAppend(line, job, n - 1);
    }
  }

  // The values without their later repetitions.
  function Unique(values: seq<Key>): (unique: seq<Key>) {
    if values == [] then []
    else
      var earlier, last := Unique(values[..|values| - 1]), values[|values| - 1];
      if last in values[..|values| - 1] then earlier else earlier + [last]
  }

  // The first value appears where the second has not appeared yet.
  ghost predicate AppearsBefore(values: seq<Key>, a: Key, b: Key) {
    exists p | 0 <= p < |values| :: values[p] == a && b !in values[..p]
  }

  // Every value once, in the order of first appearance.
  lemma {:induction false} UniqueKeepsFirsts(values: seq<Key>)
    ensures Distinct(Unique(values)) && forall v :: v in Unique(values) <==> v in values
    ensures Unique(values) == [] <==> values == []
    ensures forall i, j | 0 <= i < j < |Unique(values)| :: AppearsBefore(values, Unique(values)[i], Unique(values)[j])
  {
    if values != [] {
      var n := |values| - 1;
      var earlier, unique := values[..n], Unique(values);
      UniqueKeepsFirsts(earlier);
      assert values == earlier + [values[n]];
      forall i, j | 0 <= i < j < |unique| ensures AppearsBefore(values, unique[i], unique[j]) {
        if j < |Unique(earlier)| {
          assert AppearsBefore(earlier, unique[i], unique[j]);
          AppearsBeforeMore(earlier, values[n], unique[i], unique[j]);
        } else {
          assert unique[i] in Unique(earlier);
          var p :| 0 <= p < n && earlier[p] == unique[i];
          assert values[..p] == earlier[..p];
        }
      }
    }
  }

  lemma AppearsBeforeMore(values: seq<Key>, last: Key, a: Key, b: Key)
    requires AppearsBefore(values, a, b)
    ensures AppearsBefore(values + [last], a, b)
  {
    var p :| 0 <= p < |values| && values[p] == a && b !in values[..p];
    assert (values + [last])[..p] == values[..p];
  }

  method UniqueStrings(values: seq<Key>) returns (result: seq<Key>)
    ensures result == Unique(values)
  {
    if |values| < UNIQUE_STRINGS_NOOP_THRESHOLD {
      assert |values| == 1 ==> values == [] + [values[0]] && values[..0] == [];
      return values;
    }
    var seen: set<Key> := {};
    result := [];
    for i := 0 to |values|
      invariant result == Unique(values[..i])
      invariant seen == set v | v in values[..i]
    {
      assert values[..i + 1][..i] == values[..i] && values[..i + 1] == values[..i] + [values[i]];
      if values[i] !in seen {
        seen := seen + {values[i]};
        result := result + [values[i]];
      }
    }
    assert values[..|values|] == values;
  }

  // A missing function is dropped, a job without keys runs untracked, any other job is queued.
  datatype Enqueued = Ignored | RunsUntracked | Queueing(runnable: seq<Job>)

  class UpdateScheduler {
    var jobs: seq<Job>
    var keyQueues: Queues
    var busyKeys: set<Key>
    ghost var line: seq<Job>
    ghost var running: set<Job>
    ghost var finished: set<Job>
    ghost var arrived: nat

    ghost function View(): State
      reads this`line, this`arrived
    {
      State(TasksOf(line), arrived)
    }

    ghost predicate Tracked()
      reads this, jobs
    {
      && Sound(jobs, line, running, finished, busyKeys, keyQueues, arrived)
      && (forall j | j in jobs :: j.done == (j in finished))
      && (forall j | j in jobs :: j.started == (j in running || j in finished))
    }

    // Exactly the free jobs are running, and the oldest job kept is unfinished.
    ghost predicate Valid()
      reads this, jobs
    {
      && Tracked()
      && (forall i | 0 <= i < |line| :: line[i] in running <==> Free(TasksOf(line), i))
      && (jobs != [] ==> !jobs[0].done)
    }

    constructor ()
      ensures Valid() && line == [] && arrived == 0
    {
      jobs, keyQueues, busyKeys := [], map[], {};
      line, running, finished, arrived := [], {}, {}, 0;
    }

    lemma LineFacts(i: nat)
      requires Tracked() && i < |line|
      ensures Distinct(line) && AllFree(line, running) && forall j | j in running :: j in line
      ensures busyKeys == KeysOf(running) && forall k :: Bucket(keyQueues, k) == WithKey(line, k)
      ensures line[i] in running ==> Free(TasksOf(line), i)
    {
    }

    lemma JobFacts(i: nat, p: nat)
      requires Tracked() && i < |jobs| && p == |Undone(jobs[..i], finished)|
      ensures !jobs[i].done ==> p < |line| && line[p] == jobs[i]
      ensures |Undone(jobs[..i + 1], finished)| == (if jobs[i].done then p else p + 1) <= |line|
      ensures Distinct(line) && AllFree(line, running)
    {
      ScanPosition(jobs, finished, i);
    }

    lemma InOrder()
      requires Tracked()
      ensures Ordered(line, arrived)
    {
    }

    lemma LineIs()
      requires Tracked()
      ensures line == Undone(jobs, finished)
    {
    }

    method CanStart(job: Job) returns (startable: bool)
      ensures startable <==>
              forall k | k in job.keys :: k !in busyKeys && Bucket(keyQueues, k) != [] && Bucket(keyQueues, k)[0] == job
    {
      for i := 0 to |job.keys|
        invariant forall j | 0 <= j < i :: var k := job.keys[j];
                    k !in busyKeys && Bucket(keyQueues, k) != [] && Bucket(keyQueues, k)[0] == job
      {
        var key := job.keys[i];
        if key in busyKeys {
          return false;
        }
        var queue := if key in keyQueues then keyQueues[key] else [];
        if |queue| == 0 || queue[0] != job {
          return false;
        }
      }
      return true;
    }

    method MarkStarted(job: Job)
      modifies this`busyKeys, job`started
      ensures job.started && busyKeys == old(busyKeys) + set k | k in job.keys
    {
      job.started := true;
      for i := 0 to |job.keys|
        invariant job.started && busyKeys == old(busyKeys) + set j | 0 <= j < i :: job.keys[j]
      {
        busyKeys := busyKeys + {job.keys[i]};
      }
    }

    // Starts an unfinished job if nothing earlier in the line shares a key with it.
    method Consider(job: Job, ghost p: nat) returns (starts: bool)
      requires Tracked() && p < |line| && line[p] == job && job in jobs && !job.done
      modifies this`busyKeys, this`running, job`started
      ensures Tracked()
      ensures starts <==> job !in old(running) && Free(TasksOf(line), p)
      ensures running == if starts then old(running) + {job} else old(running)
    {
      hide Sound, Free;
      starts := false;
      if !job.started {
        LineFacts(p);
        StartableIffFree(line, running, p);
        starts := CanStart(job);
        if starts {
          StartKeepsSound(jobs, line, running, finished, busyKeys, keyQueues, arrived, p);
          MarkStarted(job);
          running := running + {job};
        }
      }
    }

    // A single pass reaches the fixpoint: afterwards no unfinished job could still start.
    method CollectRunnable() returns (runnable: seq<Job>)
      requires Tracked() && (jobs != [] ==> !jobs[0].done)
      modifies this`busyKeys, this`running, jobs`started
      ensures Valid()
      ensures runnable == Starting(line, |line|, old(running))
      ensures running == old(running) + (set j | j in runnable) && Starts(old(running), running, runnable)
    {
      hide Sound, Undone, Ordered, Free, Scanned, Starting, Starts, UpdateScheduler.Tracked;
      runnable := [];
      ghost var p, before := 0, running;
      NothingScanned(line, finished, before);
      assert jobs[..0] == [];
      for i := 0 to |jobs|
        invariant Tracked() && p == |Undone(jobs[..i], finished)|
        invariant Scanned(line, p, before, running, runnable)
      {
        var job := jobs[i];
        JobFacts(i, p);
        if !job.done {
          ScannedNext(line, p, before, running, runnable);
          var starts := Consider(job, p);
          if starts {
            runnable := runnable + [job];
          }
          p := p + 1;
        }
      }
      assert jobs[..|jobs|] == jobs;
      LineIs();
      AllScanned(line, before, running, runnable);
      InOrder();
      StartingStarts(line, |line|, before, arrived);
    }

    method QueueUp(job: Job)
      requires Distinct(job.keys) && NoEmptyBucket(keyQueues)
      modifies this`keyQueues
      ensures forall k :: Bucket(keyQueues, k) == Bucket(old(keyQueues), k) + if k in job.keys then [job] else []
      ensures NoEmptyBucket(keyQueues)
    {
      for i := 0 to |job.keys|
        invariant forall k ::
                    Bucket(keyQueues, k) == Bucket(old(keyQueues), k) + if k in job.keys[..i] then [job] else []
        invariant NoEmptyBucket(keyQueues)
      {
        var key := job.keys[i];
        assert key !in job.keys[..i];
        assert job.keys[..i + 1] == job.keys[..i] + [key];
        keyQueues := keyQueues[key := (if key in keyQueues then keyQueues[key] else []) + [job]];
      }
      assert job.keys[..|job.keys|] == job.keys;
    }

    method Release(job: Job, key: Key)
      requires NoEmptyBucket(keyQueues)
      modifies this`busyKeys, this`keyQueues
      ensures busyKeys == old(busyKeys) - {key}
      ensures forall k :: Bucket(keyQueues, k) ==
                          if k == key then RemoveFirst(Bucket(old(keyQueues), k), job) else Bucket(old(keyQueues), k)
      ensures NoEmptyBucket(keyQueues)
    {
      busyKeys := busyKeys - {key};
      var queue := if key in keyQueues then keyQueues[key] else [];
      if |queue| == 0 {
        return;
      }
      if queue[0] == job {
        queue := queue[1..];
      } else {
        queue := Remove(queue, job);
      }
      if |queue| == 0 {
        keyQueues := keyQueues - {key};
      } else {
        keyQueues := keyQueues[key := queue];
      }
    }

    method ReleaseAll(job: Job)
      requires Distinct(job.keys) && NoEmptyBucket(keyQueues)
      modifies this`busyKeys, this`keyQueues
      ensures busyKeys == old(busyKeys) - set k | k in job.keys
      ensures forall k :: Bucket(keyQueues, k) ==
                          if k in job.keys then RemoveFirst(Bucket(old(keyQueues), k), job)
                          else Bucket(old(keyQueues), k)
      ensures NoEmptyBucket(keyQueues)
    {
      for i := 0 to |job.keys|
        invariant busyKeys == old(busyKeys) - set k | k in job.keys[..i]
        invariant NoEmptyBucket(keyQueues)
        invariant forall k :: Bucket(keyQueues, k) ==
                    if k in job.keys[..i] then RemoveFirst(Bucket(old(keyQueues), k), job)
                    else Bucket(old(keyQueues), k)
      {
        hide RemoveFirst;
        assert job.keys[i] !in job.keys[..i];
        assert job.keys[..i + 1] == job.keys[..i] + [job.keys[i]];
        Release(job, job.keys[i]);
      }
      assert job.keys[..|job.keys|] == job.keys;
    }

    // The new job goes last, and starts at once exactly when it shares no key with an unfinished one.
    method Enqueue(keys: seq<Key>, hasRun: bool) returns (outcome: Enqueued)
      requires Valid()
      modifies this, jobs`started
      ensures Valid() && finished == old(finished)
      ensures outcome.Ignored? <==> !hasRun
      ensures outcome.RunsUntracked? <==> hasRun && keys == []
      ensures !outcome.Queueing? ==> View() == old(View()) && running == old(running)
      ensures outcome.Queueing? ==>
                && View() == Step(old(View()), Arrive(Unique(keys))) && line != []
                && var newest := |line| - 1;
                   outcome.runnable == if Free(View().tasks, newest) then [line[newest]] else []
    {
      if !hasRun {
        return Ignored;
      }
      var unique := UniqueStrings(keys);
      UniqueKeepsFirsts(keys);
      if |unique| == 0 {
        return RunsUntracked;
      }
      hide UpdateScheduler.Valid, Unique, Free, Step;
      var runnable := Admit(unique);
      return Queueing(runnable);
    }

    method Admit(keys: seq<Key>) returns (runnable: seq<Job>)
      requires Valid() && keys != [] && Distinct(keys)
      modifies this, jobs`started
      ensures Valid() && finished == old(finished)
      ensures View() == Step(old(View()), Arrive(keys)) && |line| == |old(line)| + 1
      ensures runnable == if Free(View().tasks, |line| - 1) then [line[|line| - 1]] else []
    {
      hide Sound, Free, Starting;
      ghost var lineWas, runningWas := line, running;
      var job := Append(keys);
      runnable := CollectRunnable();
      OnlyNewcomerStarts(lineWas, job, runningWas);
      assert TasksOf(line) == TasksOf(lineWas) + [TaskOf(job)];
    }

    method Append(keys: seq<Key>) returns (job: Job)
      requires Valid() && keys != [] && Distinct(keys)
      modifies this
      ensures Tracked() && (jobs != [] ==> !jobs[0].done)
      ensures fresh(job) && job.keys == keys && job.ticket == old(arrived) && job !in running
      ensures jobs == old(jobs) + [job] && line == old(line) + [job] && arrived == old(arrived) + 1
      ensures running == old(running) && finished == old(finished)
    {
      hide Sound, Queued, Ordered, Free, Unique;
      SoundQueues();
      job := new Job(keys, arrived);
      ghost var queuesWere := keyQueues;
      QueueUp(job);
      AppendKeepsSound(jobs, line, running, finished, busyKeys, queuesWere, arrived, job, keyQueues);
      jobs := jobs + [job];
      line := line + [job];
      arrived := arrived + 1;
    }

    // The job gives up its keys, and whatever that lets start is collected. A job never finishes behind another
    // in one of its queues.
    method Finish(job: Job) returns (runnable: seq<Job>)
      requires Valid() && job in running
      modifies this, jobs
      ensures Valid() && arrived == old(arrived) && finished == old(finished) + {job}
      ensures Enabled(old(View()), Event.Finish(job.ticket))
      ensures View() == Step(old(View()), Event.Finish(job.ticket))
      ensures forall k | k in job.keys :: Bucket(old(keyQueues), k) != [] && Bucket(old(keyQueues), k)[0] == job
      ensures Starts(old(running) - {job}, running, runnable)
    {
      hide Sound, Queued, Ordered, Free, Starting, Starts, Place, UpdateScheduler.Tracked;
      HeadsItsQueues(job);
      ghost var _ := JobPosition(job);
      ghost var _ := Retire(job);
      DropDone();
      assert forall i | 0 <= i < |jobs| :: jobs[i] in old(jobs);
      runnable := CollectRunnable();
    }

    lemma HeadsItsQueues(job: Job)
      requires Tracked() && job in running
      ensures forall k | k in job.keys :: Bucket(keyQueues, k) != [] && Bucket(keyQueues, k)[0] == job
    {
      var p := RunningPosition(job);
      forall k | k in job.keys ensures Bucket(keyQueues, k) != [] && Bucket(keyQueues, k)[0] == job {
        HeadIsFirst(line, p, k);
        forall j | 0 <= j < p ensures k !in line[j].keys {
          assert !Conflicts(TasksOf(line)[j], TasksOf(line)[p]);
        }
      }
    }

    method Retire(job: Job) returns (ghost p: nat)
      requires Valid() && job in running
      modifies this`keyQueues, this`busyKeys, this`line, this`running, this`finished, job`done
      ensures Tracked() && jobs == old(jobs)
      ensures p < |old(line)| && old(line)[p] == job && line == Without(old(line), p)
      ensures Place(old(View()).tasks, job.ticket) == p && Free(old(View()).tasks, p)
      ensures View() == Step(old(View()), Event.Finish(job.ticket))
      ensures running == old(running) - {job} && finished == old(finished) + {job}
    {
      hide Sound, Queued, Ordered, Free;
      p := RunningPosition(job);
      ghost var i := JobPosition(job);
      SoundQueues();
      ghost var queuesWere, busyWere := keyQueues, busyKeys;
      job.done := true;
      ReleaseAll(job);
      FinishKeepsSound(jobs, line, running, finished, busyWere, queuesWere, arrived, p, i, keyQueues);
      line, running, finished := Without(line, p), running - {job}, finished + {job};
    }

    lemma RunningPosition(job: Job) returns (p: nat)
      requires Tracked() && job in running
      ensures p < |line| && line[p] == job && Distinct(job.keys)
      ensures Free(TasksOf(line), p) && Place(TasksOf(line), job.ticket) == p
      ensures TasksOf(Without(line, p)) == TasksOf(line)[..p] + TasksOf(line)[p + 1..]
    {
      p :| 0 <= p < |line| && line[p] == job;
      PlaceOf(line, arrived, p);
    }

    lemma JobPosition(job: Job) returns (i: nat)
      requires Tracked() && job in running
      ensures i < |jobs| && jobs[i] == job
    {
      UndoneMembers(jobs, finished);
      assert job in line;
      i :| 0 <= i < |jobs| && jobs[i] == job;
    }

    method DropDone()
      requires Tracked()
      modifies this`jobs
      ensures Tracked() && (jobs != [] ==> !jobs[0].done)
      ensures forall j | j in jobs :: j in old(jobs)
    {
      while |jobs| > 0 && jobs[0].done
        invariant Tracked()
        invariant forall j | j in jobs :: j in old(jobs)
      {
        hide Sound;
        DropKeepsSound(jobs, line, running, finished, busyKeys, keyQueues, arrived);
        jobs := jobs[1..];
      }
    }

    lemma SoundQueues()
      requires Tracked()
      ensures NoEmptyBucket(keyQueues)
      ensures forall j | j in running :: j in line
    {
    }
  }
}
