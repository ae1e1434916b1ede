/** What the ring promises over many calls: order, exactly one turn a lap, and a bounded wait under churn. */
module RingFairness {
  import opened Wrappers
  import opened RingBuffers

  function Without<K(==)>(keys: seq<K>, key: K): seq<K> {
    if keys == [] then []
    else if keys[0] == key then Without(keys[1..], key)
    else [keys[0]] + Without(keys[1..], key)
  }

  // The accepted values, in turn order.
  function Matches<K, V>(order: seq<Entry<K, V>>, match_: V -> bool): seq<V> {
    if order == [] then []
    else if match_(order[0].value) then [order[0].value] + Matches(order[1..], match_)
    else Matches(order[1..], match_)
  }

  // What n consecutive selections with one predicate return.
  function Turns<K, V>(r: Ring<K, V>, match_: V -> bool, n: nat): (values: seq<Option<V>>)
    ensures |values| == n
    decreases n
  {
    if n == 0 then [] else
      var (r', value) := Turn(r, match_);
      [value] + Turns(r', match_, n - 1)
  }

  lemma {:induction false} WithoutAbsent<K>(keys: seq<K>, key: K)
    requires key !in keys
    ensures Without(keys, key) == keys
  {
    if keys != [] {
      WithoutAbsent(keys[1..], key);
    }
  }

  lemma {:induction false} WithoutAppend<K>(a: seq<K>, b: seq<K>, key: K)
    ensures Without(a + b, key) == Without(a, key) + Without(b, key)
  {
    if a == [] {
      assert a + b == b;
    } else {
      WithoutAppend(a[1..], b, key);
      assert (a + b)[1..] == a[1..] + b;
    }
  }

  // Removing a key leaves every other key its place in the order of turns.
  lemma RemoveKeepsOrder<K, V>(r: Ring<K, V>, key: K)
    requires WellFormed(r)
    ensures WellFormed(Removed(r, key))
    ensures KeysOf(Removed(r, key).order) == Without(KeysOf(r.order), key)
  {
    var keys, p := KeysOf(r.order), Distance(r.order, key);
    if p == |r.order| {
      assert forall i | 0 <= i < |keys| :: keys[i] != key;
      WithoutAbsent(keys, key);
    } else {
      WithoutMember(keys, p);
      assert KeysOf(Removed(r, key).order) == keys[..p] + keys[p + 1..];
    }
  }

  lemma WithoutMember<K>(keys: seq<K>, p: nat)
    requires p < |keys| && forall i, j | 0 <= i < j < |keys| :: keys[i] != keys[j]
    ensures Without(keys, keys[p]) == keys[..p] + keys[p + 1..]
  {
    assert keys == keys[..p] + [keys[p]] + keys[p + 1..];
    hide Without;
    WithoutMiddle(keys[..p], keys[p], keys[p + 1..]);
  }

  lemma WithoutMiddle<K>(a: seq<K>, key: K, b: seq<K>)
    requires key !in a && key !in b
    ensures Without(a + [key] + b, key) == a + b
  {
    assert Without([key], key) == [] by {
      assert [key][1..] == [];
    }
    hide Without;
    WithoutAppend(a + [key], b, key);
    WithoutAppend(a, [key], key);
    WithoutAbsent(a, key);
    WithoutAbsent(b, key);
  }

  // Replacing a value moves nobody; a new key goes to the end of the storage, after whoever is `seam` turns away.
  lemma UpsertKeepsOrder<K, V>(r: Ring<K, V>, key: K, value: V)
    requires WellFormed(r)
    ensures WellFormed(Upserted(r, key, value))
    ensures var keys := KeysOf(r.order);
            KeysOf(Upserted(r, key, value).order) ==
            if key in keys then keys else keys[..r.seam] + [key] + keys[r.seam..]
  {
    var keys, p := KeysOf(r.order), Distance(r.order, key);
    if p < |r.order| {
      assert keys[p] == key;
    } else {
      assert key !in keys;
      assert KeysOf(Upserted(r, key, value).order) == keys[..r.seam] + [key] + keys[r.seam..];
    }
  }

  lemma RotateKeepsOrder<K, V>(r: Ring<K, V>, k: nat)
    requires WellFormed(r) && k <= |r.order|
    ensures WellFormed(Rotated(r, k))
    ensures KeysOf(Rotated(r, k).order) == KeysOf(r.order)[k..] + KeysOf(r.order)[..k]
  {
    LayoutDistinct(r.order, k);
    assert Layout(r.order, k) == Rotated(r, k).order;
  }

  lemma TurnKeepsOrder<K, V>(r: Ring<K, V>, match_: V -> bool)
    requires WellFormed(r)
    ensures WellFormed(Turn(r, match_).0)
  {
    if FirstMatch(r.order, match_) < |r.order| {
      RotateKeepsOrder(r, FirstMatch(r.order, match_) + 1);
    }
  }

  lemma {:induction false} MatchesAppend<K, V>(a: seq<Entry<K, V>>, b: seq<Entry<K, V>>, match_: V -> bool)
    ensures Matches(a + b, match_) == Matches(a, match_) + Matches(b, match_)
  {
    if a == [] {
      assert a + b == b;
    } else {
      MatchesAppend(a[1..], b, match_);
      assert (a + b)[1..] == a[1..] + b;
    }
  }

  lemma {:induction false} MatchesAfterFirst<K, V>(order: seq<Entry<K, V>>, match_: V -> bool)
    ensures var i := FirstMatch(order, match_);
            && (i == |order| ==> Matches(order, match_) == [])
            && (i < |order| ==>
                  && Matches(order[..i + 1], match_) == [order[i].value]
                  && Matches(order, match_) == [order[i].value] + Matches(order[i + 1..], match_))
  {
    if order != [] {
      var first, rest := order[0], order[1..];
      if match_(first.value) {
        MatchesFrom(first, [], match_);
        assert order[..1] == [first] + [];
      } else {
        MatchesAfterFirst(rest, match_);
        var j := FirstMatch(rest, match_);
        if j < |rest| {
          MatchesFrom(first, rest[..j + 1], match_);
          assert order[..j + 2] == [first] + rest[..j + 1];
          assert order[j + 2..] == rest[j + 1..];
        }
      }
    }
  }

  lemma MatchesFrom<K, V>(first: Entry<K, V>, rest: seq<Entry<K, V>>, match_: V -> bool)
    ensures Matches([first] + rest, match_) ==
            if match_(first.value) then [first.value] + Matches(rest, match_) else Matches(rest, match_)
  {
    assert ([first] + rest)[1..] == rest;
  }

  // One selection serves the first match and sends it to the back of the line of matches.
  lemma TurnRotatesMatches<K, V>(r: Ring<K, V>, match_: V -> bool)
    ensures var matches, (r', value) := Matches(r.order, match_), Turn(r, match_);
            if matches == [] then r' == r && value == None
            else value == Some(matches[0]) && Matches(r'.order, match_) == matches[1..] + [matches[0]]
  {
    MatchesAfterFirst(r.order, match_);
    var i := FirstMatch(r.order, match_);
    if i < |r.order| {
      MatchesAppend(r.order[i + 1..], r.order[..i + 1], match_);
    }
  }

  lemma NextRemainder(i: nat, m: nat)
    requires 0 < m
    ensures (i % m + 1) % m == (i + 1) % m
  {
    WrapOnce(i % m + 1, m);
    var q := i / m;
    assert i + 1 == m * q + (i % m + 1);
    if i % m + 1 < m {
      RemainderUnique(i + 1, m, q, i % m + 1);
    } else {
      assert m * q + m == m * (q + 1);
      RemainderUnique(i + 1, m, q + 1, 0);
    }
  }

  lemma RemainderUnique(x: nat, m: nat, q: nat, rest: nat)
    requires 0 < m && rest < m && x == m * q + rest
    ensures x % m == rest
  {
    var d := x / m - q;
    assert m * (x / m) == m * q + m * d;
    assert m * d == rest - x % m;
    assert d >= 1 ==> m * d >= m;
    assert d <= -1 ==> m * d + m <= 0;
  }

  // The fairness law: with m matches, the calls return the matches one after another in turn order, lap after lap.
  lemma {:induction false} RoundRobin<K, V>(r: Ring<K, V>, match_: V -> bool, n: nat)
    ensures var matches := Matches(r.order, match_);
            if matches == [] then forall i | 0 <= i < n :: Turns(r, match_, n)[i] == None
            else forall i | 0 <= i < n :: Turns(r, match_, n)[i] == Some(matches[i % |matches|])
    decreases n
  {
    if n > 0 {
      TurnRotatesMatches(r, match_);
      var r' := Turn(r, match_).0;
      RoundRobin(r', match_, n - 1);
      var matches, matches' := Matches(r.order, match_), Matches(r'.order, match_);
      if matches != [] {
        forall i | 0 <= i < n ensures Turns(r, match_, n)[i] == Some(matches[i % |matches|]) {
          if i > 0 {
            var j := (i - 1) % |matches|;
            assert Turns(r, match_, n)[i] == Turns(r', match_, n - 1)[i - 1] == Some(matches'[j]);
            NextRemainder(i - 1, |matches|);
            WrapOnce(j + 1, |matches|);
            assert matches'[j] == matches[(j + 1) % |matches|];
          } else {
            RemainderUnique(0, |matches|, 0, 0);
          }
        }
      }
    }
  }

  // The ring after the entries were stored one by one.
  ghost function Inserted<K, V>(entries: seq<Entry<K, V>>): (r: Ring<K, V>)
    ensures r.seam <= |r.order|
  {
    if entries == [] then Ring([], 0) else
      var last := |entries| - 1;
      Upserted(Inserted(entries[..last]), entries[last].key, entries[last].value)
  }

  // The ring after n unconditional selections.
  ghost function Passed<K, V>(r: Ring<K, V>, n: nat): Ring<K, V> {
    if n == 0 then r else Turn(Passed(r, n - 1), Always()).0
  }

  lemma {:induction false} InsertedIsStored<K, V>(entries: seq<Entry<K, V>>)
    requires Distinct(entries)
    ensures Inserted(entries) == Ring(entries, |entries|)
  {
    if entries != [] {
      InsertedIsStored(entries[..|entries| - 1]);
    }
  }

  lemma RotatedNone<K, V>(entries: seq<Entry<K, V>>)
    ensures Rotated(Ring(entries, |entries|), 0) == Ring(entries, |entries|)
  {
    assert entries[0..] + entries[..0] == entries;
  }

  lemma RotatedOnce<K, V>(entries: seq<Entry<K, V>>, k: nat)
    requires k < |entries|
    ensures Turn(Rotated(Ring(entries, |entries|), k), Always()).0 ==
            Rotated(Ring(entries, |entries|), if k + 1 < |entries| then k + 1 else 0)
  {
    hide Turn;
    assert entries[k..] == [entries[k]] + entries[k + 1..];
    TakesTurn(entries[k], entries[k + 1..], entries[..k], |entries| - k);
    assert entries[..k + 1] == entries[..k] + [entries[k]];
    if k + 1 == |entries| {
      assert entries[k + 1..] == [] == entries[..0] && entries[..k + 1] == entries == entries[0..];
    }
  }

  lemma TakesTurn<K, V>(x: Entry<K, V>, ahead: seq<Entry<K, V>>, behind: seq<Entry<K, V>>, seam: nat)
    requires 1 <= seam
    ensures Turn(Ring([x] + ahead + behind, seam), Always()).0 ==
            Ring(ahead + (behind + [x]), if seam > 1 then seam - 1 else seam + |ahead| + |behind|)
  {
    assert ([x] + ahead + behind)[1..] == ahead + behind;
  }

  lemma {:induction false} PassedIsRotated<K, V>(entries: seq<Entry<K, V>>, n: nat)
    requires entries != []
    ensures Passed(Ring(entries, |entries|), n) == Rotated(Ring(entries, |entries|), n % |entries|)
  {
    hide Turn, Rotated;
    if n == 0 {
      RotatedNone(entries);
      RemainderUnique(0, |entries|, 0, 0);
    } else {
      PassedIsRotated(entries, n - 1);
      RotatedOnce(entries, (n - 1) % |entries|);
      NextRemainder(n - 1, |entries|);
      WrapOnce((n - 1) % |entries| + 1, |entries|);
    }
  }

  lemma JoinsRotated<K, V>(entries: seq<Entry<K, V>>, k: nat, e: Entry<K, V>)
    requires k < |entries| && forall i | 0 <= i < |entries| :: entries[i].key != e.key
    ensures var r := Rotated(Ring(entries, |entries|), k);
            && r.order == entries[k..] + entries[..k]
            && r.seam <= |r.order|
            && Upserted(r, e.key, e.value).order == entries[k..] + [e] + entries[..k]
  {
    LayoutAbsent(entries, k, e.key);
    assert Layout(entries, k) == entries[k..] + entries[..k];
    hide Distance;
    var order := entries[k..] + entries[..k];
    assert order[..|entries| - k] == entries[k..] && order[|entries| - k..] == entries[..k];
  }

  // Entries take their turns in the order in which they were stored, lap after lap; a new key joins behind all those
  // whose turn is still ahead in the current lap, in front of the k who had it.
  lemma InsertionOrder<K, V>(entries: seq<Entry<K, V>>, laps: nat, k: nat, e: Entry<K, V>)
    requires k < |entries| && Distinct(entries) && forall i | 0 <= i < |entries| :: entries[i].key != e.key
    ensures Inserted(entries).order == entries
    ensures var r := Passed(Inserted(entries), |entries| * laps + k);
            && r.order == entries[k..] + entries[..k]
            && r.seam <= |r.order|
            && Upserted(r, e.key, e.value).order == entries[k..] + [e] + entries[..k]
  {
    hide Inserted, Passed, Distinct, Rotated, Upserted;
    InsertedIsStored(entries);
    PassedIsRotated(entries, |entries| * laps + k);
    RemainderUnique(|entries| * laps + k, |entries|, laps, k);
    JoinsRotated(entries, k, e);
  }

  // What may happen to a ring between two selections.
  datatype Op<!K, !V> = Select(match_: V -> bool) | Insert(key: K, value: V) | Delete(key: K)

  function Applied<K(==), V>(r: Ring<K, V>, op: Op<K, V>): Ring<K, V>
    requires r.seam <= |r.order|
  {
    match op
    case Select(m) => Turn(r, m).0
    case Insert(k, v) => Upserted(r, k, v)
    case Delete(k) => Removed(r, k)
  }

  lemma AppliedIsWellFormed<K, V>(r: Ring<K, V>, op: Op<K, V>)
    requires WellFormed(r)
    ensures WellFormed(Applied(r, op))
  {
    match op
    case Select(m) => TurnKeepsOrder(r, m);
    case Insert(k, v) => UpsertKeepsOrder(r, k, v);
    case Delete(k) => RemoveKeepsOrder(r, k);
  }

  ghost predicate Holds<K, V>(r: Ring<K, V>, key: K) {
    Distance(r.order, key) < |r.order|
  }

  // The key waits through `ops`: it is never removed, every selection would take its entry, and none does.
  ghost predicate Waits<K, V>(r: Ring<K, V>, ops: seq<Op<K, V>>, key: K)
    requires WellFormed(r)
    decreases |ops|
  {
    ops == [] || (
      && ops[0] != Delete(key)
      && (ops[0].Select? && Holds(r, key) ==>
            && ops[0].match_(r.order[Distance(r.order, key)].value)
            && FirstMatch(r.order, ops[0].match_) != Distance(r.order, key))
      && (AppliedIsWellFormed(r, ops[0]); Waits(Applied(r, ops[0]), ops[1..], key)))
  }

  ghost function Selections<K, V>(ops: seq<Op<K, V>>): nat {
    if ops == [] then 0 else (if ops[0].Select? then 1 else 0) + Selections(ops[1..])
  }

  // The insertions of keys the ring did not hold at that point.
  ghost function Arrivals<K, V>(r: Ring<K, V>, ops: seq<Op<K, V>>): nat
    requires WellFormed(r)
    decreases |ops|
  {
    if ops == [] then 0 else
      AppliedIsWellFormed(r, ops[0]);
      (if ops[0].Insert? && !Holds(r, ops[0].key) then 1 else 0) + Arrivals(Applied(r, ops[0]), ops[1..])
  }

  lemma DistanceIs<K, V>(order: seq<Entry<K, V>>, key: K, p: nat)
    requires p < |order| && order[p].key == key
    requires forall i | 0 <= i < p :: order[i].key != key
    ensures Distance(order, key) == p
  {
  }

  lemma DistanceAfterSelect<K, V>(r: Ring<K, V>, i: nat, key: K)
    requires WellFormed(r) && Holds(r, key) && i < Distance(r.order, key)
    ensures Distance(Rotated(r, i + 1).order, key) == Distance(r.order, key) - (i + 1)
  {
    DistanceIs(Rotated(r, i + 1).order, key, Distance(r.order, key) - (i + 1));
  }

  lemma DistanceAfterDelete<K, V>(r: Ring<K, V>, k: K, key: K)
    requires WellFormed(r) && Holds(r, key) && k != key
    ensures var d, p := Distance(r.order, key), Distance(r.order, k);
            Distance(Removed(r, k).order, key) == if p < d then d - 1 else d
    ensures Holds(Removed(r, k), key)
  {
    var d, p := Distance(r.order, key), Distance(r.order, k);
    if p < |r.order| {
      hide Distance;
      assert r.order[p].key == k;
      var order := r.order[..p] + r.order[p + 1..];
      assert Removed(r, k).order == order;
      DistanceIs(order, key, if p < d then d - 1 else d);
    }
  }

  lemma DistanceAfterInsert<K, V>(r: Ring<K, V>, k: K, v: V, key: K)
    requires WellFormed(r) && Holds(r, key)
    ensures var d := Distance(r.order, key);
            Distance(Upserted(r, k, v).order, key) == if Holds(r, k) || d < r.seam then d else d + 1
    ensures Holds(Upserted(r, k, v), key)
  {
    var d, p := Distance(r.order, key), Distance(r.order, k);
    hide Distance;
    if p < |r.order| {
      assert r.order[p].key == k;
      DistanceIs(r.order[p := Entry(k, v)], key, d);
    } else {
      assert k != key;
      var order := r.order[..r.seam] + [Entry(k, v)] + r.order[r.seam..];
      DistanceIs(order, key, if d < r.seam then d else d + 1);
    }
  }

  // How one operation moves a waiting key: closer on a selection, never back on another key's removal,
  // and at most one place back when a new key arrives.
  lemma DistanceAfter<K, V>(r: Ring<K, V>, op: Op<K, V>, key: K)
    requires WellFormed(r) && Holds(r, key) && Waits(r, [op], key)
    ensures var d, r' := Distance(r.order, key), Applied(r, op);
            && Holds(r', key)
            && (op.Select? ==> Distance(r'.order, key) < d)
            && (op.Delete? ==> Distance(r'.order, key) <= d)
            && (op.Insert? ==> Distance(r'.order, key) <= d + (if Holds(r, op.key) then 0 else 1))
  {
    hide Distance;
    match op
    case Select(m) =>
      assert FirstMatch(r.order, m) < Distance(r.order, key);
      DistanceAfterSelect(r, FirstMatch(r.order, m), key);
    case Delete(k) => DistanceAfterDelete(r, k, key);
    case Insert(k, v) => DistanceAfterInsert(r, k, v, key);
  }

  // Bounded waiting under churn: a key that stays eligible is passed over at most as many times as the entries
  // ahead of it plus the keys that arrived meanwhile, so it is served by the selection after those at the latest.
  lemma {:induction false} BoundedWait<K, V>(r: Ring<K, V>, ops: seq<Op<K, V>>, key: K)
    requires WellFormed(r) && Holds(r, key) && Waits(r, ops, key)
    ensures Selections(ops) <= Distance(r.order, key) + Arrivals(r, ops)
    decreases |ops|
  {
    if ops != [] {
      var r' := Applied(r, ops[0]);
      AppliedIsWellFormed(r, ops[0]);
      assert [ops[0]][1..] == [];
      DistanceAfter(r, ops[0], key);
      BoundedWait(r', ops[1..], key);
    }
  }
}
