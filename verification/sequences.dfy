/** Lists of identifiers and jobs: removal of one element, and indexes of lists that keep no empty entry. */
module Sequences {

  ghost predicate Distinct<T>(s: seq<T>) {
    forall i, j | 0 <= i < j < |s| :: s[i] != s[j]
  }

  // The sequence without the first occurrence of an element.
  function RemoveFirst<T(==)>(s: seq<T>, x: T): seq<T> {
    if s == [] then []
    else if s[0] == x then s[1..]
    else [s[0]] + RemoveFirst(s[1..], x)
  }

  lemma RemoveFirstNext<T>(s: seq<T>, x: T, i: nat)
    requires i < |s|
    ensures s[..i] + RemoveFirst(s[i..], x) ==
            if s[i] == x then s[..i] + s[i + 1..] else s[..i + 1] + RemoveFirst(s[i + 1..], x)
  {
    assert s[i..][1..] == s[i + 1..];
    assert s[..i] + [s[i]] == s[..i + 1];
  }

  method Remove<T(==)>(s: seq<T>, x: T) returns (rest: seq<T>)
    ensures rest == RemoveFirst(s, x)
  {
    for i := 0 to |s|
      invariant RemoveFirst(s, x) == s[..i] + RemoveFirst(s[i..], x)
    {
      RemoveFirstNext(s, x, i);
      if s[i] == x {
        return s[..i] + s[i + 1..];
      }
    }
    return s;
  }

  // What an index holds under a key.
  function Bucket<K, V>(index: map<K, seq<V>>, key: K): seq<V> {
    if key in index then index[key] else []
  }

  ghost predicate NoEmptyBucket<K, V>(index: map<K, seq<V>>) {
    forall k | k in index :: index[k] != []
  }

  // The members of a set in ascending order.
  ghost predicate Ascending(ids: seq<nat>) {
    forall i, j | 0 <= i < j < |ids| :: ids[i] < ids[j]
  }

  ghost predicate Lists(ids: seq<nat>, members: set<nat>) {
    Ascending(ids) && members == set x | x in ids
  }

  lemma ListsAppend(ids: seq<nat>, members: set<nat>, x: nat)
    requires Lists(ids, members) && forall m | m in members :: m < x
    ensures Lists(ids + [x], members + {x})
  {
    forall i | 0 <= i < |ids| ensures ids[i] < x {
      assert ids[i] in members;
    }
  }

  lemma ListsRemove(ids: seq<nat>, members: set<nat>, x: nat)
    requires Lists(ids, members)
    ensures Lists(RemoveFirst(ids, x), members - {x})
  {
    if x in ids {
      var i :| 0 <= i < |ids| && ids[i] == x;
      RemoveAt(ids, i);
      assert ids == ids[..i] + [x] + ids[i + 1..];
      ListsWithout(ids[..i], x, ids[i + 1..]);
    } else {
      RemoveAbsent(ids, x);
    }
  }

  lemma {:induction false} ListsCount(ids: seq<nat>, members: set<nat>)
    requires Lists(ids, members)
    ensures |ids| == |members|
  {
    if ids != [] {
      var n := |ids| - 1;
      var rest := ids[..n];
      assert ids == rest + [ids[n]];
      assert members == (set x | x in rest) + {ids[n]};
      ListsCount(rest, set x | x in rest);
    }
  }

  lemma ListsWithout(a: seq<nat>, x: nat, b: seq<nat>)
    requires Ascending(a + [x] + b)
    ensures Lists(a + b, (set y | y in a + [x] + b) - {x})
  {
    var all, rest := a + [x] + b, a + b;
    assert forall j | 0 <= j < |rest| :: rest[j] == all[if j < |a| then j else j + 1];
    assert all[|a|] == x;
    forall y | y in rest ensures y != x {
      var j :| 0 <= j < |rest| && rest[j] == y;
    }
  }

  lemma {:induction false} RemoveAt(ids: seq<nat>, i: nat)
    requires i < |ids| && forall j | 0 <= j < i :: ids[j] != ids[i]
    ensures RemoveFirst(ids, ids[i]) == ids[..i] + ids[i + 1..]
  {
    if i > 0 {
      RemoveAt(ids[1..], i - 1);
      assert ids[1..][..i - 1] == ids[1..i] && ids[1..][i..] == ids[i + 1..];
    }
  }

  lemma {:induction false} RemoveAbsent(ids: seq<nat>, x: nat)
    requires x !in ids
    ensures RemoveFirst(ids, x) == ids
  {
    if ids != [] {
      RemoveAbsent(ids[1..], x);
    }
  }
}
