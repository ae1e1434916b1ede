/**
 * The keyed ring of yaringbuffer: a class over entries, an index and a cursor, refining a rotated list.
 *
 * A `Ring` lists the entries in the order in which they take their turns. `seam` counts the entries from the
 * cursor to the end of the storage, which is where a new key is appended.
 */
module RingBuffers {
  import opened Wrappers

  const DEFAULT_INITIAL_CAPACITY := 8
  const GROWTH_FACTOR := 2

  datatype Entry<K, V> = Entry(key: K, value: V)

  datatype Ring<K, V> = Ring(order: seq<Entry<K, V>>, seam: nat)

  ghost predicate Distinct<K, V>(order: seq<Entry<K, V>>) {
    forall i, j | 0 <= i < j < |order| :: order[i].key != order[j].key
  }

  ghost predicate WellFormed<K, V>(r: Ring<K, V>) {
    && Distinct(r.order)
    && if r.order == [] then r.seam == 0 else 1 <= r.seam <= |r.order|
  }

  // The turn of a key counted from the cursor, or the length of the ring when the key is absent.
  function Distance<K(==), V>(order: seq<Entry<K, V>>, key: K): (p: nat)
    ensures p <= |order|
    ensures p < |order| ==> order[p].key == key
    ensures forall i | 0 <= i < p :: order[i].key != key
  {
    if order == [] || order[0].key == key then 0 else 1 + Distance(order[1..], key)
  }

  function Upserted<K(==), V>(r: Ring<K, V>, key: K, value: V): Ring<K, V>
    requires r.seam <= |r.order|
  {
    var p := Distance(r.order, key);
    if p < |r.order| then r.(order := r.order[p := Entry(key, value)])
    else Ring(r.order[..r.seam] + [Entry(key, value)] + r.order[r.seam..], r.seam + 1)
  }

  function Removed<K(==), V>(r: Ring<K, V>, key: K): Ring<K, V> {
    var p := Distance(r.order, key);
    if p == |r.order| then r
    else
      var order := r.order[..p] + r.order[p + 1..];
      Ring(order, if p >= r.seam then r.seam else if r.seam > 1 then r.seam - 1 else |order|)
  }

  // The ring after its first k entries took their turns.
  function Rotated<K, V>(r: Ring<K, V>, k: nat): Ring<K, V>
    requires k <= |r.order|
  {
    Ring(r.order[k..] + r.order[..k], if k < r.seam then r.seam - k else r.seam + |r.order| - k)
  }

  function FirstMatch<K, V>(order: seq<Entry<K, V>>, match_: V -> bool): (i: nat)
    ensures i <= |order|
    ensures i < |order| ==> match_(order[i].value)
    ensures forall j | 0 <= j < i :: !match_(order[j].value)
  {
    if order == [] || match_(order[0].value) then 0 else 1 + FirstMatch(order[1..], match_)
  }

  // One selection: the first accepted entry, and the ring resuming right after it.
  function Turn<K, V>(r: Ring<K, V>, match_: V -> bool): (Ring<K, V>, Option<V>) {
    var i := FirstMatch(r.order, match_);
    if i == |r.order| then (r, None) else (Rotated(r, i + 1), Some(r.order[i].value))
  }

  // What a selection returns, and whose turn is next: nothing when nothing matches, and otherwise the first match,
  // which with everybody before it now waits behind the rest.
  ghost predicate GivesTurn<K, V>(order: seq<Entry<K, V>>, match_: V -> bool, value: Option<V>,
                                  order': seq<Entry<K, V>>)
  {
    match value
    case None => order' == order && forall e | e in order :: !match_(e.value)
    case Some(v) =>
      exists i | 0 <= i < |order| ::
        && order[i].value == v && match_(v)
        && (forall j | 0 <= j < i :: !match_(order[j].value))
        && order' == order[i + 1..] + order[..i + 1]
  }

  lemma TurnIsGiven<K, V>(r: Ring<K, V>, match_: V -> bool)
    ensures GivesTurn(r.order, match_, Turn(r, match_).1, Turn(r, match_).0.order)
  {
    var i := FirstMatch(r.order, match_);
    if i < |r.order| {
      assert r.order[i].value == Turn(r, match_).1.value;
    }
  }

  function Always<V>(): V -> bool {
    _ => true
  }

  // `index` is the exact inverse of the positions of the keys.
  ghost predicate Indexed<K, V>(entries: seq<Entry<K, V>>, index: map<K, nat>) {
    && (forall i | 0 <= i < |entries| :: entries[i].key in index && index[entries[i].key] == i)
    && (forall k | k in index :: index[k] < |entries| && entries[index[k]].key == k)
  }

  ghost function Lookup<K, V>(entries: seq<Entry<K, V>>, index: map<K, nat>): (m: map<K, V>)
    requires Indexed(entries, index)
    ensures m.Keys == index.Keys
  {
    map k | k in index :: entries[index[k]].value
  }

  lemma DeletedKeys<K, V>(entries: seq<Entry<K, V>>, index: map<K, nat>, pos: nat)
    requires pos < |entries| && Indexed(entries, index)
    ensures var kept := entries[..pos] + entries[pos + 1..];
            && Distinct(kept)
            && (set e | e in kept :: e.key) == index.Keys - {entries[pos].key}
  {
    var kept := entries[..pos] + entries[pos + 1..];
    forall k | k in index.Keys - {entries[pos].key} ensures exists e :: e in kept && e.key == k {
      var p := index[k];
      assert kept[if p < pos then p else p - 1] == entries[p];
    }
    forall e | e in kept ensures e.key in index && e.key != entries[pos].key {
      var q :| 0 <= q < |kept| && kept[q] == e;
      assert kept[q] == entries[if q < pos then q else q + 1];
    }
    assert forall q | 0 <= q < |kept| :: kept[q] == entries[if q < pos then q else q + 1];
  }

  lemma LookupDelete<K, V>(entries: seq<Entry<K, V>>, index: map<K, nat>, pos: nat, index': map<K, nat>)
    requires pos < |entries| && Indexed(entries, index)
    requires Indexed(entries[..pos] + entries[pos + 1..], index')
    ensures Lookup(entries[..pos] + entries[pos + 1..], index') == Lookup(entries, index) - {entries[pos].key}
  {
    var kept := entries[..pos] + entries[pos + 1..];
    forall k | k in index && k != entries[pos].key ensures k in index' && kept[index'[k]] == entries[index[k]] {
      var p := index[k];
      assert kept[if p < pos then p else p - 1] == entries[p];
    }
    forall k | k in index' ensures k in index && k != entries[pos].key {
      var q := index'[k];
      assert kept[q] == entries[if q < pos then q else q + 1];
    }
  }

  // The stored entries in turn order, for a cursor into the storage.
  function Layout<K, V>(entries: seq<Entry<K, V>>, cursor: nat): (order: seq<Entry<K, V>>)
    requires cursor <= |entries|
    ensures |order| == |entries|
  {
    entries[cursor..] + entries[..cursor]
  }

  // The turn of the entry stored at a position.
  function TurnOf(size: nat, cursor: nat, pos: nat): (turn: nat)
    requires pos < size && cursor < size
    ensures turn < size
  {
    if pos >= cursor then pos - cursor else pos + size - cursor
  }

  lemma WrapOnce(x: nat, n: nat)
    requires x < 2 * n
    ensures x % n == if x < n then x else x - n
  {
    var q := x / n;
    assert x == n * q + x % n;
    assert q >= 2 ==> n * q >= n * 2;
    assert q <= -1 ==> n * q <= n * -1;
  }

  lemma LayoutDistinct<K, V>(entries: seq<Entry<K, V>>, cursor: nat)
    requires Distinct(entries) && cursor <= |entries|
    ensures Distinct(Layout(entries, cursor))
  {
    var order, n := Layout(entries, cursor), |entries|;
    forall i, j | 0 <= i < j < n ensures order[i].key != order[j].key {
      var p := if i < n - cursor then cursor + i else i - (n - cursor);
      var q := if j < n - cursor then cursor + j else j - (n - cursor);
      assert order[i] == entries[p] && order[j] == entries[q] && p != q;
    }
  }

  lemma LayoutAt<K, V>(entries: seq<Entry<K, V>>, cursor: nat, pos: nat)
    requires Distinct(entries) && pos < |entries| && cursor < |entries|
    ensures Layout(entries, cursor)[TurnOf(|entries|, cursor, pos)] == entries[pos]
    ensures Distance(Layout(entries, cursor), entries[pos].key) == TurnOf(|entries|, cursor, pos)
  {
    LayoutDistinct(entries, cursor);
    DistanceUnique(Layout(entries, cursor), TurnOf(|entries|, cursor, pos));
  }

  lemma LayoutAbsent<K, V>(entries: seq<Entry<K, V>>, cursor: nat, key: K)
    requires cursor <= |entries|
    requires forall i | 0 <= i < |entries| :: entries[i].key != key
    ensures Distance(Layout(entries, cursor), key) == |entries|
  {
    var order := Layout(entries, cursor);
    assert forall i | 0 <= i < |order| :: order[i] in entries;
  }

  function RingOf<K, V>(entries: seq<Entry<K, V>>, cursor: nat): Ring<K, V>
    requires cursor <= |entries|
  {
    Ring(Layout(entries, cursor), |entries| - cursor)
  }

  lemma InsertIsIndexed<K, V>(entries: seq<Entry<K, V>>, index: map<K, nat>, e: Entry<K, V>)
    requires Indexed(entries, index) && e.key !in index
    ensures var index' := index[e.key := |entries|];
            && Indexed(entries + [e], index')
            && Lookup(entries + [e], index') == Lookup(entries, index)[e.key := e.value]
  {
  }

  lemma ReplaceIsIndexed<K, V>(entries: seq<Entry<K, V>>, index: map<K, nat>, e: Entry<K, V>)
    requires Indexed(entries, index) && e.key in index
    ensures var entries' := entries[index[e.key] := e];
            && Indexed(entries', index)
            && Lookup(entries', index) == Lookup(entries, index)[e.key := e.value]
  {
  }

  lemma InsertIsUpserted<K, V>(entries: seq<Entry<K, V>>, cursor: nat, e: Entry<K, V>)
    requires cursor <= |entries|
    requires forall i | 0 <= i < |entries| :: entries[i].key != e.key
    ensures RingOf(entries + [e], cursor) == Upserted(RingOf(entries, cursor), e.key, e.value)
  {
    LayoutAbsent(entries, cursor, e.key);
    var order, seam := Layout(entries, cursor), |entries| - cursor;
    assert Layout(entries + [e], cursor) == order[..seam] + [e] + order[seam..];
  }

  lemma ReplaceIsUpserted<K, V>(entries: seq<Entry<K, V>>, cursor: nat, pos: nat, value: V)
    requires Distinct(entries) && pos < |entries| && cursor < |entries|
    ensures var e := Entry(entries[pos].key, value);
            RingOf(entries[pos := e], cursor) == Upserted(RingOf(entries, cursor), e.key, value)
  {
    LayoutAt(entries, cursor, pos);
    var e := Entry(entries[pos].key, value);
    assert Layout(entries[pos := e], cursor) == Layout(entries, cursor)[TurnOf(|entries|, cursor, pos) := e];
  }

  // The cursor after the entry at a position was taken out: it keeps naming the same next entry.
  function ShiftedCursor(cursor: nat, pos: nat, size: nat): nat
    requires cursor < size && pos < size
  {
    var shifted := if pos < cursor then cursor - 1 else cursor;
    if shifted >= size - 1 then 0 else shifted
  }

  lemma DeletedLayout<K, V>(entries: seq<Entry<K, V>>, cursor: nat, pos: nat)
    requires pos < |entries| && cursor < |entries|
    ensures var kept, cursor' := entries[..pos] + entries[pos + 1..], ShiftedCursor(cursor, pos, |entries|);
            var order, turn := Layout(entries, cursor), TurnOf(|entries|, cursor, pos);
            Layout(kept, cursor') == order[..turn] + order[turn + 1..]
  {
    hide Layout;
    if pos < cursor {
      DeletedBefore(entries[..pos], entries[pos], entries[pos + 1..cursor], entries[cursor..]);
      assert entries == entries[..pos] + [entries[pos]] + entries[pos + 1..cursor] + entries[cursor..];
      assert entries[pos + 1..] == entries[pos + 1..cursor] + entries[cursor..];
    } else {
      DeletedAfter(entries[..cursor], entries[cursor..pos], entries[pos], entries[pos + 1..]);
      assert entries == entries[..cursor] + entries[cursor..pos] + [entries[pos]] + entries[pos + 1..];
      assert entries[..pos] == entries[..cursor] + entries[cursor..pos];
    }
  }

  lemma DeletedBefore<K, V>(a: seq<Entry<K, V>>, x: Entry<K, V>, b: seq<Entry<K, V>>, c: seq<Entry<K, V>>)
    requires c != []
    ensures Layout(a + [x] + b + c, |a| + 1 + |b|) == c + a + [x] + b
    ensures (c + a + [x] + b)[..|c| + |a|] == c + a && (c + a + [x] + b)[|c| + |a| + 1..] == b
    ensures Layout(a + (b + c), |a| + |b|) == c + a + b
  {
  }

  lemma DeletedAfter<K, V>(a: seq<Entry<K, V>>, b: seq<Entry<K, V>>, x: Entry<K, V>, c: seq<Entry<K, V>>)
    ensures Layout(a + b + [x] + c, |a|) == b + [x] + c + a
    ensures (b + [x] + c + a)[..|b|] == b && (b + [x] + c + a)[|b| + 1..] == c + a
    ensures Layout(a + b + c, if |b| + |c| == 0 then 0 else |a|) == b + (c + a)
  {
    assert a + b + c == a + (b + c);
  }

  lemma DeleteIsRemoved<K, V>(entries: seq<Entry<K, V>>, cursor: nat, pos: nat)
    requires Distinct(entries) && pos < |entries| && cursor < |entries|
    ensures var kept := entries[..pos] + entries[pos + 1..];
            RingOf(kept, ShiftedCursor(cursor, pos, |entries|)) == Removed(RingOf(entries, cursor), entries[pos].key)
  {
    LayoutAt(entries, cursor, pos);
    DeletedLayout(entries, cursor, pos);
    hide Layout;
  }

  // The position k steps after the cursor, wrapping at the end of the storage.
  function Slot(cursor: nat, k: nat, size: nat): (pos: nat)
    requires cursor < size && k <= size
    ensures pos == if cursor + k < size then cursor + k else cursor + k - size
  {
    WrapOnce(cursor + k, size);
    (cursor + k) % size
  }

  lemma LayoutAdvance<K, V>(entries: seq<Entry<K, V>>, cursor: nat, k: nat)
    requires cursor < |entries| && k <= |entries|
    ensures RingOf(entries, Slot(cursor, k, |entries|)) == Rotated(RingOf(entries, cursor), k)
    ensures k < |entries| ==> entries[Slot(cursor, k, |entries|)] == Layout(entries, cursor)[k]
  {
    hide Slot;
  }

  lemma SelectedIsTurn<K, V>(entries: seq<Entry<K, V>>, cursor: nat, offset: nat, match_: V -> bool)
    requires cursor < |entries|
    requires offset == FirstMatch(Layout(entries, cursor), match_) < |entries|
    ensures var pos := Slot(cursor, offset, |entries|);
            (RingOf(entries, Slot(pos, 1, |entries|)), Some(entries[pos].value)) ==
                Turn(RingOf(entries, cursor), match_)
  {
    hide Rotated, Layout, FirstMatch, Slot;
    LayoutAdvance(entries, cursor, offset);
    LayoutAdvance(entries, cursor, offset + 1);
  }

  class RingBuffer<K(==), V> {
    var entries: seq<Entry<K, V>>
    var index: map<K, nat>
    var cursor: nat
    var capacity: nat

    // `index` is the exact inverse of the positions, and the cursor is in range.
    ghost predicate Valid()
      reads this
    {
      && |entries| <= capacity
      && Indexed(entries, index)
      && (if |entries| == 0 then cursor == 0 else cursor < |entries|)
    }

    ghost function View(): (r: Ring<K, V>)
      reads this
      requires Valid()
    {
      RingOf(entries, cursor)
    }

    lemma ViewIsWellFormed()
      requires Valid()
      ensures WellFormed(View()) && |View().order| == |entries|
    {
      LayoutDistinct(entries, cursor);
    }

    // The values under their keys, whatever their turns.
    ghost function Contents(): (m: map<K, V>)
      reads this
      requires Valid()
    {
      Lookup(entries, index)
    }

    lemma ViewHoldsContents()
      requires Valid()
      ensures forall e | e in View().order :: e.key in Contents() && Contents()[e.key] == e.value
      ensures forall k | k in Contents() :: Entry(k, Contents()[k]) in View().order
    {
      forall k | k in Contents() ensures Entry(k, Contents()[k]) in View().order {
        LayoutAt(entries, cursor, index[k]);
        assert entries[index[k]] in View().order;
      }
    }

    constructor (initialCapacity: int)
      ensures Valid() && View() == Ring([], 0) && Contents() == map[]
      ensures capacity == if initialCapacity <= 0 then 8 else initialCapacity
    {
      entries, index, cursor := [], map[], 0;
      capacity := if initialCapacity <= 0 then DEFAULT_INITIAL_CAPACITY else initialCapacity;
    }

    method Grow()
      requires Valid()
      modifies this`capacity
      ensures Valid() && View() == old(View()) && Contents() == old(Contents())
      ensures capacity == if old(capacity) == 0 then 8 else 2 * old(capacity)
    {
      var grown := capacity * GROWTH_FACTOR;
      if grown == 0 {
        grown := DEFAULT_INITIAL_CAPACITY;
      }
      capacity := grown;
    }

    method Upsert(key: K, value: V) returns (replaced: bool)
      requires Valid()
      modifies this
      ensures Valid()
      ensures replaced <==> key in old(Contents())
      ensures View() == Upserted(old(View()), key, value)
      ensures Contents() == old(Contents())[key := value]
    {
      if key in index {
        var pos := index[key];
        ReplaceIsUpserted(entries, cursor, pos, value);
        ReplaceIsIndexed(entries, index, Entry(key, value));
        entries := entries[pos := Entry(key, value)];
        return true;
      }
      hide Upserted;
      InsertIsUpserted(entries, cursor, Entry(key, value));
      InsertIsIndexed(entries, index, Entry(key, value));
      if |entries| == capacity {
        Grow();
      }
      index := index[key := |entries|];
      entries := entries + [Entry(key, value)];
      return false;
    }

    method Remove(key: K) returns (removed: bool)
      requires Valid()
      modifies this
      ensures Valid()
      ensures removed <==> key in old(Contents())
      ensures View() == Removed(old(View()), key)
      ensures Contents() == old(Contents()) - {key}
    {
      if key !in index {
        LayoutAbsent(entries, cursor, key);
        return false;
      }
      var pos := index[key];
      assert pos < |entries| && entries[pos].key == key;
      ghost var was, before, at := entries, index, cursor;
      DeleteIsRemoved(entries, cursor, pos);
      hide Removed, Layout, Lookup, Indexed, RingOf;
      index := index - {key};
      entries := entries[..pos] + entries[pos + 1..];
      Reindex(pos, was, before);
      if pos < cursor {
        cursor := cursor - 1;
      }
      if cursor >= |entries| {
        cursor := 0;
      }
      assert cursor == ShiftedCursor(at, pos, |was|);
      return true;
    }

    // Restores the index after the entries from `pos` on moved down by one.
    method Reindex(pos: nat, ghost was: seq<Entry<K, V>>, ghost before: map<K, nat>)
      requires pos < |was| && Indexed(was, before)
      requires entries == was[..pos] + was[pos + 1..] && index == before - {was[pos].key}
      modifies this`index
      ensures Indexed(entries, index)
      ensures Lookup(entries, index) == Lookup(was, before) - {was[pos].key}
    {
      DeletedKeys(was, before, pos);
      var i := pos;
      while i < |entries|
        invariant pos <= i <= |entries|
        invariant index.Keys == old(index.Keys)
        invariant forall j | 0 <= j < i :: index[entries[j].key] == j
      {
        index := index[entries[i].key := i];
        i := i + 1;
      }
      LookupDelete(was, before, pos, index);
    }

    method Get(key: K) returns (value: Option<V>)
      requires Valid()
      ensures value == if key in Contents() then Some(Contents()[key]) else None
    {
      value := if key in index then Some(entries[index[key]].value) else None;
    }

    function Len(): (size: nat)
      reads this
      requires Valid()
      ensures size == 0 <==> Contents() == map[]
    {
      assert |entries| > 0 ==> entries[0].key in index;
      assert |entries| == 0 ==> index == map[];
      |entries|
    }

    method Next() returns (value: Option<V>)
      requires Valid()
      modifies this`cursor
      ensures Valid() && Contents() == old(Contents())
      ensures (View(), value) == Turn(old(View()), Always())
      ensures value == if old(View().order) == [] then None else Some(old(View().order)[0].value)
      ensures View().order ==
              if old(View().order) == [] then [] else old(View().order)[1..] + old(View().order)[..1]
    {
      TurnIsGiven(View(), Always());
      if |entries| == 0 {
        return None;
      }
      SelectedIsTurn(entries, cursor, 0, Always());
      hide Turn, RingOf, FirstMatch, Slot;
      value := Some(entries[cursor].value);
      cursor := Slot(cursor, 1, |entries|);
    }

    // `accepts` is the predicate as a mathematical function of the stored values.
    method NextMatch(match_: V ~> bool, ghost accepts: V -> bool) returns (value: Option<V>)
      requires Valid()
      requires forall i | 0 <= i < |entries| ::
                 match_.requires(entries[i].value) && match_(entries[i].value) == accepts(entries[i].value)
      modifies this`cursor
      ensures Valid() && Contents() == old(Contents())
      ensures (View(), value) == Turn(old(View()), accepts)
      ensures GivesTurn(old(View().order), accepts, value, View().order)
    {
      TurnIsGiven(View(), accepts);
      hide GivesTurn;
      var offset := Scan(match_, accepts);
      if offset == |entries| {
        return None;
      }
      SelectedIsTurn(entries, cursor, offset, accepts);
      hide Turn, RingOf, FirstMatch, Slot;
      var pos := Slot(cursor, offset, |entries|);
      value := Some(entries[pos].value);
      cursor := Slot(pos, 1, |entries|);
    }

    // At most one lap from the cursor, stopping at the first accepted entry.
    method Scan(match_: V ~> bool, ghost accepts: V -> bool) returns (offset: nat)
      requires Valid()
      requires forall i | 0 <= i < |entries| ::
                 match_.requires(entries[i].value) && match_(entries[i].value) == accepts(entries[i].value)
      ensures offset == FirstMatch(View().order, accepts)
    {
      offset := 0;
      hide Slot;
      while offset < |entries|
        invariant offset <= |entries|
        invariant forall j | 0 <= j < offset :: !accepts(Layout(entries, cursor)[j].value)
      {
        LayoutAdvance(entries, cursor, offset);
        if match_(entries[Slot(cursor, offset, |entries|)].value) {
          return;
        }
        offset := offset + 1;
      }
    }

    method Keys() returns (keys: seq<K>)
      requires Valid()
      ensures keys == KeysOf(View().order)
    {
      keys := [];
      var offset := 0;
      hide Slot;
      while offset < |entries|
        invariant offset <= |entries|
        invariant keys == KeysOf(Layout(entries, cursor))[..offset]
      {
        LayoutAdvance(entries, cursor, offset);
        keys := keys + [entries[Slot(cursor, offset, |entries|)].key];
        offset := offset + 1;
      }
    }

    method Values() returns (values: seq<V>)
      requires Valid()
      ensures values == ValuesOf(View().order)
    {
      values := [];
      var offset := 0;
      hide Slot;
      while offset < |entries|
        invariant offset <= |entries|
        invariant values == ValuesOf(Layout(entries, cursor))[..offset]
      {
        LayoutAdvance(entries, cursor, offset);
        values := values + [entries[Slot(cursor, offset, |entries|)].value];
        offset := offset + 1;
      }
    }

    method Clear()
      modifies this
      ensures Valid() && View() == Ring([], 0) && Contents() == map[]
    {
      entries, index, cursor, capacity := [], map[], 0, 0;
    }
  }

  function KeysOf<K, V>(order: seq<Entry<K, V>>): (keys: seq<K>)
    ensures |keys| == |order|
    ensures forall i | 0 <= i < |order| :: keys[i] == order[i].key
  {
    seq(|order|, i requires 0 <= i < |order| => order[i].key)
  }

  function ValuesOf<K, V>(order: seq<Entry<K, V>>): (values: seq<V>)
    ensures |values| == |order|
    ensures forall i | 0 <= i < |order| :: values[i] == order[i].value
  {
    seq(|order|, i requires 0 <= i < |order| => order[i].value)
  }

  lemma DistanceUnique<K, V>(order: seq<Entry<K, V>>, p: nat)
    requires Distinct(order) && p < |order|
    ensures Distance(order, order[p].key) == p
  {
  }
}
