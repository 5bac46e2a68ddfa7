/** The least-recently-used cache: a list of elements, most recent first, and a map into it. */
module Lru {
  import opened Prelude

  // ---- what the cache holds, as values ----

  /** The keys in the order of their last touch, most recent first, and their values. */
  datatype Recency<K, V> = Recency(keys: seq<K>, vals: map<K, V>)
  {
    ghost predicate Valid() {
      && Distinct(keys)
      && (forall k :: k in keys ==> k in vals)
      && (forall k :: k in vals ==> k in keys)
    }
  }

  ghost predicate Distinct<T>(s: seq<T>) { forall i, j :: 0 <= i < j < |s| ==> s[i] != s[j] }

  function RemoveAt<T>(s: seq<T>, i: nat): seq<T>
    requires i < |s|
  {
    s[..i] + s[i + 1..]
  }

  ghost function Position<T>(s: seq<T>, x: T): nat
    requires x in s
  {
    var i :| 0 <= i < |s| && s[i] == x;
    i
  }

  ghost function Touch<K>(keys: seq<K>, k: K): seq<K> {
    [k] + if k in keys then RemoveAt(keys, Position(keys, k)) else keys
  }

  ghost function AfterGet<K, V>(s: Recency<K, V>, k: K): Recency<K, V> {
    if k in s.vals then s.(keys := Touch(s.keys, k)) else s
  }

  /** A new key over capacity pushes the last key out. */
  ghost function AfterPut<K, V>(s: Recency<K, V>, k: K, v: V, max: nat): Recency<K, V> {
    var keys := Touch(s.keys, k);
    if k in s.vals || |keys| <= max then Recency(keys, s.vals[k := v])
    else Recency(keys[..|keys| - 1], s.vals[k := v] - {keys[|keys| - 1]})
  }

  ghost function FilterOut<T>(s: seq<T>, gone: set<T>): seq<T> {
    if s == [] then []
    else if s[0] in gone then FilterOut(s[1..], gone)
    else [s[0]] + FilterOut(s[1..], gone)
  }

  ghost function AfterRemove<K, V>(s: Recency<K, V>, gone: set<K>): Recency<K, V> {
    Recency(FilterOut(s.keys, gone), s.vals - gone)
  }

  lemma PositionIs<T>(s: seq<T>, i: nat)
    requires Distinct(s) && i < |s|
    ensures Position(s, s[i]) == i
  {
  }

  lemma RemoveAtMembers<T>(s: seq<T>, i: nat)
    requires i < |s| && Distinct(s)
    ensures Distinct(RemoveAt(s, i))
    ensures forall x :: x in RemoveAt(s, i) ==> x in s && x != s[i]
    ensures forall x :: x in s && x != s[i] ==> x in RemoveAt(s, i)
  {
    forall x | x in s && x != s[i] ensures x in RemoveAt(s, i) {
      var j :| 0 <= j < |s| && s[j] == x;
      assert RemoveAt(s, i)[if j < i then j else j - 1] == x;
    }
  }

  lemma PushMembers<T>(s: seq<T>, x: T)
    requires Distinct(s) && x !in s
    ensures Distinct([x] + s)
    ensures forall y :: y in [x] + s ==> y == x || y in s
  {
  }

  lemma MoveMembers<T>(s: seq<T>, i: nat)
    requires Distinct(s) && i < |s|
    ensures Distinct([s[i]] + RemoveAt(s, i))
    ensures forall y :: y in [s[i]] + RemoveAt(s, i) ==> y in s
    ensures forall y :: y in s ==> y in [s[i]] + RemoveAt(s, i)
  {
    RemoveAtMembers(s, i);
    PushMembers(RemoveAt(s, i), s[i]);
    assert s[i] in s;
    forall y | y in s ensures y in [s[i]] + RemoveAt(s, i) {
      if y == s[i] { assert ([s[i]] + RemoveAt(s, i))[0] == y; }
    }
  }

  lemma TouchMembers<K>(keys: seq<K>, k: K)
    requires Distinct(keys)
    ensures Distinct(Touch(keys, k))
    ensures forall x :: x in Touch(keys, k) ==> x == k || x in keys
    ensures forall x :: x == k || x in keys ==> x in Touch(keys, k)
    ensures |Touch(keys, k)| == if k in keys then |keys| else |keys| + 1
  {
    if k in keys { RemoveAtMembers(keys, Position(keys, k)); }
  }

  lemma {:induction false} FilterOutMembers<T>(s: seq<T>, gone: set<T>)
    requires Distinct(s)
    ensures Distinct(FilterOut(s, gone)) && |FilterOut(s, gone)| <= |s|
    ensures forall x :: x in FilterOut(s, gone) ==> x in s && x !in gone
    ensures forall x :: x in s && x !in gone ==> x in FilterOut(s, gone)
  {
    if s != [] {
      FilterOutMembers(s[1..], gone);
      assert s[0] !in s[1..];
    }
  }

  lemma PutKeepsValid<K, V>(s: Recency<K, V>, k: K, v: V, max: nat)
    requires s.Valid() && |s.keys| <= max
    ensures AfterPut(s, k, v, max).Valid() && |AfterPut(s, k, v, max).keys| <= max
  {
    TouchMembers(s.keys, k);
  }

  /** Every operation keeps each key once, in the list exactly when it is in the map, and never more than `max`. */
  lemma OperationsKeepValid<K, V>(s: Recency<K, V>, k: K, v: V, gone: set<K>, max: nat)
    requires s.Valid() && |s.keys| <= max
    ensures AfterGet(s, k).Valid() && |AfterGet(s, k).keys| <= max
    ensures AfterPut(s, k, v, max).Valid() && |AfterPut(s, k, v, max).keys| <= max
    ensures AfterRemove(s, gone).Valid() && |AfterRemove(s, gone).keys| <= max
  {
    TouchMembers(s.keys, k);
    PutKeepsValid(s, k, v, max);
    FilterOutMembers(s.keys, gone);
  }

  lemma {:induction false} FilterOutNothing<T>(s: seq<T>)
    ensures FilterOut(s, {}) == s
  {
    if s != [] { FilterOutNothing(s[1..]); }
  }

  lemma AfterRemoveNothing<K, V>(s: Recency<K, V>)
    ensures AfterRemove(s, {}) == s
  {
    FilterOutNothing(s.keys);
  }

  lemma {:induction false} FilterOutAbsent<T>(s: seq<T>, gone: set<T>, x: T)
    requires x !in s
    ensures FilterOut(s, gone) == FilterOut(s, gone + {x})
  {
    if s != [] {
      assert s[0] in s && forall y :: y in s[1..] ==> y in s;
      FilterOutAbsent(s[1..], gone, x);
    }
  }

  lemma MapMinusTwice<K, V>(m: map<K, V>, a: set<K>, b: set<K>)
    ensures m - a - b == m - (a + b)
  {
  }

  lemma DistinctTail<T>(s: seq<T>)
    requires Distinct(s) && s != []
    ensures s[0] !in s[1..] && Distinct(s[1..])
  {
  }

  /** Taking one more element out of what is left. */
  lemma {:induction false} FilterOutStep<T>(s: seq<T>, gone: set<T>, x: T, i: nat)
    requires Distinct(s) && x !in gone
    requires i < |FilterOut(s, gone)| && FilterOut(s, gone)[i] == x
    ensures RemoveAt(FilterOut(s, gone), i) == FilterOut(s, gone + {x})
  {
    DistinctTail(s);
    FilterOutMembers(s[1..], gone);
    if s[0] in gone {
      FilterOutStep(s[1..], gone, x, i);
    } else if i == 0 {
      FilterOutAbsent(s[1..], gone, x);
      ConsRemoveAt(s[0], FilterOut(s[1..], gone), 0);
    } else {
      ConsRemoveAt(s[0], FilterOut(s[1..], gone), i);
      assert FilterOut(s[1..], gone)[i - 1] in FilterOut(s[1..], gone);
      FilterOutStep(s[1..], gone, x, i - 1);
    }
  }

  lemma ConsRemoveAt<T>(x: T, s: seq<T>, i: nat)
    requires i <= |s|
    ensures RemoveAt([x] + s, i) == if i == 0 then s else [x] + RemoveAt(s, i - 1)
  {
  }

  // ---- the cache itself ----

  class Element<K, V> {
    const key: K
    var val: V

    constructor (key: K, val: V)
      ensures this.key == key && this.val == val
    {
      this.key, this.val := key, val;
    }
  }

  function KeysOf<K, V>(order: seq<Element<K, V>>): (keys: seq<K>)
    ensures |keys| == |order| && forall i :: 0 <= i < |order| ==> keys[i] == order[i].key
  {
    seq(|order|, i requires 0 <= i < |order| => order[i].key)
  }

  ghost function Matching<K>(keys: set<K>, match_: K -> bool): set<K> {
    set k | k in keys && match_(k)
  }

  lemma IsMatching<K>(keys: set<K>, match_: K -> bool, gone: set<K>)
    requires forall k :: k in gone ==> k in keys && match_(k)
    requires forall k :: k in keys && match_(k) ==> k in gone
    ensures gone == Matching(keys, match_)
  {
  }

  /** The list and the map hold the same elements, each key once. */
  ghost predicate Linked<K, V>(order: seq<Element<K, V>>, items: map<K, Element<K, V>>) {
    && Distinct(order)
    && (forall e :: e in order ==> e.key in items && items[e.key] == e)
    && (forall k :: k in items ==> items[k] in order && items[k].key == k)
  }

  lemma LinkedKeys<K, V>(order: seq<Element<K, V>>, items: map<K, Element<K, V>>)
    requires Linked(order, items)
    ensures Distinct(KeysOf(order))
    ensures forall k :: k in items ==> k in KeysOf(order)
    ensures forall k :: k in KeysOf(order) ==> k in items
  {
    forall k | k in items ensures k in KeysOf(order) {
      var i := Position(order, items[k]);
      assert KeysOf(order)[i] == k;
    }
    forall i, j | 0 <= i < j < |order| ensures KeysOf(order)[i] != KeysOf(order)[j] {
      assert order[i] in order && order[j] in order;
    }
    forall k | k in KeysOf(order) ensures k in items {
      var i := Position(KeysOf(order), k);
      assert order[i] in order;
    }
  }

  lemma LinkedMove<K, V>(order: seq<Element<K, V>>, items: map<K, Element<K, V>>, i: nat)
    requires Linked(order, items) && i < |order|
    ensures var moved := [order[i]] + RemoveAt(order, i);
            Linked(moved, items) && KeysOf(moved) == Touch(KeysOf(order), order[i].key)
  {
    MoveMembers(order, i);
    MovedKeys(order, items, i);
  }

  lemma MovedKeys<K, V>(order: seq<Element<K, V>>, items: map<K, Element<K, V>>, i: nat)
    requires Linked(order, items) && i < |order|
    ensures KeysOf([order[i]] + RemoveAt(order, i)) == Touch(KeysOf(order), order[i].key)
  {
    LinkedKeys(order, items);
    PositionIs(KeysOf(order), i);
    assert KeysOf(order)[i] == order[i].key;
    assert KeysOf([order[i]] + RemoveAt(order, i)) == [order[i].key] + RemoveAt(KeysOf(order), i);
  }

  lemma LinkedDrop<K, V>(order: seq<Element<K, V>>, items: map<K, Element<K, V>>, i: nat)
    requires Linked(order, items) && i < |order|
    ensures order[i].key in items && items[order[i].key] == order[i]
    ensures Linked(RemoveAt(order, i), items - {order[i].key})
    ensures KeysOf(RemoveAt(order, i)) == RemoveAt(KeysOf(order), i)
  {
    RemoveAtMembers(order, i);
    assert order[i] in order;
    DroppedKeys(order, i);
    forall e | e in RemoveAt(order, i) ensures e.key in items - {order[i].key} && (items - {order[i].key})[e.key] == e {
      assert e in order && e != order[i];
    }
  }

  lemma DroppedKeys<K, V>(order: seq<Element<K, V>>, i: nat)
    requires i < |order|
    ensures KeysOf(RemoveAt(order, i)) == RemoveAt(KeysOf(order), i)
  {
  }

  lemma LinkedPush<K, V>(order: seq<Element<K, V>>, items: map<K, Element<K, V>>, e: Element<K, V>)
    requires Linked(order, items) && e.key !in items
    ensures Linked([e] + order, items[e.key := e])
    ensures KeysOf([e] + order) == Touch(KeysOf(order), e.key)
  {
    LinkedKeys(order, items);
    assert e !in order;
  }

  class Cache<K(==), V> {
    const max: nat
    var order: seq<Element<K, V>>
    var items: map<K, Element<K, V>>

    ghost predicate Valid()
      reads this
    {
      Linked(order, items) && |order| <= max
    }

    /** Part way through a removal: `gone` is what has been deleted of `was`. */
    ghost predicate Removing(was: Recency<K, V>, gone: set<K>)
      reads this, items.Values
    {
      Valid() && View() == AfterRemove(was, gone)
    }

    ghost function View(): Recency<K, V>
      reads this, items.Values
    {
      Recency(KeysOf(order), map k | k in items :: items[k].val)
    }

    constructor (max: nat)
      ensures Valid() && this.max == max && View() == Recency([], map[]) && items == map[]
    {
      this.max := max;
      order := [];
      items := map[];
    }

    lemma ViewValid()
      requires Valid()
      ensures View().Valid() && |View().keys| <= max
    {
      LinkedKeys(order, items);
    }

    /** Where the list holds an element. */
    method Find(e: Element<K, V>) returns (i: nat)
      requires e in order
      ensures i < |order| && order[i] == e
    {
      i := 0;
      while order[i] != e
        invariant i < |order| && e !in order[..i]
        decreases |order| - i
      {
        assert order == order[..i] + [order[i]] + order[i + 1..];
        assert order[..i + 1] == order[..i] + [order[i]];
        i := i + 1;
      }
    }

    /** list.MoveToFront */
    method MoveToFront(e: Element<K, V>)
      requires Valid() && e in order
      modifies this`order
      ensures Valid()
      ensures KeysOf(order) == Touch(old(KeysOf(order)), e.key)
    {
      var i := Find(e);
      LinkedMove(order, items, i);
      order := [e] + RemoveAt(order, i);
    }

    method Get(k: K) returns (r: Option<V>)
      requires Valid()
      modifies this`order
      ensures Valid()
      ensures View() == AfterGet(old(View()), k)
      ensures r == if k in old(View()).vals then Some(old(View()).vals[k]) else None
    {
      if k in items {
        MoveToFront(items[k]);
        return Some(items[k].val);
      }
      return None;
    }

    method Put(k: K, v: V)
      requires Valid()
      modifies this, items.Values
      ensures Valid()
      ensures View() == AfterPut(old(View()), k, v, max)
      ensures forall e :: e in items.Values ==> e in old(items.Values) || fresh(e)
    {
      if k in items {
        SetVal(k, v);
        MoveToFront(items[k]);
      } else {
        Insert(k, v);
      }
    }

    method Insert(k: K, v: V)
      requires Valid() && k !in items
      modifies this
      ensures Valid()
      ensures View() == AfterPut(old(View()), k, v, max)
      ensures forall e :: e in items.Values ==> e in old(items.Values) || fresh(e)
    {
      Push(k, v);
      assert View().vals == old(View()).vals[k := v];
      if |order| > max { EvictOldest(); }
    }

    method SetVal(k: K, v: V)
      requires Valid() && k in items
      modifies items[k]
      ensures Valid() && items[k] in order && items[k].key == k
      ensures View() == old(View()).(vals := old(View()).vals[k := v])
    {
      items[k].val := v;
      assert forall j :: j in items && j != k ==> items[j] != items[k];
      assert View().vals == old(View()).vals[k := v];
    }

    /** list.PushFront of a new element */
    method Push(k: K, v: V)
      requires Linked(order, items) && k !in items
      modifies this
      ensures Linked(order, items) && |order| == |old(order)| + 1
      ensures KeysOf(order) == Touch(old(KeysOf(order)), k)
      ensures k in items && fresh(items[k]) && items[k].val == v && items == old(items)[k := items[k]]
    {
      var e := new Element(k, v);
      LinkedPush(order, items, e);
      order := [e] + order;
      items := items[k := e];
    }

    /** Unlinks the element of `k` from the list and the map; `i` is where it was. */
    method Unlink(k: K) returns (ghost i: nat)
      requires Linked(order, items) && k in items
      modifies this
      ensures i < |old(order)| && old(KeysOf(order))[i] == k
      ensures Linked(order, items) && |order| < |old(order)|
      ensures View() == Recency(RemoveAt(old(KeysOf(order)), i), old(View()).vals - {k})
      ensures items.Keys == old(items.Keys) - {k} && items.Values <= old(items.Values)
    {
      var at := Find(items[k]);
      i := at;
      LinkedDrop(order, items, at);
      order := RemoveAt(order, at);
      items := items - {k};
    }

    method EvictOldest()
      requires Linked(order, items) && order != []
      modifies this
      ensures Linked(order, items) && items.Values <= old(items.Values)
      ensures var keys, n := old(KeysOf(order)), |old(order)| - 1;
              View() == Recency(keys[..n], old(View()).vals - {keys[n]})
    {
      var n := |order| - 1;
      var oldest := order[n];
      LinkedDrop(order, items, n);
      order := RemoveAt(order, n);
      items := items - {oldest.key};
      assert KeysOf(order) == old(KeysOf(order))[..n];
    }

    /** Deletes one more key of those a removal picks. */
    method Delete(k: K, ghost was: Recency<K, V>, ghost gone: set<K>)
      requires Removing(was, gone) && was.Valid() && k in was.vals && k !in gone
      modifies this
      ensures Removing(was, gone + {k}) && items.Values <= old(items.Values)
    {
      assert k in View().vals;
      ghost var i := Unlink(k);
      FilterOutStep(was.keys, gone, k, i);
      MapMinusTwice(was.vals, gone, {k});
    }

    /** Drops every key `match_` picks, visiting the map in no particular order. */
    method Remove(match_: K -> bool)
      requires Valid()
      modifies this
      ensures Valid()
      ensures View() == AfterRemove(old(View()), Matching(old(View()).vals.Keys, match_))
      ensures items.Values <= old(items.Values)
    {
      ghost var was := View();
      ViewValid();
      AfterRemoveNothing(was);
      var todo := items.Keys;
      ghost var gone: set<K> := {};
      while todo != {}
        invariant Removing(was, gone) && todo <= was.vals.Keys && todo !! gone
        invariant forall k :: k in gone ==> k in was.vals && match_(k)
        invariant forall k :: k in was.vals && k !in todo && match_(k) ==> k in gone
        invariant items.Values <= old(items.Values)
        decreases |todo|
      {
        var k :| k in todo;
        todo := todo - {k};
        if match_(k) {
          Delete(k, was, gone);
          gone := gone + {k};
        }
      }
      IsMatching(was.vals.Keys, match_, gone);
    }

    /** How many entries are held. */
    method Len() returns (n: nat)
      requires Valid()
      ensures n == |View().keys| <= max
    {
      n := |order|;
    }
  }

  // ---- least recently used, by the clock ----

  /** The same cache told by the time of each key's last touch. */
  datatype Clocked<K, V> = Clocked(last: map<K, nat>, vals: map<K, V>, now: nat)

  ghost function ClockedTouch<K, V>(c: Clocked<K, V>, k: K, v: V): Clocked<K, V> {
    Clocked(c.last[k := c.now + 1], c.vals[k := v], c.now + 1)
  }

  ghost function ClockedGet<K, V>(c: Clocked<K, V>, k: K): Clocked<K, V> {
    if k in c.vals then ClockedTouch(c, k, c.vals[k]) else c
  }

  ghost predicate IsOldest<K, V>(c: Clocked<K, V>, k: K) {
    k in c.last && forall j :: j in c.last && j != k ==> c.last[k] < c.last[j]
  }

  /** A put over capacity evicts `victim`, the one key touched before all others. */
  ghost predicate ClockedPut<K, V>(c: Clocked<K, V>, k: K, v: V, max: nat, c': Clocked<K, V>, victim: K) {
    var t := ClockedTouch(c, k, v);
    if k in c.vals || |t.last| <= max then c' == t
    else IsOldest(t, victim) && c' == t.(last := t.last - {victim}, vals := t.vals - {victim})
  }

  ghost function ClockedRemove<K, V>(c: Clocked<K, V>, gone: set<K>): Clocked<K, V> {
    c.(last := c.last - gone, vals := c.vals - gone)
  }

  ghost predicate Falling<K>(keys: seq<K>, last: map<K, nat>) {
    && (forall k :: k in keys ==> k in last)
    && (forall i, j :: 0 <= i < j < |keys| ==> last[keys[i]] > last[keys[j]])
  }

  /** The list is the keys by falling time of last touch. */
  ghost predicate Tells<K, V>(s: Recency<K, V>, c: Clocked<K, V>) {
    && s.Valid() && s.vals == c.vals && c.last.Keys == c.vals.Keys
    && (forall k :: k in c.last ==> c.last[k] <= c.now)
    && Falling(s.keys, c.last)
  }

  lemma FallingRemoveAt<K>(keys: seq<K>, last: map<K, nat>, i: nat)
    requires Falling(keys, last) && i < |keys|
    ensures Falling(RemoveAt(keys, i), last)
  {
  }

  lemma FallingPush<K>(keys: seq<K>, last: map<K, nat>, k: K, at: nat)
    requires Falling(keys, last) && k !in keys
    requires forall x :: x in last ==> last[x] < at
    ensures Falling([k] + keys, last[k := at])
  {
  }

  lemma TouchValid<K, V>(s: Recency<K, V>, k: K, v: V)
    requires s.Valid()
    ensures Recency(Touch(s.keys, k), s.vals[k := v]).Valid()
  {
    TouchMembers(s.keys, k);
  }

  lemma TouchTells<K, V>(s: Recency<K, V>, c: Clocked<K, V>, k: K, v: V)
    requires Tells(s, c)
    ensures Tells(Recency(Touch(s.keys, k), s.vals[k := v]), ClockedTouch(c, k, v))
  {
    TouchValid(s, k, v);
    TouchFalls(s.keys, c.last, k, c.now + 1);
  }

  lemma TouchFalls<K>(keys: seq<K>, last: map<K, nat>, k: K, at: nat)
    requires Falling(keys, last) && Distinct(keys)
    requires forall x :: x in last ==> last[x] < at
    ensures Falling(Touch(keys, k), last[k := at])
  {
    if k in keys {
      var i := Position(keys, k);
      RemoveAtMembers(keys, i);
      FallingRemoveAt(keys, last, i);
      FallingPush(RemoveAt(keys, i), last, k, at);
    } else {
      FallingPush(keys, last, k, at);
    }
  }

  lemma GetTells<K, V>(s: Recency<K, V>, c: Clocked<K, V>, k: K)
    requires Tells(s, c)
    ensures Tells(AfterGet(s, k), ClockedGet(c, k))
  {
    if k in s.vals {
      TouchTells(s, c, k, s.vals[k]);
      assert s.vals[k := s.vals[k]] == s.vals;
    }
  }

  lemma {:induction false} DistinctCount<T>(s: seq<T>, m: set<T>)
    requires Distinct(s)
    requires forall x :: x in s ==> x in m
    requires forall x :: x in m ==> x in s
    ensures |m| == |s|
  {
    if s != [] {
      DistinctTail(s);
      DistinctCount(s[1..], m - {s[0]});
    }
  }

  lemma LastIsOldest<K, V>(keys: seq<K>, c: Clocked<K, V>)
    requires Falling(keys, c.last) && keys != []
    requires forall k :: k in c.last ==> k in keys
    ensures IsOldest(c, keys[|keys| - 1])
  {
    forall j | j in c.last && j != keys[|keys| - 1] ensures c.last[keys[|keys| - 1]] < c.last[j] {
      var i := Position(keys, j);
    }
  }

  lemma DropLastTells<K, V>(s: Recency<K, V>, c: Clocked<K, V>)
    requires Tells(s, c) && s.keys != []
    ensures var n := |s.keys| - 1;
            Tells(Recency(s.keys[..n], s.vals - {s.keys[n]}), c.(last := c.last - {s.keys[n]}, vals := c.vals - {s.keys[n]}))
  {
    var i := |s.keys| - 1;
    assert s.keys[..i] == RemoveAt(s.keys, i);
    RemoveAtMembers(s.keys, i);
    FallingRemoveAt(s.keys, c.last, i);
    FallingSub(s.keys[..i], c.last, c.last - {s.keys[i]});
  }

  /** Put at capacity evicts exactly the key whose last touch is longest ago. */
  lemma PutTells<K, V>(s: Recency<K, V>, c: Clocked<K, V>, k: K, v: V, max: nat) returns (c': Clocked<K, V>, victim: K)
    requires Tells(s, c)
    ensures ClockedPut(c, k, v, max, c', victim)
    ensures Tells(AfterPut(s, k, v, max), c')
  {
    var touched := Recency(Touch(s.keys, k), s.vals[k := v]);
    var t := ClockedTouch(c, k, v);
    TouchTells(s, c, k, v);
    DistinctCount(touched.keys, t.last.Keys);
    victim := touched.keys[|touched.keys| - 1];
    c' := t;
    if k !in s.vals && |touched.keys| > max {
      LastIsOldest(touched.keys, t);
      DropLastTells(touched, t);
      c' := t.(last := t.last - {victim}, vals := t.vals - {victim});
    }
  }

  lemma FallingSub<K>(keys: seq<K>, last: map<K, nat>, sub: map<K, nat>)
    requires Falling(keys, last)
    requires forall k :: k in keys ==> k in sub && sub[k] == last[k]
    ensures Falling(keys, sub)
  {
  }

  lemma {:induction false} FilterOutFalls<K>(keys: seq<K>, gone: set<K>, last: map<K, nat>)
    requires Falling(keys, last)
    ensures Falling(FilterOut(keys, gone), last)
    ensures forall k :: k in FilterOut(keys, gone) ==> k in keys
  {
    if keys != [] {
      var tail := keys[1..];
      assert Falling(tail, last) && forall k :: k in tail ==> k in keys && last[keys[0]] > last[k];
      FilterOutFalls(tail, gone, last);
      var f := FilterOut(tail, gone);
      assert Falling([keys[0]] + f, last) by {
        assert forall j :: 0 <= j < |f| ==> f[j] in f && f[j] in tail;
      }
    }
  }

  lemma RemoveTells<K, V>(s: Recency<K, V>, c: Clocked<K, V>, gone: set<K>)
    requires Tells(s, c)
    ensures Tells(AfterRemove(s, gone), ClockedRemove(c, gone))
  {
    FilterOutMembers(s.keys, gone);
    FilterOutFalls(s.keys, gone, c.last);
    FallingSub(FilterOut(s.keys, gone), c.last, c.last - gone);
  }

  // ---- every run ----

  datatype CacheOp<K, V> = GetOp(k: K) | PutOp(k: K, v: V) | RemoveOp(gone: set<K>)

  ghost function After<K, V>(s: Recency<K, V>, op: CacheOp<K, V>, max: nat): Recency<K, V> {
    match op
    case GetOp(k) => AfterGet(s, k)
    case PutOp(k, v) => AfterPut(s, k, v, max)
    case RemoveOp(gone) => AfterRemove(s, gone)
  }

  ghost function Run<K, V>(ops: seq<CacheOp<K, V>>, max: nat): Recency<K, V> {
    if ops == [] then Recency([], map[]) else After(Run(ops[..|ops| - 1], max), ops[|ops| - 1], max)
  }

  ghost predicate ClockedStep<K(!new), V>(c: Clocked<K, V>, op: CacheOp<K, V>, max: nat, c': Clocked<K, V>) {
    match op
    case GetOp(k) => c' == ClockedGet(c, k)
    case PutOp(k, v) => exists victim :: ClockedPut(c, k, v, max, c', victim)
    case RemoveOp(gone) => c' == ClockedRemove(c, gone)
  }

  ghost predicate ClockedRun<K(!new), V>(cs: seq<Clocked<K, V>>, ops: seq<CacheOp<K, V>>, max: nat) {
    && |cs| == |ops| + 1 && cs[0] == Clocked(map[], map[], 0)
    && forall i :: 0 <= i < |ops| ==> ClockedStep(cs[i], ops[i], max, cs[i + 1])
  }

  /** One operation on both caches keeps them telling the same. */
  lemma StepRefines<K(!new), V>(s: Recency<K, V>, c: Clocked<K, V>, op: CacheOp<K, V>, max: nat) returns (c': Clocked<K, V>)
    requires Tells(s, c) && |s.keys| <= max
    ensures ClockedStep(c, op, max, c') && Tells(After(s, op, max), c') && |After(s, op, max).keys| <= max
  {
    match op {
      case GetOp(k) =>
        GetTells(s, c, k);
        TouchMembers(s.keys, k);
        c' := ClockedGet(c, k);
      case PutOp(k, v) =>
        var victim;
        c', victim := PutTells(s, c, k, v, max);
        PutKeepsValid(s, k, v, max);
      case RemoveOp(gone) =>
        RemoveTells(s, c, gone);
        FilterOutMembers(s.keys, gone);
        c' := ClockedRemove(c, gone);
    }
  }

  /** Over every run the list-and-map cache is the clocked cache, holds each key once and stays within `max`. */
  lemma {:induction false} RunRefinesClock<K(!new), V>(ops: seq<CacheOp<K, V>>, max: nat) returns (cs: seq<Clocked<K, V>>)
    ensures ClockedRun(cs, ops, max)
    ensures Tells(Run(ops, max), cs[|ops|])
    ensures |Run(ops, max).keys| <= max
  {
    if ops == [] {
      cs := [Clocked(map[], map[], 0)];
    } else {
      var n := |ops| - 1;
      cs := RunRefinesClock(ops[..n], max);
      var c' := StepRefines(Run(ops[..n], max), cs[n], ops[n], max);
      LongerRun(cs, ops, max, c');
      cs := cs + [c'];
    }
  }

  lemma LongerRun<K(!new), V>(cs: seq<Clocked<K, V>>, ops: seq<CacheOp<K, V>>, max: nat, c': Clocked<K, V>)
    requires ops != [] && ClockedRun(cs, ops[..|ops| - 1], max) && ClockedStep(cs[|ops| - 1], ops[|ops| - 1], max, c')
    ensures ClockedRun(cs + [c'], ops, max)
  {
    var longer, n := cs + [c'], |ops| - 1;
    forall i | 0 <= i < |ops| ensures ClockedStep(longer[i], ops[i], max, longer[i + 1]) {
      if i < n { assert ClockedStep(cs[i], ops[..n][i], max, cs[i + 1]); }
    }
  }
}
