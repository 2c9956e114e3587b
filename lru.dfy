/** The Infobase LRU cache (infogami/infobase/lru.py): a dictionary that forgets its least
    recently used keys once it holds more than `capacity` of them, the linked queue that
    records recency, and the thing cache built on it. */
module Lru {
  import opened Wrappers

  const QueueEmpty: string := "Queue is empty"
  const KeyError: string := "KeyError"

  // ---------------------------------------------------------------------------
  // Specification: an abstract cache is an order of keys, least recently used
  // first, plus the value of each key.
  // ---------------------------------------------------------------------------

  datatype Cache<K, V> = Cache(order: seq<K>, contents: map<K, V>)

  predicate Distinct<T(==)>(s: seq<T>) {
    forall i, j :: 0 <= i < j < |s| ==> s[i] != s[j]
  }

  /** The order lists each cached key exactly once. */
  predicate WellFormed<K(==), V>(c: Cache<K, V>) {
    && Distinct(c.order)
    && (forall k :: k in c.order ==> k in c.contents)
    && (forall k :: k in c.contents ==> k in c.order)
  }

  /** `s` with every occurrence of `x` removed. */
  function Without<T(==)>(s: seq<T>, x: T): (r: seq<T>)
    ensures |r| <= |s|
  {
    if s == [] then []
    else if s[0] == x then Without(s[1..], x)
    else [s[0]] + Without(s[1..], x)
  }

  /** `s` with every element of `xs` removed. */
  function WithoutAll<T(==)>(s: seq<T>, xs: set<T>): (r: seq<T>)
    ensures |r| <= |s|
  {
    if s == [] then []
    else if s[0] in xs then WithoutAll(s[1..], xs)
    else [s[0]] + WithoutAll(s[1..], xs)
  }

  /** Using a key moves it to the most recently used end. */
  function Touched<T(==)>(order: seq<T>, k: T): seq<T> {
    Without(order, k) + [k]
  }

  /** Pruning keeps the `capacity` most recently used keys. */
  function Pruned<T>(order: seq<T>, capacity: nat): (r: seq<T>)
    ensures |r| <= |order| && (|r| <= capacity || r == order)
  {
    if |order| <= capacity then order else order[|order| - capacity..]
  }

  function Restrict<K(==), V>(m: map<K, V>, keys: seq<K>): map<K, V> {
    map k | k in m && k in keys :: m[k]
  }

  /** The key order after `cache[key] = value` and the pruning that follows it. */
  function SetOrder<T(==)>(order: seq<T>, key: T, capacity: nat): seq<T> {
    Pruned(Touched(order, key), capacity)
  }

  /** `cache[key] = value`: the key becomes the most recently used, then the cache is pruned. */
  function SetSpec<K(==), V>(c: Cache<K, V>, key: K, value: V, capacity: nat): Cache<K, V> {
    var o := SetOrder(c.order, key, capacity);
    Cache(o, Restrict(c.contents[key := value], o))
  }

  /** A successful read only touches the key. */
  function GetSpec<K(==), V>(c: Cache<K, V>, key: K): Cache<K, V> {
    Cache(Touched(c.order, key), c.contents)
  }

  function DelSpec<K(==), V>(c: Cache<K, V>, key: K): Cache<K, V> {
    Cache(Without(c.order, key), c.contents - {key})
  }

  /** `update(items)`: each pair is set in turn. */
  function UpdateSpec<K(==), V>(c: Cache<K, V>, items: seq<(K, V)>, capacity: nat): Cache<K, V>
    decreases |items|
  {
    if items == [] then c
    else UpdateSpec(SetSpec(c, items[0].0, items[0].1, capacity), items[1..], capacity)
  }

  /** `delete_many(keys)`: each key is deleted in turn. */
  function DelManySpec<K(==), V>(c: Cache<K, V>, keys: seq<K>): Cache<K, V>
    decreases |keys|
  {
    if keys == [] then c
    else DelSpec(DelManySpec(c, keys[..|keys| - 1]), keys[|keys| - 1])
  }

  function Elems<T>(s: seq<T>): set<T> {
    set x | x in s
  }

  function RemoveAt<T>(s: seq<T>, i: nat): seq<T>
    requires i < |s|
  {
    s[..i] + s[i + 1..]
  }

  /** `Without(s, x)` holds exactly the elements of `s` other than `x`. */
  lemma {:induction false} WithoutMembers<T>(s: seq<T>, x: T)
    ensures forall y :: y in Without(s, x) ==> y in s && y != x
    ensures forall y :: y in s && y != x ==> y in Without(s, x)
    ensures x !in s ==> Without(s, x) == s
  {
    if s != [] {
      WithoutMembers(s[1..], x);
      assert s == [s[0]] + s[1..];
    }
  }

  /** `WithoutAll(s, xs)` holds exactly the elements of `s` outside `xs`. */
  lemma {:induction false} WithoutAllMembers<T>(s: seq<T>, xs: set<T>)
    ensures forall y :: y in WithoutAll(s, xs) ==> y in s && y !in xs
    ensures forall y :: y in s && y !in xs ==> y in WithoutAll(s, xs)
  {
    if s != [] {
      WithoutAllMembers(s[1..], xs);
      assert s == [s[0]] + s[1..];
    }
  }

  lemma {:induction false} WithoutDistinct<T>(s: seq<T>, x: T)
    requires Distinct(s)
    ensures Distinct(Without(s, x))
  {
    if s != [] {
      WithoutDistinct(s[1..], x);
      if s[0] != x {
        var r := Without(s[1..], x);
        WithoutMembers(s[1..], x);
        assert s[0] !in r;
        forall i, j | 0 <= i < j < |[s[0]] + r| ensures ([s[0]] + r)[i] != ([s[0]] + r)[j] {
          if i > 0 { assert ([s[0]] + r)[i] == r[i - 1]; }
        }
      }
    }
  }

  /** In a list without duplicates, removing an element is removing its one position. */
  lemma {:induction false} WithoutAt<T>(s: seq<T>, i: nat)
    requires Distinct(s) && i < |s|
    ensures Without(s, s[i]) == RemoveAt(s, i)
  {
    if i == 0 {
      assert s[0] !in s[1..];
      WithoutMembers(s[1..], s[0]);
    } else {
      WithoutAt(s[1..], i - 1);
      assert s[1..][i - 1] == s[i];
      assert RemoveAt(s, i) == [s[0]] + RemoveAt(s[1..], i - 1);
    }
  }

  lemma {:induction false} WithoutAllNone<T>(s: seq<T>)
    ensures WithoutAll(s, {}) == s
  {
    if s != [] {
      WithoutAllNone(s[1..]);
      assert s == [s[0]] + s[1..];
    }
  }

  lemma {:induction false} WithoutAllStep<T>(s: seq<T>, xs: set<T>, x: T)
    ensures Without(WithoutAll(s, xs), x) == WithoutAll(s, xs + {x})
  {
    if s != [] {
      WithoutAllStep(s[1..], xs, x);
    }
  }

  lemma DistinctAppend<T>(s: seq<T>, x: T)
    requires Distinct(s) && x !in s
    ensures Distinct(s + [x])
  {
  }

  lemma DistinctRemoveAt<T>(s: seq<T>, at: nat)
    requires Distinct(s) && at < |s|
    ensures Distinct(RemoveAt(s, at)) && s[at] !in RemoveAt(s, at)
  {
    var r := RemoveAt(s, at);
    forall i | 0 <= i < |r| ensures r[i] == s[if i < at then i else i + 1] { }
  }

  lemma DistinctSuffix<T>(s: seq<T>, n: nat)
    requires Distinct(s) && n <= |s|
    ensures Distinct(s[n..])
  {
  }

  /** Pruning keeps a suffix of the order, of length `capacity` at most. */
  lemma PrunedSuffix<T>(s: seq<T>, capacity: nat)
    ensures var r := Pruned(s, capacity);
      && |r| == (if |s| <= capacity then |s| else capacity) && r == s[|s| - |r|..]
  {
  }

  /** Setting a key keeps the cache well formed and leaves at most `capacity` keys; with room
      for one key at least, the new key is the most recently used and holds the new value. */
  lemma {:induction false} SetSpecWellFormed<K, V>(c: Cache<K, V>, key: K, value: V, capacity: nat)
    requires WellFormed(c)
    ensures var c' := SetSpec(c, key, value, capacity);
      && WellFormed(c') && |c'.order| <= capacity
      && (capacity > 0 ==> c'.order[|c'.order| - 1] == key && key in c'.contents && c'.contents[key] == value)
  {
    var t := Touched(c.order, key);
    WithoutDistinct(c.order, key);
    WithoutMembers(c.order, key);
    DistinctAppend(Without(c.order, key), key);
    var o := Pruned(t, capacity);
    if |t| > capacity { DistinctSuffix(t, |t| - capacity); }
    assert Distinct(o);
    assert forall k :: k in t <==> k in c.contents[key := value];
  }

  /** Setting a new key into a full cache evicts exactly the least recently used key. */
  lemma {:induction false} SetEvictsLeastRecent<K, V>(c: Cache<K, V>, key: K, value: V, capacity: nat)
    requires WellFormed(c) && key !in c.contents && |c.order| == capacity > 0
    ensures SetSpec(c, key, value, capacity).order == c.order[1..] + [key]
    ensures c.order[0] !in SetSpec(c, key, value, capacity).contents
  {
    assert key !in c.order;
    WithoutMembers(c.order, key);
    var t := Touched(c.order, key);
    assert t == c.order + [key];
    assert t[1..] == c.order[1..] + [key];
    assert c.order[0] !in c.order[1..];
  }

  /** Reading a cached key makes it the most recently used and changes no value. */
  lemma {:induction false} GetSpecMovesToEnd<K, V>(c: Cache<K, V>, key: K)
    requires WellFormed(c) && key in c.contents
    ensures var c' := GetSpec(c, key);
      && WellFormed(c') && c'.contents == c.contents && c'.order[|c'.order| - 1] == key
      && |c'.order| == |c.order|
  {
    WithoutDistinct(c.order, key);
    WithoutMembers(c.order, key);
    DistinctAppend(Without(c.order, key), key);
    var i :| 0 <= i < |c.order| && c.order[i] == key;
    WithoutAt(c.order, i);
  }

  /** Deleting keeps the cache well formed and the key is gone. */
  lemma {:induction false} DelSpecWellFormed<K, V>(c: Cache<K, V>, key: K)
    requires WellFormed(c)
    ensures WellFormed(DelSpec(c, key)) && key !in DelSpec(c, key).contents
  {
    WithoutDistinct(c.order, key);
    WithoutMembers(c.order, key);
  }

  /** Deleting a key that is not cached changes nothing. */
  lemma DelAbsent<K, V>(c: Cache<K, V>, key: K)
    requires WellFormed(c) && key !in c.contents
    ensures DelSpec(c, key) == c
  {
    WithoutMembers(c.order, key);
  }

  /** Deleting keys one by one removes them all from the order and from the contents. */
  lemma {:induction false} DelManyClosedForm<K, V>(c: Cache<K, V>, keys: seq<K>)
    ensures DelManySpec(c, keys) == Cache(WithoutAll(c.order, Elems(keys)), c.contents - Elems(keys))
    decreases |keys|
  {
    if keys == [] {
      WithoutAllNone(c.order);
      assert Elems(keys) == {};
    } else {
      var init, k := keys[..|keys| - 1], keys[|keys| - 1];
      DelManyClosedForm(c, init);
      WithoutAllStep(c.order, Elems(init), k);
      assert keys == init + [k];
      assert Elems(keys) == Elems(init) + {k};
      assert (c.contents - Elems(init)) - {k} == c.contents - Elems(keys);
    }
  }

  /** Deleting the least recently used key drops the head of the order. */
  lemma DelFirst<K, V>(c: Cache<K, V>)
    requires WellFormed(c) && c.order != []
    ensures DelSpec(c, c.order[0]).order == c.order[1..]
  {
    WithoutAt(c.order, 0);
  }

  /** A well formed cache holds as many values as its order has keys. */
  lemma DistinctKeysCard<K, V>(order: seq<K>, contents: map<K, V>)
    requires WellFormed(Cache(order, contents))
    ensures |contents| == |order|
  {
    assert contents.Keys == Elems(order);
    DistinctSetCard(order);
  }

  lemma {:induction false} DistinctSetCard<T>(s: seq<T>)
    requires Distinct(s)
    ensures |Elems(s)| == |s|
  {
    if s != [] {
      DistinctSetCard(s[1..]);
      assert Elems(s) == Elems(s[1..]) + {s[0]};
      assert s[0] !in Elems(s[1..]);
    }
  }

  /** Dropping the least recently used key from a restriction restricts to the rest of the order. */
  lemma RestrictTail<K, V>(m: map<K, V>, order: seq<K>)
    requires order != [] && Distinct(order)
    ensures Restrict(m, order) - {order[0]} == Restrict(m, order[1..])
  {
    assert order[0] !in order[1..];
    assert forall k :: k in order && k != order[0] ==> k in order[1..] by {
      assert order == [order[0]] + order[1..];
    }
  }

  /** The orderings the module's own doctest shows for a cache of capacity 3. */
  lemma DoctestOrdering()
    ensures SetOrder(SetOrder(SetOrder([], 1, 3), 2, 3), 3, 3) == [1, 2, 3]
    ensures Touched([1, 2, 3], 2) == [1, 3, 2]
    ensures Touched([1, 3, 2], 1) == [3, 2, 1]
    ensures SetOrder([3, 2, 1], 4, 3) == [2, 1, 4]
    ensures Without([2, 1, 4], 1) == [2, 4]
    ensures SetOrder([2, 4], 2, 3) == [4, 2]
  {
    assert Without([2, 3], 2) == [3];
    assert Without([1, 2, 3], 2) == [1, 3];
    assert Without([2], 1) == [2];
    assert Without([3, 2], 1) == [3, 2];
    assert Without([1, 3, 2], 1) == [3, 2];
    assert Without([4], 1) == [4];
    assert Without([1, 4], 1) == [4];
    assert Without([2, 4], 2) == [4];
    assert Touched([3, 2, 1], 4) == [3, 2, 1, 4];
    assert [3, 2, 1, 4][1..] == [2, 1, 4];
  }

  // ---------------------------------------------------------------------------
  // The queue: a circular doubly linked list with a sentinel node.
  // ---------------------------------------------------------------------------

  class Node<K(0,==), V(0)> {
    const key: K
    var value: V
    var next: Node?<K, V>
    var prev: Node?<K, V>

    constructor (key: K, value: V)
      ensures this.key == key && this.value == value
      ensures next == null && prev == null
    {
      this.key := key;
      this.value := value;
      next := null;
      prev := null;
    }

    /** The queue's sentinel node; its key and value are never read. */
    constructor Sentinel()
      ensures next == null && prev == null
    {
      next := null;
      prev := null;
    }
  }

  /** The sentinel `head` sits between the last and the first node; `nodes` lists the
      queued nodes from the front (`head.next`) to the end (`head.prev`). */
  class Queue<K(0,==), V(0)> {
    const head: Node<K, V>
    ghost var nodes: seq<Node<K, V>>

    ghost predicate Valid()
      reads this, head, nodes
    {
      && head !in nodes && Distinct(nodes)
      && head.next == (if nodes == [] then head else nodes[0])
      && head.prev == (if nodes == [] then head else nodes[|nodes| - 1])
      && (nodes != [] ==> nodes[0].prev == head && nodes[|nodes| - 1].next == head)
      && (forall i {:trigger nodes[i].next} :: 0 <= i < |nodes| - 1 ==> nodes[i].next == nodes[i + 1])
      && (forall i {:trigger nodes[i].prev} :: 0 < i < |nodes| ==> nodes[i].prev == nodes[i - 1])
    }

    constructor ()
      ensures Valid() && nodes == [] && fresh(head)
    {
      var h := new Node<K, V>.Sentinel();
      h.next := h;
      h.prev := h;
      head := h;
      nodes := [];
    }

    /** Empties the queue by linking the sentinel to itself. */
    method Clear()
      requires Valid()
      modifies this, head`next, head`prev
      ensures Valid() && nodes == []
    {
      head.next := head;
      head.prev := head;
      nodes := [];
    }

    /** Inserts a node at the end of the queue; only links change. */
    method Insert(node: Node<K, V>)
      requires Valid() && node !in nodes && node != head
      modifies this, head`prev, head.prev`next, node`next, node`prev
      ensures Valid() && nodes == old(nodes) + [node]
    {
      var last := head.prev;
      node.next := head;
      node.prev := last;
      head.prev := node;
      last.next := node;
      ghost var ns := nodes;
      nodes := nodes + [node];
      forall i | 0 <= i < |nodes| - 1 ensures nodes[i].next == nodes[i + 1] {
        assert nodes[i] == ns[i];
        if i + 1 < |ns| {
          assert nodes[i + 1] == ns[i + 1];
        }
      }
      forall i | 0 < i < |nodes| ensures nodes[i].prev == nodes[i - 1] {
        assert nodes[i - 1] == ns[i - 1];
      }
    }

    /** The node at the front of the queue, or the error the source raises. */
    method Peek() returns (r: Result<Node<K, V>, string>)
      requires Valid()
      ensures nodes == [] ==> r == Err(QueueEmpty)
      ensures nodes != [] ==> r == Ok(nodes[0])
    {
      if head.next == head {
        return Err(QueueEmpty);
      }
      return Ok(head.next);
    }

    /** The neighbours of a node; a node that is not linked stands for itself. */
    function PrevOf(n: Node<K, V>): Node<K, V>
      reads n
    {
      if n.prev == null then n else n.prev
    }

    function NextOf(n: Node<K, V>): Node<K, V>
      reads n
    {
      if n.next == null then n else n.next
    }

    /** The node `Remove(node)` unlinks: `node` itself, or the front of the queue. */
    function Victim(node: Node?<K, V>): Node<K, V>
      reads this, head
    {
      if node != null then node else if head.next == null then head else head.next
    }

    /** Unlinks the node at position `at` by joining its neighbours; its own links stay. */
    method Unlink(victim: Node<K, V>, ghost at: nat)
      requires Valid() && at < |nodes| && nodes[at] == victim
      modifies this, PrevOf(victim)`next, NextOf(victim)`prev
      ensures Valid() && nodes == RemoveAt(old(nodes), at)
      ensures victim.next == old(victim.next) && victim.prev == old(victim.prev)
    {
      ghost var ns := nodes;
      var before := victim.prev;
      var after := victim.next;
      if at > 0 { assert ns[at - 1].next == ns[at]; }
      if at + 1 < |ns| { assert ns[at].next == ns[at + 1]; }
      assert before == if at == 0 then head else ns[at - 1];
      assert after == if at + 1 < |ns| then ns[at + 1] else head;
      before.next := after;
      after.prev := before;
      nodes := RemoveAt(nodes, at);
      DistinctRemoveAt(ns, at);
      forall i | 0 <= i < |nodes| - 1 ensures nodes[i].next == nodes[i + 1] {
        if i + 1 < at {
          assert nodes[i] == ns[i] && nodes[i + 1] == ns[i + 1];
        } else if i == at - 1 {
          assert nodes[i] == ns[i] && nodes[i + 1] == ns[i + 2];
        } else {
          assert nodes[i] == ns[i + 1] && nodes[i + 1] == ns[i + 2];
        }
      }
      forall i | 0 < i < |nodes| ensures nodes[i].prev == nodes[i - 1] {
        if i < at {
          assert nodes[i] == ns[i] && nodes[i - 1] == ns[i - 1];
        } else if i == at {
          assert nodes[i] == ns[i + 1] && nodes[i - 1] == ns[i - 1];
        } else {
          assert nodes[i] == ns[i + 1] && nodes[i - 1] == ns[i];
        }
      }
    }

    /** Unlinks `node`, or the front node when none is given, and returns it; an empty
        queue raises "Queue is empty". `at` is the position the node had. */
    method Remove(node: Node?<K, V>) returns (r: Result<Node<K, V>, string>, ghost at: nat)
      requires Valid()
      requires node != null ==> node in nodes
      modifies this, PrevOf(Victim(node))`next, NextOf(Victim(node))`prev
      ensures Valid()
      ensures r.Err? <==> node == null && old(nodes) == []
      ensures r.Err? ==> r.error == QueueEmpty && nodes == old(nodes)
      ensures r.Ok? ==>
        && at < |old(nodes)| && r.value == old(nodes)[at]
        && (node != null ==> r.value == node) && (node == null ==> at == 0)
        && nodes == RemoveAt(old(nodes), at)
        && r.value.next == old(r.value.next) && r.value.prev == old(r.value.prev)
    {
      var victim: Node<K, V>;
      if node == null {
        var p := Peek();
        if p.Err? {
          return p, 0;
        }
        victim := p.value;
        at := 0;
      } else {
        victim := node;
        at :| at < |nodes| && nodes[at] == node;
      }
      Unlink(victim, at);
      r := Ok(victim);
    }

    /** The nodes from the front of the queue to its end, walking the `next` links. */
    method List() returns (ns: seq<Node<K, V>>)
      requires Valid()
      ensures ns == nodes
    {
      var n := head.next;
      ns := [];
      while n != head
        invariant |ns| <= |nodes| && ns == nodes[..|ns|]
        invariant n == if |ns| < |nodes| then nodes[|ns|] else head
        decreases |nodes| - |ns|
      {
        ns := ns + [n];
        n := n.next;
      }
    }
  }

  // ---------------------------------------------------------------------------
  // The LRU dictionary. The recency order that the source keeps in a `Queue` of
  // nodes is kept here as the sequence of their keys.
  // ---------------------------------------------------------------------------

  /** Dictionary that discards least recently used items when its size exceeds `capacity`. */
  class LRU<K(==), V> {
    const capacity: nat
    var order: seq<K>
    var d: map<K, V>

    function Abs(): Cache<K, V>
      reads this
    {
      Cache(order, d)
    }

    ghost predicate Valid()
      reads this
    {
      WellFormed(Abs())
    }

    constructor (capacity: nat)
      ensures Valid() && this.capacity == capacity && Abs() == Cache([], map[])
    {
      this.capacity := capacity;
      order := [];
      d := map[];
    }

    method Contains(key: K) returns (b: bool)
      ensures b <==> key in d
    {
      b := key in d;
    }

    /** Removes the node of `key`, or the least recently used node when no key is given,
        and returns its key and value; an empty cache raises "Queue is empty". */
    method RemoveNode(key: Option<K>) returns (r: Result<(K, V), string>)
      requires Valid() && (key.Some? ==> key.value in d)
      modifies this
      ensures Valid()
      ensures r.Err? <==> key.None? && old(order) == []
      ensures r.Err? ==> r.error == QueueEmpty && Abs() == old(Abs())
      ensures r.Ok? ==>
        && r.value.0 == (if key.Some? then key.value else old(order)[0])
        && r.value.0 in old(d) && r.value.1 == old(d)[r.value.0]
        && Abs() == DelSpec(old(Abs()), r.value.0)
    {
      var k: K;
      if key.Some? {
        k := key.value;
      } else {
        if order == [] {
          return Err(QueueEmpty);
        }
        k := order[0];
      }
      r := Ok((k, d[k]));
      DelSpecWellFormed(Abs(), k);
      order, d := Without(order, k), d - {k};
    }

    /** Moves a cached key to the most recently used end. */
    method Touch(key: K)
      requires Valid() && key in d
      modifies this
      ensures Valid() && Abs() == GetSpec(old(Abs()), key)
    {
      GetSpecMovesToEnd(Abs(), key);
      order := Touched(order, key);
    }

    /** Removes least recently used items while more than `capacity` are cached. */
    method Prune()
      requires Valid()
      modifies this
      ensures Valid()
      ensures order == Pruned(old(order), capacity) && d == Restrict(old(d), order)
    {
      ghost var o := order;
      ghost var n := 0;
      assert d == Restrict(d, order);
      while |d| > capacity
        invariant Valid() && n <= |o| && order == o[n..] && d == Restrict(old(d), order)
        invariant n == 0 || |order| >= capacity
        decreases |o| - n
      {
        DistinctKeysCard(order, d);
        DelFirst(Abs());
        RestrictTail(old(d), order);
        var r := RemoveNode(None);
        n := n + 1;
      }
      DistinctKeysCard(order, d);
      if n > 0 {
        assert |o| - n == capacity;
      }
    }

    /** `cache[key]`: the value, and the key becomes the most recently used; KeyError when absent. */
    method GetItem(key: K) returns (r: Result<V, string>)
      requires Valid()
      modifies this
      ensures Valid()
      ensures key !in old(d) ==> r == Err(KeyError) && Abs() == old(Abs())
      ensures key in old(d) ==> r == Ok(old(d)[key]) && Abs() == GetSpec(old(Abs()), key)
    {
      if key !in d {
        return Err(KeyError);
      }
      Touch(key);
      r := Ok(d[key]);
    }

    /** `get(key, default)`: like `cache[key]`, with `default` in place of the KeyError. */
    method Get(key: K, default: V) returns (v: V)
      requires Valid()
      modifies this
      ensures Valid()
      ensures v == if key in old(d) then old(d)[key] else default
      ensures Abs() == if key in old(d) then GetSpec(old(Abs()), key) else old(Abs())
    {
      var r := GetItem(key);
      v := if r.Ok? then r.value else default;
    }

    /** `getnode(key).value = value`: the key's node is created or touched and holds the value. */
    method Store(key: K, value: V)
      requires Valid()
      modifies this
      ensures Valid()
      ensures Abs() == Cache(Touched(old(order), key), old(d)[key := value])
    {
      if key in d {
        Touch(key);
      } else {
        WithoutMembers(order, key);
        DistinctAppend(order, key);
        order := order + [key];
      }
      d := d[key := value];
    }

    /** `cache[key] = value`: store the value, then prune. */
    method SetItem(key: K, value: V)
      requires Valid()
      modifies this
      ensures Valid() && Abs() == SetSpec(old(Abs()), key, value, capacity)
    {
      Store(key, value);
      Prune();
    }

    /** `del cache[key]`: KeyError when the key is not cached. */
    method DelItem(key: K) returns (r: Result<(), string>)
      requires Valid()
      modifies this
      ensures Valid()
      ensures key !in old(d) ==> r == Err(KeyError) && Abs() == old(Abs())
      ensures key in old(d) ==> r == Ok(()) && Abs() == DelSpec(old(Abs()), key)
    {
      if key !in d {
        return Err(KeyError);
      }
      var removed := RemoveNode(Some(key));
      r := Ok(());
    }

    /** Like `del`, but a missing key is silently ignored. */
    method Delete(key: K)
      requires Valid()
      modifies this
      ensures Valid() && Abs() == DelSpec(old(Abs()), key)
    {
      var r := DelItem(key);
      if r.Err? {
        WithoutMembers(order, key);
        assert d - {key} == d;
      }
    }

    /** Deletes each cached key of `keys`. */
    method DeleteMany(keys: seq<K>)
      requires Valid()
      modifies this
      ensures Valid()
      ensures Abs() == DelManySpec(old(Abs()), keys)
      ensures order == WithoutAll(old(order), Elems(keys)) && d == old(d) - Elems(keys)
    {
      var i := 0;
      while i < |keys|
        invariant 0 <= i <= |keys| && Valid()
        invariant Abs() == DelManySpec(old(Abs()), keys[..i])
      {
        assert keys[..i + 1][..i] == keys[..i];
        if keys[i] in d {
          var r := DelItem(keys[i]);
        } else {
          DelAbsent(Abs(), keys[i]);
        }
        i := i + 1;
      }
      assert keys[..i] == keys;
      DelManyClosedForm(old(Abs()), keys);
    }

    /** `update(items)`: sets each pair in turn. */
    method Update(items: seq<(K, V)>)
      requires Valid()
      modifies this
      ensures Valid() && Abs() == UpdateSpec(old(Abs()), items, capacity)
    {
      var i := 0;
      assert items[0..] == items;
      while i < |items|
        invariant 0 <= i <= |items| && Valid()
        invariant UpdateSpec(old(Abs()), items, capacity) == UpdateSpec(Abs(), items[i..], capacity)
      {
        assert items[i..][1..] == items[i + 1..];
        SetItem(items[i].0, items[i].1);
        i := i + 1;
      }
    }

    /** The cached keys, each once. */
    method Keys() returns (ks: seq<K>)
      requires Valid()
      ensures Distinct(ks) && Elems(ks) == d.Keys
    {
      ks := order;
    }

    /** The cached (key, value) pairs, each key once. */
    method Items() returns (items: seq<(K, V)>)
      requires Valid()
      ensures |items| == |d|
      ensures forall p :: p in items <==> p.0 in d && d[p.0] == p.1
    {
      items := [];
      var i := 0;
      while i < |order|
        invariant 0 <= i <= |order|
        invariant |items| == i && forall j :: 0 <= j < i ==> items[j] == (order[j], d[order[j]])
      {
        items := items + [(order[i], d[order[i]])];
        i := i + 1;
      }
      DistinctKeysCard(order, d);
      forall p: (K, V) | p.0 in d && d[p.0] == p.1 ensures p in items {
        var j :| 0 <= j < |order| && order[j] == p.0;
        assert items[j] == p;
      }
    }

    method Clear()
      modifies this
      ensures Valid() && Abs() == Cache([], map[])
    {
      order := [];
      d := map[];
    }
  }

  /** `lrumemoize(n)(f)(a)`: `f(a)` is stored when `a` is not cached, and the result is read
      back from the cache, so with a capacity of 0 the read raises KeyError. */
  method Memoized<A(==), B>(cache: LRU<A, B>, f: A -> B, a: A) returns (r: Result<B, string>)
    requires cache.Valid() && forall x :: x in cache.d ==> cache.d[x] == f(x)
    modifies cache
    ensures cache.Valid() && forall x :: x in cache.d ==> cache.d[x] == f(x)
    ensures cache.capacity > 0 ==> r == Ok(f(a))
    ensures cache.capacity == 0 && a !in old(cache.d) ==> r == Err(KeyError)
  {
    var present := cache.Contains(a);
    if !present {
      SetSpecWellFormed(cache.Abs(), a, f(a), cache.capacity);
      cache.SetItem(a, f(a));
    }
    r := cache.GetItem(a);
  }

  // ---------------------------------------------------------------------------
  // The thing cache: an LRU keyed by thing id, plus a map from (site id, key) to id.
  // ---------------------------------------------------------------------------

  /** What the thing cache reads of a thing. */
  datatype Thing = Thing(id: int, siteId: int, key: string)

  /** A thing cache is indexed either by id or by a (site id, key) pair. */
  datatype ThingKey = ById(id: int) | BySiteKey(siteId: int, key: string)

  function SiteKeyOf(t: Thing): (int, string) {
    (t.siteId, t.key)
  }

  /** The values of those `keys` that `m` holds, in order. */
  function ValuesOf<K, V>(keys: seq<K>, m: map<K, V>): (r: seq<V>)
    ensures |r| <= |keys|
  {
    if keys == [] then []
    else if keys[0] in m then [m[keys[0]]] + ValuesOf(keys[1..], m)
    else ValuesOf(keys[1..], m)
  }

  /** The values pruning evicts, least recently used first. */
  function EvictedFrom<K, V>(c: Cache<K, V>, capacity: nat): seq<V> {
    ValuesOf(c.order[..|c.order| - |Pruned(c.order, capacity)|], c.contents)
  }

  /** The things `cache[thing.id] = thing` evicts, least recently used first. */
  function EvictedBy(c: Cache<int, Thing>, thing: Thing, capacity: nat): seq<Thing> {
    EvictedFrom(Cache(Touched(c.order, thing.id), c.contents[thing.id := thing]), capacity)
  }

  /** The `key2id` entry of each evicted thing is deleted in turn; KeyError at the first
      thing whose entry is missing. */
  function Unmap(key2id: map<(int, string), int>, evicted: seq<Thing>): (r: Result<map<(int, string), int>, string>)
    ensures r.Ok? ==> r.value.Keys <= key2id.Keys && forall sk :: sk in r.value ==> r.value[sk] == key2id[sk]
    ensures r.Ok? ==> forall t :: t in evicted ==> SiteKeyOf(t) !in r.value
    ensures r.Err? ==> r.error == KeyError
  {
    if evicted == [] then Ok(key2id)
    else if SiteKeyOf(evicted[0]) !in key2id then Err(KeyError)
    else Unmap(key2id - {SiteKeyOf(evicted[0])}, evicted[1..])
  }

  lemma {:induction false} ValuesOfAppend<K, V>(a: seq<K>, b: seq<K>, m: map<K, V>)
    ensures ValuesOf(a + b, m) == ValuesOf(a, m) + ValuesOf(b, m)
  {
    if a != [] {
      assert (a + b)[1..] == a[1..] + b;
      ValuesOfAppend(a[1..], b, m);
    } else {
      assert a + b == b;
    }
  }

  /** Unmapping a concatenation unmaps the first part, then the second. */
  lemma {:induction false} UnmapAppend(key2id: map<(int, string), int>, a: seq<Thing>, b: seq<Thing>)
    ensures Unmap(key2id, a + b) ==
      match Unmap(key2id, a)
      case Err(e) => Err(e)
      case Ok(m) => Unmap(m, b)
  {
    if a != [] {
      assert (a + b)[0] == a[0] && (a + b)[1..] == a[1..] + b;
      if SiteKeyOf(a[0]) in key2id {
        UnmapAppend(key2id - {SiteKeyOf(a[0])}, a[1..], b);
      }
    } else {
      assert a + b == b;
    }
  }

  /** Unmapping one more evicted key, the one at position `n` of `order`. */
  lemma UnmapStep(key2id: map<(int, string), int>, order: seq<int>, n: nat, m: map<int, Thing>, after: map<(int, string), int>)
    requires n < |order| && order[n] in m && Unmap(key2id, ValuesOf(order[..n], m)) == Ok(after)
    ensures Unmap(key2id, ValuesOf(order[..n + 1], m)) ==
      if SiteKeyOf(m[order[n]]) in after then Ok(after - {SiteKeyOf(m[order[n]])}) else Err(KeyError)
  {
    assert order[..n + 1] == order[..n] + [order[n]];
    ValuesOfAppend(order[..n], [order[n]], m);
    UnmapAppend(key2id, ValuesOf(order[..n], m), ValuesOf([order[n]], m));
  }

  /** Once unmapping a prefix of the evicted keys fails, unmapping a longer prefix fails too. */
  lemma UnmapErrExtends(key2id: map<(int, string), int>, order: seq<int>, i: nat, j: nat, m: map<int, Thing>)
    requires i <= j <= |order| && Unmap(key2id, ValuesOf(order[..i], m)).Err?
    ensures Unmap(key2id, ValuesOf(order[..j], m)).Err?
  {
    assert order[..j] == order[..i] + order[i..j];
    ValuesOfAppend(order[..i], order[i..j], m);
    UnmapAppend(key2id, ValuesOf(order[..i], m), ValuesOf(order[i..j], m));
  }

  class ThingCache {
    const lru: LRU<int, Thing>
    var key2id: map<(int, string), int>

    ghost predicate Valid()
      reads this, lru
    {
      lru.Valid()
    }

    constructor (capacity: nat)
      ensures Valid() && fresh(lru) && lru.capacity == capacity
      ensures lru.Abs() == Cache([], map[]) && key2id == map[]
    {
      lru := new LRU(capacity);
      key2id := map[];
    }

    /** A (site id, key) pair is looked up in `key2id`, an id in the LRU. */
    method Contains(key: ThingKey) returns (b: bool)
      ensures key.BySiteKey? ==> (b <==> (key.siteId, key.key) in key2id)
      ensures key.ById? ==> (b <==> key.id in lru.d)
    {
      if key.BySiteKey? {
        b := (key.siteId, key.key) in key2id;
      } else {
        b := lru.Contains(key.id);
      }
    }

    /** The id a key names; KeyError for an unknown (site id, key) pair. */
    function IdOf(key: ThingKey): (r: Result<int, string>)
      reads this
      ensures key.ById? ==> r == Ok(key.id)
      ensures key.BySiteKey? ==> (r.Ok? <==> (key.siteId, key.key) in key2id)
      ensures key.BySiteKey? && r.Ok? ==> r.value == key2id[(key.siteId, key.key)]
    {
      match key
      case ById(id) => Ok(id)
      case BySiteKey(s, k) => if (s, k) in key2id then Ok(key2id[(s, k)]) else Err(KeyError)
    }

    /** `cache[key]`: the cached thing, which becomes the most recently used. */
    method GetItem(key: ThingKey) returns (r: Result<Thing, string>)
      requires Valid()
      modifies lru
      ensures Valid() && key2id == old(key2id)
      ensures IdOf(key).Err? ==> r == Err(KeyError) && lru.Abs() == old(lru.Abs())
      ensures IdOf(key).Ok? ==> var id := IdOf(key).value;
        && (id !in old(lru.d) ==> r == Err(KeyError) && lru.Abs() == old(lru.Abs()))
        && (id in old(lru.d) ==> r == Ok(old(lru.d)[id]) && lru.Abs() == GetSpec(old(lru.Abs()), id))
    {
      var id := IdOf(key);
      if id.Err? {
        return Err(KeyError);
      }
      r := lru.GetItem(id.value);
    }

    /** `get(key)`: the thing when `key in cache`, otherwise None; the default argument is not
        used. A (site id, key) pair still mapped to an id the LRU no longer holds raises KeyError. */
    method Get(key: ThingKey) returns (r: Result<Option<Thing>, string>)
      requires Valid()
      modifies lru
      ensures Valid() && key2id == old(key2id)
      ensures IdOf(key).Err? ==> r == Ok(None) && lru.Abs() == old(lru.Abs())
      ensures IdOf(key).Ok? ==> var id := IdOf(key).value;
        && (key.ById? && id !in old(lru.d) ==> r == Ok(None))
        && (key.BySiteKey? && id !in old(lru.d) ==> r == Err(KeyError))
        && (id in old(lru.d) ==> r == Ok(Some(old(lru.d)[id])) && lru.Abs() == GetSpec(old(lru.Abs()), id))
    {
      var present := Contains(key);
      if !present {
        return Ok(None);
      }
      var t := GetItem(key);
      if t.Err? {
        return Err(t.error);
      }
      r := Ok(Some(t.value));
    }

    /** `remove_node`: the LRU removal, then the removed thing's `key2id` entry is deleted
        (KeyError when it is missing). */
    method RemoveNode(id: Option<int>) returns (r: Result<Thing, string>)
      requires Valid() && (id.Some? ==> id.value in lru.d)
      modifies this, lru
      ensures Valid()
      ensures (r.Err? && r.error == QueueEmpty) <==> id.None? && old(lru.order) == []
      ensures id.None? && old(lru.order) == [] ==> lru.Abs() == old(lru.Abs()) && key2id == old(key2id)
      ensures !(id.None? && old(lru.order) == []) ==>
        var removed := if id.Some? then id.value else old(lru.order)[0];
        && removed in old(lru.d)
        && lru.Abs() == DelSpec(old(lru.Abs()), removed)
        && (SiteKeyOf(old(lru.d)[removed]) in old(key2id) ==>
              r == Ok(old(lru.d)[removed]) && key2id == old(key2id) - {SiteKeyOf(old(lru.d)[removed])})
        && (SiteKeyOf(old(lru.d)[removed]) !in old(key2id) ==> r == Err(KeyError) && key2id == old(key2id))
    {
      var node := lru.RemoveNode(id);
      if node.Err? {
        return Err(node.error);
      }
      var thing := node.value.1;
      if SiteKeyOf(thing) !in key2id {
        return Err(KeyError);
      }
      key2id := key2id - {SiteKeyOf(thing)};
      r := Ok(thing);
    }

    /** The inherited `prune`, which removes least recently used things through the
        overriding `RemoveNode` while more than `capacity` are cached. */
    method Prune() returns (r: Result<(), string>)
      requires Valid()
      modifies this, lru
      ensures Valid()
      ensures var ev := EvictedFrom(old(lru.Abs()), lru.capacity);
        && (r.Ok? <==> Unmap(old(key2id), ev).Ok?)
        && (r.Err? ==> r.error == KeyError)
        && (r.Ok? ==>
              && lru.order == Pruned(old(lru.order), lru.capacity)
              && lru.d == Restrict(old(lru.d), lru.order)
              && key2id == Unmap(old(key2id), ev).value)
    {
      ghost var t := lru.order;
      ghost var m := lru.d;
      ghost var k0 := key2id;
      PrunedSuffix(t, lru.capacity);
      ghost var cut := |t| - |Pruned(t, lru.capacity)|;
      ghost var ev := EvictedFrom(lru.Abs(), lru.capacity);
      assert ev == ValuesOf(t[..cut], m);
      ghost var n := 0;
      assert lru.d == Restrict(m, lru.order);
      r := Ok(());
      while r.Ok? && |lru.d| > lru.capacity
        invariant Valid() && 0 <= n <= cut
        invariant r.Ok? ==> lru.order == t[n..] && lru.d == Restrict(m, lru.order)
        invariant r.Ok? ==> Unmap(k0, ValuesOf(t[..n], m)) == Ok(key2id)
        invariant r.Err? ==> r.error == KeyError && Unmap(k0, ev).Err?
        decreases |t| - n, if r.Ok? then 1 else 0
      {
        DistinctKeysCard(lru.order, lru.d);
        assert n < cut;
        UnmapStep(k0, t, n, m, key2id);
        DelFirst(lru.Abs());
        RestrictTail(m, lru.order);
        var e := RemoveNode(None);
        if e.Err? {
          UnmapErrExtends(k0, t, n + 1, cut, m);
          r := Err(e.error);
        } else {
          n := n + 1;
        }
      }
      if r.Ok? {
        DistinctKeysCard(lru.order, lru.d);
        assert n == cut;
        assert Unmap(k0, ev) == Ok(key2id);
      }
    }

    /** `cache[key] = thing`: stored under the thing's own id (the key argument is ignored),
        pruned, and only then entered in `key2id`. */
    method SetItem(thing: Thing) returns (r: Result<(), string>)
      requires Valid()
      modifies this, lru
      ensures Valid()
      ensures var ev := EvictedBy(old(lru.Abs()), thing, lru.capacity);
        && (r.Ok? <==> Unmap(old(key2id), ev).Ok?)
        && (r.Err? ==> r.error == KeyError)
        && (r.Ok? ==>
              && lru.Abs() == SetSpec(old(lru.Abs()), thing.id, thing, lru.capacity)
              && key2id == Unmap(old(key2id), ev).value[SiteKeyOf(thing) := thing.id])
    {
      lru.Store(thing.id, thing);
      r := Prune();
      if r.Ok? {
        key2id := key2id[SiteKeyOf(thing) := thing.id];
      }
    }

    /** `del cache[key]`: KeyError for an unknown key; the removal goes through `RemoveNode`. */
    method DelItem(key: ThingKey) returns (r: Result<(), string>)
      requires Valid()
      modifies this, lru
      ensures Valid()
      ensures old(IdOf(key)).Err? ==> r == Err(KeyError) && lru.Abs() == old(lru.Abs()) && key2id == old(key2id)
      ensures old(IdOf(key)).Ok? && old(IdOf(key)).value !in old(lru.d) ==>
        r == Err(KeyError) && lru.Abs() == old(lru.Abs()) && key2id == old(key2id)
      ensures old(IdOf(key)).Ok? && old(IdOf(key)).value in old(lru.d) ==>
        var id := old(IdOf(key)).value;
        var sk := SiteKeyOf(old(lru.d)[id]);
        && lru.Abs() == DelSpec(old(lru.Abs()), id)
        && (sk in old(key2id) ==> r == Ok(()) && key2id == old(key2id) - {sk})
        && (sk !in old(key2id) ==> r == Err(KeyError) && key2id == old(key2id))
    {
      var id := IdOf(key);
      if id.Err? || id.value !in lru.d {
        return Err(KeyError);
      }
      var removed := RemoveNode(Some(id.value));
      if removed.Err? {
        return Err(removed.error);
      }
      r := Ok(());
    }

    method Clear()
      modifies this, lru
      ensures Valid() && lru.Abs() == Cache([], map[]) && key2id == map[]
    {
      lru.Clear();
      key2id := map[];
    }
  }
}
