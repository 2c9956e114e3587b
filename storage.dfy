/** Central storage (infogami/utils/storage.py): a dictionary that remembers the order in
    which its keys were first added, and a dictionary that fills in a default for a missing
    key. */
module Storage {
  import opened Wrappers

  /** The position of the first occurrence of `x`. */
  function FirstIndex<T(==)>(s: seq<T>, x: T): (i: nat)
    requires x in s
    ensures i < |s| && s[i] == x && x !in s[..i]
  {
    if s[0] == x then 0
    else
      var i := FirstIndex(s[1..], x);
      assert s[..i + 1] == [s[0]] + s[1..][..i];
      i + 1
  }

  /** `list.remove(x)`: the first occurrence of `x` dropped. */
  function RemoveFirst<T(==)>(s: seq<T>, x: T): (r: seq<T>)
    requires x in s
    ensures |r| == |s| - 1
  {
    s[..FirstIndex(s, x)] + s[FirstIndex(s, x) + 1..]
  }

  predicate Distinct<T(==)>(s: seq<T>) {
    forall i, j :: 0 <= i < j < |s| ==> s[i] != s[j]
  }

  /** Removing the only occurrence of a key from a list without repeats leaves the other
      keys, still without repeats. */
  lemma RemoveFirstDistinct<T>(s: seq<T>, x: T)
    requires Distinct(s) && x in s
    ensures Distinct(RemoveFirst(s, x))
    ensures forall y :: y in RemoveFirst(s, x) <==> y in s && y != x
  {
    var i := FirstIndex(s, x);
    var r := RemoveFirst(s, x);
    assert forall k :: 0 <= k < i ==> r[k] == s[k];
    assert forall k :: i <= k < |r| ==> r[k] == s[k + 1];
    forall y ensures y in r <==> y in s && y != x {
      if y in s && y != x {
        var k :| 0 <= k < |s| && s[k] == y;
        if k < i { assert r[k] == y; } else { assert r[k - 1] == y; }
      }
    }
  }

  /** `OrderedDict`: the key list `_keys` and the dictionary `_data` kept in step. */
  class OrderedDict<K(==,!new), V> {
    var keys: seq<K>
    var data: map<K, V>

    /** The two hold the same keys, and the list has no repeats. */
    ghost predicate Valid()
      reads this
    {
      Distinct(keys) && (forall k :: k in data <==> k in keys)
    }

    constructor ()
      ensures Valid() && keys == [] && data == map[]
    {
      keys := [];
      data := map[];
    }

    /** `d[key] = value`: a new key goes at the end of the order, an existing one keeps its place. */
    method SetItem(key: K, value: V)
      requires Valid()
      modifies this
      ensures Valid()
      ensures data == old(data)[key := value]
      ensures keys == if key in old(data) then old(keys) else old(keys) + [key]
    {
      if key !in data {
        keys := keys + [key];
      }
      data := data[key := value];
    }

    /** `d[key]`: KeyError for a missing key. */
    function GetItem(key: K): (r: Result<V, string>)
      reads this
      ensures r.Ok? <==> key in data
      ensures r.Ok? ==> r.value == data[key]
    {
      if key in data then Ok(data[key]) else Err("KeyError")
    }

    /** `del d[key]`: KeyError, and nothing changes, for a missing key; otherwise the key
        leaves both the dictionary and the order, the other keys keeping theirs. */
    method DelItem(key: K) returns (r: Result<(), string>)
      requires Valid()
      modifies this
      ensures Valid()
      ensures r.Err? <==> key !in old(data)
      ensures r.Err? ==> keys == old(keys) && data == old(data)
      ensures r.Ok? ==> data == old(data) - {key} && keys == RemoveFirst(old(keys), key)
    {
      if key !in data {
        return Err("KeyError");
      }
      RemoveFirstDistinct(keys, key);
      data := data - {key};
      keys := RemoveFirst(keys, key);
      r := Ok(());
    }

    /** `keys()`: the keys in the order they were first added. */
    method Keys() returns (r: seq<K>)
      requires Valid()
      ensures r == keys
      ensures forall k :: k in r <==> k in data
    {
      r := keys;
    }

    /** `copy()`: a new dictionary with the same order and contents. */
    method Copy() returns (c: OrderedDict<K, V>)
      requires Valid()
      ensures fresh(c) && c.Valid() && c.keys == keys && c.data == data
    {
      c := new OrderedDict();
      c.data := data;
      c.keys := keys;
    }
  }

  /** Setting a key that is already there, then reading the order, changes nothing about the order. */
  method ResetKeepsOrder<K(==,!new), V>(d: OrderedDict<K, V>, key: K, value: V) returns (before: seq<K>, after: seq<K>)
    requires d.Valid() && key in d.data
    modifies d
    ensures before == after
  {
    before := d.Keys();
    d.SetItem(key, value);
    after := d.Keys();
  }

  /** A copy does not change when the original does. */
  method CopyIsIndependent<K(==,!new), V>(d: OrderedDict<K, V>, key: K, value: V) returns (c: OrderedDict<K, V>)
    requires d.Valid()
    modifies d
    ensures c.keys == old(d.keys) && c.data == old(d.data)
  {
    c := d.Copy();
    d.SetItem(key, value);
  }

  /** The name under which a `DefaultDict` keeps its default: attribute assignment is item
      assignment, so `self.default = default` stores an item. */
  const DefaultName := "default"

  /** `DefaultDict(default)`: a dictionary whose missing keys read as its item "default". */
  class DefaultDict<V> {
    var data: map<string, V>

    /** The default is one of the items; nothing here deletes it. */
    ghost predicate Valid()
      reads this
    {
      DefaultName in data
    }

    /** What a missing key reads as: `self.default`, which is the item "default". */
    function Default(): V
      reads this
      requires Valid()
    {
      data[DefaultName]
    }

    constructor (default: V)
      ensures Valid() && data == map[DefaultName := default]
    {
      data := map[DefaultName := default];
    }

    /** `d[key]`: a present key's value; a missing key is set to (a copy of) the default,
        which is returned. */
    method GetItem(key: string) returns (r: V)
      requires Valid()
      modifies this`data
      ensures Valid()
      ensures key in old(data) ==> r == old(data)[key] && data == old(data)
      ensures key !in old(data) ==> r == old(data)[DefaultName] && data == old(data)[key := r]
    {
      if key in data {
        r := data[key];
      } else {
        r := data[DefaultName];
        data := data[key := r];
      }
    }

    /** `d.key`: an item lookup, except for names starting with "__", which `dict` has no
        attribute for (AttributeError). */
    method GetAttr(key: string) returns (r: Result<V, string>)
      requires Valid()
      modifies this`data
      ensures Valid()
      ensures |key| >= 2 && key[..2] == "__" ==> r == Err("AttributeError") && data == old(data)
      ensures !(|key| >= 2 && key[..2] == "__") ==>
        r == Ok(if key in old(data) then old(data)[key] else old(data)[DefaultName])
        && data == (if key in old(data) then old(data) else old(data)[key := old(data)[DefaultName]])
    {
      if |key| >= 2 && key[..2] == "__" {
        return Err("AttributeError");
      }
      var v := GetItem(key);
      r := Ok(v);
    }

    /** `d.key = value` is `d[key] = value`; `d.default = value` changes the default. */
    method SetAttr(key: string, value: V)
      requires Valid()
      modifies this`data
      ensures Valid() && data == old(data)[key := value]
    {
      data := data[key := value];
    }

    /** `copy.copy(d)`: a new dictionary built with the same default and updated with the
        same items. */
    method Copy() returns (c: DefaultDict<V>)
      requires Valid()
      ensures fresh(c) && c.Valid() && c.data == data
    {
      c := new DefaultDict(data[DefaultName]);
      c.data := c.data + data;
    }
  }

  /** Reading a missing key twice gives the default both times and leaves it stored. */
  method MissThenHit<V>(d: DefaultDict<V>, key: string) returns (first: V, second: V)
    requires d.Valid() && key !in d.data
    modifies d
    ensures first == second == old(d.Default()) && d.data == old(d.data)[key := first]
  {
    first := d.GetItem(key);
    second := d.GetItem(key);
  }

  /** Assigning the attribute `default` changes what later missing keys read as. */
  method NewDefault<V>(d: DefaultDict<V>, value: V, key: string) returns (r: V)
    requires d.Valid() && key !in d.data
    modifies d
    ensures r == value
  {
    d.SetAttr(DefaultName, value);
    r := d.GetItem(key);
  }
}
