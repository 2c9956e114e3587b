/** Write queries of Infobase (infogami/infobase/writequery.py): the connect operations that a
    query applies to an existing object's data, the flattening of a nested write query into one
    query per object, the coercion and validation of the values of a save, and the permission
    lookup along the path of a key. Objects are seen through a store that maps a key to the data
    of the object (`get_thing`), None when there is no such object. */
module WriteQuery {
  import opened Wrappers
  import opened Json
  import opened Strings
  import Common

  /** The exceptions a write can raise: Infobase's own ones and the Python errors the code lets
      escape. */
  datatype Error =
    | BadData(message: string)
    | TypeMismatch(expected: string, found: string)
    | NotFound(key: string)
    | PermissionDenied(message: string)
    | KeyError(name: string)
    | AttributeError
    | TypeError
    | AssertionError

  /** `get_thing`: the data of the object stored under a key. */
  type Store = string -> Option<seq<(string, Value)>>

  // ---------------------------------------------------------------------------------------
  // connect

  /** Python's `t in s` for strings: `t` occurs in `s` as a substring. */
  predicate IsSubstring(t: string, s: string) {
    exists i :: 0 <= i <= |s| && t <= s[i..]
  }

  /** The position of the first occurrence of `v` (what `list.remove` removes). */
  function FirstIndex(items: seq<Value>, v: Value): (i: nat)
    requires v in items
    ensures i < |items| && items[i] == v && v !in items[..i]
  {
    if items[0] == v then 0
    else
      var j := FirstIndex(items[1..], v);
      assert items[..j + 1] == [items[0]] + items[1..][..j];
      j + 1
  }

  /** `list.remove(v)`: the list without its first occurrence of `v`. */
  function RemoveFirst(items: seq<Value>, v: Value): (r: seq<Value>)
    requires v in items
    ensures multiset(r) == multiset(items) - multiset{v}
  {
    var i := FirstIndex(items, v);
    assert items == items[..i] + [v] + items[i + 1..];
    items[..i] + items[i + 1..]
  }

  /** `value in target` for a target that is not a list: a substring test on text, a key test on
      a dict (an unhashable value is TypeError), TypeError on anything else. */
  function Contains(target: Value, value: Value): (r: Result<bool, Error>)
    requires !target.List?
  {
    if IsText(target) then
      if IsText(value) then Ok(IsSubstring(TextOf(value), TextOf(target))) else Err(TypeError)
    else if target.Dict? then
      if value.List? || value.Dict? then Err(TypeError)
      else Ok(IsText(value) && HasKey(target.entries, TextOf(value)))
    else Err(TypeError)
  }

  /** `connect(data, name, connect, value)`: 'update' and 'update_list' set `data[name]`;
      'insert' appends to the list `data[name]` unless the value is already there; 'delete' removes
      its first occurrence if present; any other connect leaves the data as it is. A missing
      `name` is KeyError; a target that is not a list raises where Python would call `append` or
      `remove` on it. */
  function Connect(data: seq<(string, Value)>, name: string, connect: string, value: Value): (r: Result<seq<(string, Value)>, Error>)
    ensures r.Ok? ==> forall j :: j != name ==> Get(r.value, j) == Get(data, j)
    ensures r.Err? ==> (connect == "insert" || connect == "delete") && (Get(data, name).None? || !Get(data, name).value.List?)
  {
    if connect == "update" || connect == "update_list" then
      GetPutAll(data, name, value);
      Ok(Put(data, name, value))
    else if connect == "insert" || connect == "delete" then
      match Get(data, name)
      case None => Err(KeyError(name))
      case Some(target) =>
        if target.List? then
          var items := target.items;
          GetPutAll(data, name, List(items));
          if connect == "insert" then
            if value in items then Ok(data) else
            GetPutAll(data, name, List(items + [value]));
            Ok(Put(data, name, List(items + [value])))
          else
            if value in items then
              GetPutAll(data, name, List(RemoveFirst(items, value)));
              Ok(Put(data, name, List(RemoveFirst(items, value))))
            else Ok(data)
        else
          match Contains(target, value)
          case Err(e) => Err(e)
          case Ok(present) =>
            if present == (connect == "insert") then Ok(data) else Err(AttributeError)
    else Ok(data)
  }

  lemma GetPutAll(data: seq<(string, Value)>, name: string, value: Value)
    ensures forall j :: Get(Put(data, name, value), j) == if j == name then Some(value) else Get(data, j)
  {
    forall j { GetPut(data, name, value, j); }
  }

  /** 'update' and 'update_list' make `data[name]` the value. */
  lemma ConnectUpdate(data: seq<(string, Value)>, name: string, value: Value)
    ensures Connect(data, name, "update", value).Ok?
    ensures Get(Connect(data, name, "update", value).value, name) == Some(value)
    ensures Connect(data, name, "update_list", value) == Connect(data, name, "update", value)
  {
    GetPut(data, name, value, name);
  }

  /** After an insert into a list, the value is in it exactly as often as before, or once if it
      was absent: an insert never creates a duplicate. */
  lemma ConnectInsert(data: seq<(string, Value)>, name: string, items: seq<Value>, value: Value)
    requires Get(data, name) == Some(List(items))
    ensures Connect(data, name, "insert", value).Ok?
    ensures Get(Connect(data, name, "insert", value).value, name) == Some(List(if value in items then items else items + [value]))
    ensures multiset(Get(Connect(data, name, "insert", value).value, name).value.items)[value] == if value in items then multiset(items)[value] else 1
  {
    GetPut(data, name, List(items + [value]), name);
  }

  /** Inserting twice is inserting once. */
  lemma ConnectInsertIdempotent(data: seq<(string, Value)>, name: string, items: seq<Value>, value: Value)
    requires Get(data, name) == Some(List(items))
    ensures Connect(Connect(data, name, "insert", value).value, name, "insert", value) == Connect(data, name, "insert", value)
  {
    ConnectInsert(data, name, items, value);
    var once := Connect(data, name, "insert", value).value;
    var items2 := if value in items then items else items + [value];
    assert value in items2;
  }

  /** A delete removes one occurrence of the value from the list, and none if there is none. */
  lemma ConnectDelete(data: seq<(string, Value)>, name: string, items: seq<Value>, value: Value)
    requires Get(data, name) == Some(List(items))
    ensures Connect(data, name, "delete", value).Ok?
    ensures value !in items ==> Connect(data, name, "delete", value) == Ok(data)
    ensures value in items ==> Get(Connect(data, name, "delete", value).value, name) == Some(List(RemoveFirst(items, value)))
    ensures value in items ==> multiset(RemoveFirst(items, value)) == multiset(items) - multiset{value}
  {
    if value in items {
      GetPut(data, name, List(RemoveFirst(items, value)), name);
    }
  }

  /** Deleting what was just inserted into a list that lacked it gives back the list. */
  lemma ConnectInsertDelete(data: seq<(string, Value)>, name: string, items: seq<Value>, value: Value)
    requires Get(data, name) == Some(List(items)) && value !in items
    ensures Connect(data, name, "insert", value).Ok?
    ensures Connect(Connect(data, name, "insert", value).value, name, "delete", value).Ok?
    ensures Get(Connect(Connect(data, name, "insert", value).value, name, "delete", value).value, name) == Some(List(items))
  {
    ConnectInsert(data, name, items, value);
    var once := Connect(data, name, "insert", value).value;
    ConnectDelete(once, name, items + [value], value);
    var i := FirstIndex(items + [value], value);
    assert i == |items|;
    assert RemoveFirst(items + [value], value) == items by {
      assert (items + [value])[..i] == items;
    }
  }

  /** The operation named by a connect dict: its 'connect' entry when that is text. */
  function ConnectOp(v: seq<(string, Value)>): string {
    match Get(v, "connect")
    case Some(c) => if IsText(c) then TextOf(c) else ""
    case None => ""
  }

  /** A dict with a 'connect' entry. */
  predicate IsConnect(v: Value) {
    v.Dict? && HasKey(v.entries, "connect")
  }

  /** The value a connect carries: `v['key'] and Reference(v['key'])` when it has a key (a falsy
      key is passed on as it is), otherwise `v['value']` (KeyError when absent). */
  function ConnectValue(v: seq<(string, Value)>): (r: Result<Value, Error>)
    ensures HasKey(v, "key") && r.Ok? ==> r.value.Ref? || r.value == Get(v, "key").value
    ensures !HasKey(v, "key") ==> (r.Ok? <==> HasKey(v, "value")) && (r.Ok? ==> Some(r.value) == Get(v, "value"))
  {
    match Get(v, "key")
    case Some(k) =>
      if !Truthy(k) then Ok(k)
      else if IsText(k) then Ok(Ref(TextOf(k)))
      else if k.Int? then Ok(Ref(IntToString(k.i)))
      else if k.Bool? then Ok(Ref("True"))
      else Err(TypeError)
    case None =>
      match Get(v, "value")
      case Some(x) => Ok(x)
      case None => Err(KeyError("value"))
  }

  /** The effect of the connects of `query` on `data`, in the query's order. */
  function ConnectAllSpec(data: seq<(string, Value)>, query: seq<(string, Value)>): (r: Result<seq<(string, Value)>, Error>)
    ensures r.Ok? ==> forall j :: (forall i :: 0 <= i < |query| && query[i].0 == j ==> !IsConnect(query[i].1)) ==> Get(r.value, j) == Get(data, j)
  {
    if query == [] then Ok(data)
    else
      var rest := ConnectAllSpec(data, query[..|query| - 1]);
      var (k, v) := (query[|query| - 1].0, query[|query| - 1].1);
      if rest.Err? || !IsConnect(v) then rest
      else
        match ConnectValue(v.entries)
        case Err(e) => Err(e)
        case Ok(value) => Connect(rest.value, k, ConnectOp(v.entries), value)
  }

  /** A query without connects leaves the data as it is. */
  lemma ConnectAllNone(data: seq<(string, Value)>, query: seq<(string, Value)>)
    requires forall i :: 0 <= i < |query| ==> !IsConnect(query[i].1)
    ensures ConnectAllSpec(data, query) == Ok(data)
  {
    if query != [] {
      ConnectAllNone(data, query[..|query| - 1]);
    }
  }

  /** `connect_all(data, query)`: applies the connects of the query, in order, to a copy of the
      data (the caller's data is a value here and cannot change). */
  method ConnectAll(data: seq<(string, Value)>, query: seq<(string, Value)>) returns (r: Result<seq<(string, Value)>, Error>)
    ensures r == ConnectAllSpec(data, query)
  {
    r := Ok(data);
    var i := 0;
    while i < |query|
      invariant i <= |query|
      invariant r == ConnectAllSpec(data, query[..i])
    {
      assert query[..i + 1][..i] == query[..i];
      var (k, v) := (query[i].0, query[i].1);
      if r.Ok? && IsConnect(v) {
        var value := ConnectValue(v.entries);
        if value.Err? {
          r := Err(value.error);
        } else {
          r := Connect(r.value, k, ConnectOp(v.entries), value.value);
        }
      }
      i := i + 1;
    }
    assert query[..i] == query;
  }

  /** `remove_connects(query)`: for an object that is being created, every connect is replaced by
      the value it carries; the other entries stay. */
  method RemoveConnects(query: seq<(string, Value)>) returns (r: Result<seq<(string, Value)>, Error>)
    ensures r.Ok? ==> |r.value| == |query| && Keys(r.value) == Keys(query)
    ensures r.Ok? ==> forall i :: 0 <= i < |query| ==>
      if IsConnect(query[i].1) then ConnectValue(query[i].1.entries) == Ok(r.value[i].1) else r.value[i] == query[i]
    ensures r.Err? <==> exists i :: 0 <= i < |query| && IsConnect(query[i].1) && ConnectValue(query[i].1.entries).Err?
  {
    var out: seq<(string, Value)> := [];
    var i := 0;
    while i < |query|
      invariant i <= |query| && |out| == i
      invariant forall j :: 0 <= j < i ==> out[j].0 == query[j].0
      invariant forall j :: 0 <= j < i ==>
        if IsConnect(query[j].1) then ConnectValue(query[j].1.entries) == Ok(out[j].1) else out[j] == query[j]
    {
      var (k, v) := (query[i].0, query[i].1);
      if IsConnect(v) {
        var value := ConnectValue(v.entries);
        if value.Err? {
          return Err(value.error);
        }
        out := out + [(k, value.value)];
      } else {
        out := out + [query[i]];
      }
      i := i + 1;
    }
    r := Ok(out);
  }

  // ---------------------------------------------------------------------------------------
  // serialize

  /** The entries a subquery keeps in its parent: 'connect', 'key', 'type' and 'value'. */
  const MinimalKeys: set<string> := {"connect", "key", "type", "value"}

  /** The entries of a dict whose key is in `keys`, in order. */
  function Pick(entries: seq<(string, Value)>, keys: set<string>): (r: seq<(string, Value)>)
    ensures forall i :: 0 <= i < |r| ==> r[i] in entries && r[i].0 in keys
  {
    if entries == [] then []
    else (if entries[0].0 in keys then [entries[0]] else []) + Pick(entries[1..], keys)
  }

  /** What the inner `flatten` of `serialize` gives for one value: the minimal value that stands
      for it in its parent, and the object queries it appended to `result`. */
  datatype Flat = Flat(minimal: Value, emitted: seq<seq<(string, Value)>>)

  function FlatQuery(q: Value, fromList: bool): (f: Flat)
    ensures forall i :: 0 <= i < |f.emitted| ==> HasKey(f.emitted[i], "key")
    decreases q, 1
  {
    match q
    case List(items) =>
      var (ms, emitted) := FlatList(items);
      Flat(List(ms), emitted)
    case Dict(entries) =>
      var (copy, emitted) := FlatEntries(entries);
      var minimal :=
        if fromList && HasKey(copy, "key") then Dict([("key", Get(copy, "key").value)])
        else Dict(Pick(copy, MinimalKeys));
      Flat(minimal, emitted + if HasKey(copy, "key") then [copy] else [])
    case _ => Flat(q, [])
  }

  /** The elements of a list, each flattened as a list member, left to right. */
  function FlatList(items: seq<Value>): (r: (seq<Value>, seq<seq<(string, Value)>>))
    ensures |r.0| == |items|
    ensures forall i :: 0 <= i < |r.1| ==> HasKey(r.1[i], "key")
    decreases items, 0
  {
    if items == [] then ([], [])
    else
      var (ms, emitted) := FlatList(items[..|items| - 1]);
      var f := FlatQuery(items[|items| - 1], true);
      (ms + [f.minimal], emitted + f.emitted)
  }

  /** The values of a dict, each flattened in place, keys and order kept. */
  function FlatEntries(entries: seq<(string, Value)>): (r: (seq<(string, Value)>, seq<seq<(string, Value)>>))
    ensures Keys(r.0) == Keys(entries)
    ensures forall i :: 0 <= i < |r.1| ==> HasKey(r.1[i], "key")
    decreases entries, 0
  {
    if entries == [] then ([], [])
    else
      var (copy, emitted) := FlatEntries(entries[..|entries| - 1]);
      var e := entries[|entries| - 1];
      assert e in entries && e.1 < e;
      var f := FlatQuery(e.1, false);
      KeysAppend(entries[..|entries| - 1], e.0, e.1);
      assert entries[..|entries| - 1] + [(e.0, e.1)] == entries;
      KeysAppend(copy, e.0, f.minimal);
      AllHaveKey(emitted, f.emitted);
      (copy + [(e.0, f.minimal)], emitted + f.emitted)
  }

  /** Two lists of dicts that all have a 'key' entry, together. */
  lemma AllHaveKey(a: seq<seq<(string, Value)>>, b: seq<seq<(string, Value)>>)
    requires forall i :: 0 <= i < |a| ==> HasKey(a[i], "key")
    requires forall i :: 0 <= i < |b| ==> HasKey(b[i], "key")
    ensures forall i :: 0 <= i < |a + b| ==> HasKey((a + b)[i], "key")
  {
    forall i | 0 <= i < |a + b|
      ensures HasKey((a + b)[i], "key")
    {
      if i < |a| {
        assert (a + b)[i] == a[i];
      } else {
        assert (a + b)[i] == b[i - |a|];
      }
    }
  }

  /** The number of dicts with a 'key' entry, at any depth. */
  function Keyed(q: Value): nat
    decreases q, 1
  {
    match q
    case List(items) => KeyedList(items)
    case Dict(entries) => KeyedEntries(entries) + if HasKey(entries, "key") then 1 else 0
    case _ => 0
  }

  function KeyedList(items: seq<Value>): nat
    decreases items, 0
  {
    if items == [] then 0 else KeyedList(items[..|items| - 1]) + Keyed(items[|items| - 1])
  }

  function KeyedEntries(entries: seq<(string, Value)>): nat
    decreases entries, 0
  {
    if entries == [] then 0
    else
      var e := entries[|entries| - 1];
      assert e in entries && e.1 < e;
      KeyedEntries(entries[..|entries| - 1]) + Keyed(e.1)
  }

  /** Every object of the query is emitted exactly once: one query per dict with a 'key'. */
  lemma {:induction false} FlatCount(q: Value, fromList: bool)
    ensures |FlatQuery(q, fromList).emitted| == Keyed(q)
    decreases q, 1
  {
    match q
    case List(items) => FlatListCount(items);
    case Dict(entries) =>
      FlatEntriesCount(entries);
      assert HasKey(FlatEntries(entries).0, "key") == HasKey(entries, "key");
    case _ =>
  }

  lemma {:induction false} FlatListCount(items: seq<Value>)
    ensures |FlatList(items).1| == KeyedList(items)
    decreases items, 0
  {
    if items != [] {
      FlatListCount(items[..|items| - 1]);
      FlatCount(items[|items| - 1], true);
    }
  }

  lemma {:induction false} FlatEntriesCount(entries: seq<(string, Value)>)
    ensures |FlatEntries(entries).1| == KeyedEntries(entries)
    decreases entries, 0
  {
    if entries != [] {
      var e := entries[|entries| - 1];
      assert e in entries && e.1 < e;
      FlatEntriesCount(entries[..|entries| - 1]);
      FlatCount(e.1, false);
    }
  }

  /** A value as it may appear inside an emitted query: every nested dict keeps only 'connect',
      'key', 'type' and 'value'. */
  predicate Slim(v: Value)
    decreases v, 1
  {
    match v
    case List(items) => SlimList(items)
    case Dict(entries) => SlimEntries(entries) && forall i :: 0 <= i < |entries| ==> entries[i].0 in MinimalKeys
    case _ => true
  }

  predicate SlimList(items: seq<Value>)
    decreases items, 0
  {
    forall i :: 0 <= i < |items| ==> Slim(items[i])
  }

  predicate SlimEntries(entries: seq<(string, Value)>)
    decreases entries, 0
  {
    forall i :: 0 <= i < |entries| ==> (assert entries[i] in entries && entries[i].1 < entries[i]; Slim(entries[i].1))
  }

  /** What stands for a subquery in its parent is slim, and so is every value of every emitted
      query: nested objects are replaced by their 'connect'/'key'/'type'/'value' entries. */
  lemma {:induction false} FlatSlim(q: Value, fromList: bool)
    ensures Slim(FlatQuery(q, fromList).minimal)
    ensures forall i :: 0 <= i < |FlatQuery(q, fromList).emitted| ==> SlimEntries(FlatQuery(q, fromList).emitted[i])
    decreases q, 1
  {
    match q
    case List(items) => FlatListSlim(items);
    case Dict(entries) =>
      FlatEntriesSlim(entries);
      var copy := FlatEntries(entries).0;
      if fromList && HasKey(copy, "key") {
        var k := Get(copy, "key").value;
        GetIn(copy, "key");
        assert SlimEntries([("key", k)]);
      } else {
        assert SlimEntries(Pick(copy, MinimalKeys));
      }
    case _ =>
  }

  lemma GetIn(d: seq<(string, Value)>, k: string)
    requires HasKey(d, k)
    ensures (k, Get(d, k).value) in d
  {
    if d[0].0 != k {
      assert Keys(d) == [d[0].0] + Keys(d[1..]);
      GetIn(d[1..], k);
    }
  }

  lemma {:induction false} FlatListSlim(items: seq<Value>)
    ensures SlimList(FlatList(items).0)
    ensures forall i :: 0 <= i < |FlatList(items).1| ==> SlimEntries(FlatList(items).1[i])
    decreases items, 0
  {
    if items != [] {
      FlatListSlim(items[..|items| - 1]);
      FlatSlim(items[|items| - 1], true);
    }
  }

  lemma {:induction false} FlatEntriesSlim(entries: seq<(string, Value)>)
    ensures SlimEntries(FlatEntries(entries).0)
    ensures forall i :: 0 <= i < |FlatEntries(entries).1| ==> SlimEntries(FlatEntries(entries).1[i])
    decreases entries, 0
  {
    if entries != [] {
      var e := entries[|entries| - 1];
      assert e in entries && e.1 < e;
      FlatEntriesSlim(entries[..|entries| - 1]);
      FlatSlim(e.1, false);
    }
  }

  /** Post-order: a query for an object comes after the queries of the objects nested in it, so
      the top-level object's query is the last one. */
  lemma TopLast(entries: seq<(string, Value)>, fromList: bool)
    requires HasKey(entries, "key")
    ensures var f := FlatQuery(Dict(entries), fromList);
      |f.emitted| >= 1 && f.emitted[|f.emitted| - 1] == FlatEntries(entries).0
      && f.emitted[..|f.emitted| - 1] == FlatEntries(entries).1
      && Keys(f.emitted[|f.emitted| - 1]) == Keys(entries)
  {
  }

  /** The inner `flatten(query, result, path, from_list)`: appends the object queries of `q` to
      `result` and returns the minimal value for the parent. */
  method FlattenQuery(q: Value, fromList: bool, result: seq<seq<(string, Value)>>) returns (minimal: Value, r: seq<seq<(string, Value)>>)
    ensures minimal == FlatQuery(q, fromList).minimal
    ensures r == result + FlatQuery(q, fromList).emitted
    decreases q, 1
  {
    match q
    case List(items) =>
      var ms;
      ms, r := FlattenList(items, result);
      minimal := List(ms);
    case Dict(entries) =>
      var copy;
      copy, r := FlattenEntries(entries, result);
      ghost var emitted := FlatEntries(entries).1;
      if HasKey(copy, "key") {
        assert FlatQuery(q, fromList).emitted == emitted + [copy];
        assert (result + emitted) + [copy] == result + (emitted + [copy]);
        r := r + [copy];
      } else {
        assert FlatQuery(q, fromList).emitted == emitted;
      }
      if fromList && HasKey(copy, "key") {
        minimal := Dict([("key", Get(copy, "key").value)]);
      } else {
        minimal := Dict(Pick(copy, MinimalKeys));
      }
    case _ =>
      minimal, r := q, result;
  }

  /** The list branch: `[flatten(q, result, ..., from_list=True) for q in query]`. */
  method FlattenList(items: seq<Value>, result: seq<seq<(string, Value)>>) returns (ms: seq<Value>, r: seq<seq<(string, Value)>>)
    ensures ms == FlatList(items).0 && r == result + FlatList(items).1
    decreases items, 0
  {
    ms, r := [], result;
    var i := 0;
    while i < |items|
      invariant i <= |items|
      invariant ms == FlatList(items[..i]).0 && r == result + FlatList(items[..i]).1
    {
      assert items[..i + 1][..i] == items[..i];
      assert items[i] in items;
      var m;
      m, r := FlattenQuery(items[i], true, r);
      ms := ms + [m];
      i := i + 1;
    }
    assert items[..i] == items;
  }

  /** The dict branch: each value of a copy of the dict replaced by its minimal value. */
  method FlattenEntries(entries: seq<(string, Value)>, result: seq<seq<(string, Value)>>) returns (copy: seq<(string, Value)>, r: seq<seq<(string, Value)>>)
    ensures copy == FlatEntries(entries).0 && r == result + FlatEntries(entries).1
    decreases entries, 0
  {
    copy, r := [], result;
    var i := 0;
    while i < |entries|
      invariant i <= |entries|
      invariant copy == FlatEntries(entries[..i]).0 && r == result + FlatEntries(entries[..i]).1
    {
      var e := entries[i];
      assert e in entries && e.1 < e;
      FlatEntriesStep(entries, i);
      var m, r' := FlattenQuery(e.1, false, r);
      assert r' == result + (FlatEntries(entries[..i]).1 + FlatQuery(e.1, false).emitted);
      copy, r := copy + [(e.0, m)], r';
      i := i + 1;
    }
    assert entries[..i] == entries;
  }

  /** One more entry of the dict: its minimal value joins the copy, its dicts the list. */
  lemma FlatEntriesStep(entries: seq<(string, Value)>, i: nat)
    requires i < |entries|
    ensures FlatEntries(entries[..i + 1]).0 == FlatEntries(entries[..i]).0 + [(entries[i].0, FlatQuery(entries[i].1, false).minimal)]
    ensures FlatEntries(entries[..i + 1]).1 == FlatEntries(entries[..i]).1 + FlatQuery(entries[i].1, false).emitted
  {
    assert entries[..i + 1][..i] == entries[..i];
  }

  /** `serialize(query)`: one query per object, children before parents. */
  method Serialize(query: Value) returns (r: seq<seq<(string, Value)>>)
    ensures r == FlatQuery(query, false).emitted
    ensures |r| == Keyed(query)
    ensures forall i :: 0 <= i < |r| ==> HasKey(r[i], "key") && SlimEntries(r[i])
  {
    var _, emitted := FlattenQuery(query, false, []);
    r := emitted;
    FlatCount(query, false);
    FlatSlim(query, false);
  }

  // ---------------------------------------------------------------------------------------
  // permissions

  predicate IsPath(key: string) {
    |key| > 0 && key[0] == '/'
  }

  /** How far a key is from the root along `Parent`: 0 for "/". */
  function ParentRank(key: string): nat {
    if key == "/" then 0 else |key| + 1
  }

  /** The inner `parent(key)` as intended: None for "/", otherwise the part before the last
      '/', or "/" when that part is empty or the key has no '/'. */
  function Parent(key: string): (p: Option<string>)
    ensures key == "/" <==> p.None?
    ensures p.Some? ==> ParentRank(p.value) < ParentRank(key)
    ensures IsPath(key) && p.Some? ==> IsPath(p.value) && |p.value| < |key| && p.value <= key
    ensures key != [] && '/' !in key ==> p == Some("/")
  {
    if key == "/" then None
    else
      match LastIndexOf(key, '/')
      case None => Some("/")
      case Some(i) => if i == 0 then Some("/") else Some(key[..i])
  }

  /** The inner `parent(key)` on any string, as written: a key with no '/' is its own parent
      (and the empty key's parent is "/"). */
  function ParentAsWritten(key: string): (p: Option<string>)
    ensures key == "/" <==> p.None?
    ensures p == Parent(key) || p == Some(key)
    ensures IsPath(key) ==> p == Parent(key)
  {
    if key == "/" then None
    else
      match LastIndexOf(key, '/')
      case None => Some(if key == "" then "/" else key)
      case Some(i) => Some(if i == 0 then "/" else key[..i])
  }

  /** As written, a non-empty key without '/' is its own parent, so `_get_permission` on such
      a key with no permission of its own calls itself with the same key forever. */
  lemma ParentAsWrittenFixpoint(key: string)
    requires key != [] && '/' !in key
    ensures ParentAsWritten(key) == Some(key)
  {
  }

  /** The key "a" is the smallest such input. */
  lemma ParentAsWrittenLoops()
    ensures ParentAsWritten("a") == Some("a")
  {
    ParentAsWrittenFixpoint("a");
  }

  /** What one object offers: `thing and thing.get('permission')`, or on an ancestor
      `thing and (thing.get('child_permission') or thing.get('permission'))`. */
  function PermissionAt(store: Store, key: string, child: bool): Value {
    match store(key)
    case None => Null
    case Some(d) =>
      var own := Get(d, "permission").GetOr(Null);
      if child then
        var inherited := Get(d, "child_permission").GetOr(Null);
        if Truthy(inherited) then inherited else own
      else own
  }

  /** `get_permission(store, key)`: the key's own permission, else the nearest ancestor's
      child permission or permission; None (here `Null`) when there is none. */
  function GetPermission(store: Store, key: string, child: bool): (r: Value)
    ensures Truthy(r) || r == Null
    decreases ParentRank(key)
  {
    var p := PermissionAt(store, key, child);
    if Truthy(p) then p
    else
      match Parent(key)
      case None => Null
      case Some(pk) => GetPermission(store, pk, true)
  }

  /** The key and its ancestors, nearest first, ending with "/". */
  function Ancestry(key: string): (r: seq<string>)
    ensures |r| >= 1 && r[0] == key && r[|r| - 1] == "/"
    ensures forall i :: 0 < i < |r| ==> ParentRank(r[i]) < ParentRank(r[i - 1])
    ensures IsPath(key) ==> forall i :: 0 <= i < |r| ==> IsPath(r[i]) && r[i] <= key
    ensures IsPath(key) ==> forall i :: 0 < i < |r| ==> |r[i]| < |r[i - 1]|
    decreases ParentRank(key)
  {
    match Parent(key)
    case None => [key]
    case Some(pk) =>
      var r := [key] + Ancestry(pk);
      assert forall i :: 0 < i < |r| ==> r[i] == Ancestry(pk)[i - 1];
      r
  }

  /** A key without '/' has the root as its only ancestor: its permission is its own, else
      the root's child permission or permission. */
  lemma AncestryOfName(key: string)
    requires key != [] && '/' !in key
    ensures Ancestry(key) == [key, "/"]
  {
    assert Parent(key) == Some("/");
    assert Parent("/") == None;
  }

  /** What each key of an ancestry offers: the first key its own permission, the others their
      child permission or permission. */
  function Offers(store: Store, a: seq<string>, child: bool): (r: seq<Value>)
    ensures |r| == |a|
  {
    seq(|a|, i requires 0 <= i < |a| => PermissionAt(store, a[i], child || i > 0))
  }

  /** The first truthy value, None (here `Null`) when there is none. */
  function FirstTruthy(vs: seq<Value>): (r: Value)
    ensures r == Null || r in vs
  {
    if vs == [] then Null
    else if Truthy(vs[0]) then vs[0]
    else FirstTruthy(vs[1..])
  }

  /** `FirstTruthy` is the first truthy value: every value before it is falsy. */
  lemma {:induction false} FirstTruthyIsFirst(vs: seq<Value>)
    ensures var r := FirstTruthy(vs);
      (r == Null ==> forall i :: 0 <= i < |vs| ==> !Truthy(vs[i]))
      && (r != Null ==> exists i :: (0 <= i < |vs| && r == vs[i] && Truthy(r)
                                     && forall j :: 0 <= j < i ==> !Truthy(vs[j])))
  {
    if vs != [] && !Truthy(vs[0]) {
      FirstTruthyIsFirst(vs[1..]);
      var r := FirstTruthy(vs[1..]);
      if r != Null {
        var i :| 0 <= i < |vs[1..]| && r == vs[1..][i] && Truthy(r) && forall j :: 0 <= j < i ==> !Truthy(vs[1..][j]);
        assert vs[i + 1] == r;
        assert forall j :: 0 < j <= i ==> vs[j] == vs[1..][j - 1];
      } else {
        assert forall j :: 0 < j < |vs| ==> vs[j] == vs[1..][j - 1];
      }
    }
  }

  /** The permission of a key is the first one offered along its ancestry: the nearest wins. */
  lemma {:induction false} NearestPermission(store: Store, key: string, child: bool)
    ensures GetPermission(store, key, child) == FirstTruthy(Offers(store, Ancestry(key), child))
    decreases ParentRank(key)
  {
    var p := PermissionAt(store, key, child);
    match Parent(key)
    case None =>
      assert Offers(store, Ancestry(key), child) == [p];
    case Some(pk) =>
      if !Truthy(p) {
        NearestPermission(store, pk, true);
      }
      OffersParent(store, key, pk, child);
  }

  /** The offers along a key's ancestry: its own, then those along its parent's. */
  lemma OffersParent(store: Store, key: string, pk: string, child: bool)
    requires Parent(key) == Some(pk)
    ensures Offers(store, Ancestry(key), child) == [PermissionAt(store, key, child)] + Offers(store, Ancestry(pk), true)
  {
    assert Ancestry(key) == [key] + Ancestry(pk);
    OffersCons(store, key, Ancestry(pk), child);
  }

  /** The offers along a path with one more key in front. */
  lemma OffersCons(store: Store, key: string, b: seq<string>, child: bool)
    ensures Offers(store, [key] + b, child) == [PermissionAt(store, key, child)] + Offers(store, b, true)
  {
    var a := [key] + b;
    var offers, rest := Offers(store, a, child), Offers(store, b, true);
    forall i | 0 <= i < |rest| ensures offers[i + 1] == rest[i] {
      assert a[i + 1] == b[i];
    }
    assert offers == [offers[0]] + rest;
  }

  /** A user group as `has_permission` sees it: its key and the keys of its members. */
  datatype Group = Group(key: string, members: seq<string>)

  /** The keys of a list of references. */
  function RefKeys(items: seq<Value>): (r: seq<string>)
    ensures |r| <= |items|
  {
    if items == [] then []
    else (if items[0].Ref? then [items[0].key] else []) + RefKeys(items[1..])
  }

  /** The group object a reference names, None when it is not an object. */
  function GroupOf(store: Store, v: Value): Option<Group> {
    if !v.Ref? then None
    else
      match store(v.key)
      case None => None
      case Some(d) =>
        var members := Get(d, "members").GetOr(List([]));
        Some(Group(v.key, if members.List? then RefKeys(members.items) else []))
  }

  /** `permission.get('writers') or []` plus the admin group, each resolved to an object. */
  function Writers(store: Store, permission: Value): (r: seq<Option<Group>>)
    ensures |r| >= 1 && r[|r| - 1] == GroupOf(store, Ref("/usergroup/admin"))
  {
    var writers :=
      if permission.Ref? && store(permission.key).Some? then
        var w := Get(store(permission.key).value, "writers");
        if w.Some? && w.value.List? then w.value.items else []
      else [];
    seq(|writers|, i requires 0 <= i < |writers| => GroupOf(store, writers[i])) + [GroupOf(store, Ref("/usergroup/admin"))]
  }

  /** The decision of the loop of `has_permission` over the writer groups: the first group that
      is 'everyone' allows; for a known author, a group that is 'allusers' or lists the author
      allows; an anonymous author is refused at the first group that is not 'everyone'; a group
      that is not an object raises AttributeError; running out of groups refuses. */
  function Decide(groups: seq<Option<Group>>, author: Option<string>): (r: Result<bool, Error>)
  {
    if groups == [] then Ok(false)
    else
      match groups[0]
      case None => Err(AttributeError)
      case Some(g) =>
        if g.key == "/usergroup/everyone" then Ok(true)
        else if author.Some? then
          if g.key == "/usergroup/allusers" || author.value in g.members then Ok(true)
          else Decide(groups[1..], author)
        else Ok(false)
  }

  predicate Admits(g: Group, author: string) {
    g.key == "/usergroup/everyone" || g.key == "/usergroup/allusers" || author in g.members
  }

  /** An anonymous author may write only when the first writer group is 'everyone'. */
  lemma DecideAnonymous(groups: seq<Option<Group>>)
    requires |groups| >= 1
    ensures Decide(groups, None) == Ok(true) <==> groups[0].Some? && groups[0].value.key == "/usergroup/everyone"
  {
  }

  /** A known author may write iff some group admits the author and every group before it is an
      object. */
  lemma {:induction false} DecideAuthor(groups: seq<Option<Group>>, author: string)
    ensures Decide(groups, Some(author)) == Ok(true) <==>
      exists i :: 0 <= i < |groups| && groups[i].Some? && Admits(groups[i].value, author)
        && forall j :: 0 <= j < i ==> groups[j].Some? && !Admits(groups[j].value, author)
  {
    if groups != [] && groups[0].Some? && !Admits(groups[0].value, author) {
      DecideAuthor(groups[1..], author);
      if Decide(groups, Some(author)) == Ok(true) {
        var i :| 0 <= i < |groups[1..]| && groups[1..][i].Some? && Admits(groups[1..][i].value, author)
          && forall j :: 0 <= j < i ==> groups[1..][j].Some? && !Admits(groups[1..][j].value, author);
        assert groups[i + 1] == groups[1..][i];
        forall j | 0 <= j < i + 1 ensures groups[j].Some? && !Admits(groups[j].value, author) {
          if j > 0 { assert groups[j] == groups[1..][j - 1]; }
        }
      }
      if exists i :: (0 <= i < |groups| && groups[i].Some? && Admits(groups[i].value, author)
                      && forall j :: 0 <= j < i ==> groups[j].Some? && !Admits(groups[j].value, author)) {
        var i :| 0 <= i < |groups| && groups[i].Some? && Admits(groups[i].value, author)
          && forall j :: 0 <= j < i ==> groups[j].Some? && !Admits(groups[j].value, author);
        assert i > 0;
        assert groups[1..][i - 1] == groups[i];
        assert forall j :: 0 <= j < i - 1 ==> groups[1..][j] == groups[j + 1];
      }
    } else if groups != [] && groups[0].Some? {
      assert Admits(groups[0].value, author);
    }
  }

  /** The decision `has_permission` reaches. */
  function Permitted(store: Store, author: Option<string>, key: string): (r: Result<bool, Error>)
    ensures author == Some("/user/admin") ==> r == Ok(true)
    ensures author != Some("/user/admin") && GetPermission(store, key, false) == Null ==> r == Ok(true)
  {
    if author == Some("/user/admin") then Ok(true)
    else
      var permission := GetPermission(store, key, false);
      if permission == Null then Ok(true) else Decide(Writers(store, permission), author)
  }

  /** `has_permission(store, author, key)`: the admin may write everything, and so may everyone
      where no permission applies; otherwise the writer groups decide. Python's None return is
      false here. */
  method HasPermission(store: Store, author: Option<string>, key: string) returns (r: Result<bool, Error>)
    ensures r == Permitted(store, author, key)
  {
    if author == Some("/user/admin") {
      return Ok(true);
    }
    var permission := GetPermission(store, key, false);
    if permission == Null {
      return Ok(true);
    }
    var groups := Writers(store, permission);
    var i := 0;
    r := Ok(false);
    var done := false;
    while i < |groups| && !done
      invariant i <= |groups|
      decreases |groups| - i
      invariant !done ==> r == Ok(false) && Decide(groups, author) == Decide(groups[i..], author)
      invariant done ==> r == Decide(groups, author)
    {
      match groups[i] {
        case None =>
          r, done := Err(AttributeError), true;
        case Some(g) =>
          if g.key == "/usergroup/everyone" {
            r, done := Ok(true), true;
          } else if author.Some? {
            if g.key == "/usergroup/allusers" || author.value in g.members {
              r, done := Ok(true), true;
            }
          } else {
            r, done := Ok(false), true;
          }
      }
      assert groups[i..][1..] == groups[i + 1..];
      i := i + 1;
    }
  }

  // ---------------------------------------------------------------------------------------
  // saving

  /** A property of a type as `process_value` uses it: the key and kind of its expected type,
      and `unique` when the property has it. */
  datatype Property = Property(name: string, expected: string, kind: string, unique: Option<Value>)

  /** A type object: its key and its properties. */
  datatype TypeDef = TypeDef(key: string, properties: seq<Property>)

  /** What saving consults besides the stored objects: the type objects by key, the type
      `common.find_type` finds for a value, the converters of `common.primitive_types` (a
      ValueError becomes `Err` with its message), the read-only properties, and whether
      permissions are checked. */
  datatype World = World(
    store: Store,
    types: string -> Option<TypeDef>,
    findType: Value -> string,
    convert: (string, Value) -> Result<Value, string>,
    readOnly: seq<string>,
    checkPermission: bool)

  /** `unique is True`: absent (the default) or the boolean True. */
  predicate UniqueIsTrue(p: Property) {
    p.unique.None? || p.unique == Some(Bool(true))
  }

  /** `unique is False`. */
  predicate UniqueIsFalse(p: Property) {
    p.unique == Some(Bool(false))
  }

  /** Python's `repr` of a text, as it appears in messages. */
  function Quoted(s: string): string {
    "'" + s + "'"
  }

  /** The fixed property of 'type'. */
  const TypeProperty := Property("type", "/type/type", "regular", Some(Bool(true)))

  /** `get_property(type, name)`: fixed properties for 'type', 'permission' and
      'child_permission'; otherwise the first property of the type with that name, if any.
      Without a type the lookup is an AttributeError. */
  function GetProperty(t: Option<TypeDef>, name: string): (r: Result<Option<Property>, Error>)
    ensures r.Ok? && r.value.Some? ==> r.value.value.name == name
    ensures name == "type" ==> r == Ok(Some(TypeProperty))
    ensures r.Err? <==> t.None? && name !in {"type", "permission", "child_permission"}
    ensures t.Some? && name !in {"type", "permission", "child_permission"} ==>
      r.Ok? && (r.value.None? <==> forall q :: q in t.value.properties ==> q.name != name)
    ensures r.Ok? && r.value.Some? && t.Some? && name !in {"type", "permission", "child_permission"} ==>
      r.value.value in t.value.properties && r.value.value.name == name
  {
    if name == "type" then Ok(Some(TypeProperty))
    else if name == "permission" || name == "child_permission" then
      Ok(Some(Property(name, "/type/permission", "regular", Some(Bool(true)))))
    else if t.None? then Err(AttributeError)
    else Ok(FirstProperty(t.value.properties, name))
  }

  /** The first property of `ps` named `name`. */
  function FirstProperty(ps: seq<Property>, name: string): (r: Option<Property>)
    ensures r.Some? ==> r.value in ps && r.value.name == name
    ensures r.None? <==> forall q :: q in ps ==> q.name != name
  {
    if ps == [] then None
    else if ps[0].name == name then Some(ps[0])
    else FirstProperty(ps[1..], name)
  }

  /** A property name `validate_properties` accepts: a lower-case letter, then lower-case
      letters, digits and underscores; Python's `$` also lets one final newline through. */
  predicate ValidPropertyName(k: string) {
    var body := if |k| > 0 && k[|k| - 1] == '\n' then k[..|k| - 1] else k;
    |body| > 0 && 'a' <= body[0] <= 'z' &&
    forall i :: 1 <= i < |body| ==> 'a' <= body[i] <= 'z' || '0' <= body[i] <= '9' || body[i] == '_'
  }

  /** `validate_properties(data)`: BadData naming the first key that is not a valid property
      name. */
  function ValidateProperties(keys: seq<string>): (r: Result<(), Error>)
    ensures r.Ok? <==> forall k :: k in keys ==> ValidPropertyName(k)
    ensures r.Err? ==> exists i :: (0 <= i < |keys| && !ValidPropertyName(keys[i]) &&
      r.error == BadData("Bad Property: " + Quoted(keys[i])) &&
      forall j :: 0 <= j < i ==> ValidPropertyName(keys[j]))
  {
    if keys == [] then Ok(())
    else if !ValidPropertyName(keys[0]) then Err(BadData("Bad Property: " + Quoted(keys[0])))
    else
      var r := ValidateProperties(keys[1..]);
      assert forall k :: k in keys ==> k == keys[0] || k in keys[1..];
      if r.Err? then
        var i :| 0 <= i < |keys[1..]| && !ValidPropertyName(keys[1..][i]) &&
          r.error == BadData("Bad Property: " + Quoted(keys[1..][i])) &&
          forall j :: 0 <= j < i ==> ValidPropertyName(keys[1..][j]);
        assert keys[i + 1] == keys[1..][i];
        assert forall j :: 1 <= j < i + 1 ==> keys[j] == keys[1..][j - 1];
        r
      else r
  }

  /** The type a value is found to have by the final check of `process_value`: a reference to
      an object has the object's type (NotFound when there is no such object). */
  function TypeFound(w: World, v: Value): (r: Result<string, Error>)
    ensures w.findType(v) != "/type/object" ==> r == Ok(w.findType(v))
    ensures w.findType(v) == "/type/object" && IsText(v) && w.store(TextOf(v)).None? ==> r == Err(NotFound(TextOf(v)))
  {
    var found := w.findType(v);
    if found != "/type/object" then Ok(found)
    else if !IsText(v) then Err(AttributeError)
    else
      match w.store(TextOf(v))
      case None => Err(NotFound(TextOf(v)))
      case Some(d) =>
        var t := Get(d, "type");
        if t.Some? && IsText(t.value) then Ok(TextOf(t.value)) else Err(AttributeError)
  }

  /** The expected type of an embeddable property, as `process_data` receives it. */
  function ExpectedType(w: World, p: Property): TypeDef {
    w.types(p.expected).GetOr(TypeDef(p.expected, []))
  }

  /** Whether a property's expected type is embedded rather than referenced. */
  predicate Embeddable(p: Property) {
    p.expected !in Common.PrimitiveTypes && p.kind == "embeddable"
  }

  /** The coercion of an atom in `process_value` before its type is checked: text is converted
      to a primitive expected type, an int becomes a float, and text for any other type
      becomes a reference. */
  function Coerce(w: World, value: Value, p: Property): (r: Result<Value, Error>)
    requires !Embeddable(p)
    ensures w.findType(value) == "/type/int" && p.expected == "/type/float" && value.Int? ==>
      r == Ok(Float(value.i as real))
    ensures p.expected !in Common.PrimitiveTypes && w.findType(value) == "/type/string" && IsText(value) ==>
      r == Ok(Ref(TextOf(value)))
    ensures r.Err? ==> p.expected in Common.PrimitiveTypes && w.findType(value) == "/type/string"
  {
    var found := w.findType(value);
    if p.expected in Common.PrimitiveTypes then
      if found == "/type/string" && p.expected != "/type/string" then
        match w.convert(p.expected, value)
        case Err(message) => Err(BadData(message))
        case Ok(v) => Ok(v)
      else if found == "/type/int" && p.expected == "/type/float" && value.Int? then
        Ok(Float(value.i as real))
      else Ok(value)
    else if found == "/type/string" && IsText(value) then Ok(Ref(TextOf(value)))
    else Ok(value)
  }

  /** `process_value(value, property)`: a list only for a non-unique property, each element
      processed as unique; an atom only for a property that is not non-unique. An embeddable
      dict is processed as data of the expected type; any other atom is coerced and must then
      be of the expected type. */
  function ProcessValue(w: World, value: Value, p: Property): (r: Result<Value, Error>)
    ensures value.List? && UniqueIsTrue(p) ==> r == Err(BadData("expected atom, found list"))
    ensures !value.List? && UniqueIsFalse(p) ==> r == Err(BadData("expected list, found atom"))
    ensures r.Ok? && value.List? ==> r.value.List? && |r.value.items| == |value.items|
    ensures r.Ok? && !value.List? && !Embeddable(p) ==> TypeFound(w, r.value) == Ok(p.expected)
    ensures r.Ok? && !value.List? && Embeddable(p) ==> value.Dict? && r.value.Dict?
    decreases value, 2
  {
    if value.List? then
      if UniqueIsTrue(p) then Err(BadData("expected atom, found list"))
      else
        match ProcessList(w, value.items, p.(unique := Some(Bool(true))))
        case Err(e) => Err(e)
        case Ok(items) => Ok(List(items))
    else if UniqueIsFalse(p) then Err(BadData("expected list, found atom"))
    else if Embeddable(p) then
      if value.Dict? then
        match ProcessData(w, value.entries, Some(ExpectedType(w, p)), None)
        case Err(e) => Err(e)
        case Ok(d) => Ok(Dict(d))
      else Err(TypeMismatch(p.expected, w.findType(value)))
    else
      match Coerce(w, value, p)
      case Err(e) => Err(e)
      case Ok(v) =>
        match TypeFound(w, v)
        case Err(e) => Err(e)
        case Ok(t) =>
          if t != p.expected then Err(BadData("expected " + Quoted(p.expected) + ", found " + Quoted(t)))
          else Ok(v)
  }

  /** `[self.process_value(v, p) for v in value]`, stopping at the first error. */
  function ProcessList(w: World, items: seq<Value>, p: Property): (r: Result<seq<Value>, Error>)
    ensures r.Ok? ==> |r.value| == |items|
    ensures r.Ok? ==> forall i :: 0 <= i < |items| ==> ProcessValue(w, items[i], p) == Ok(r.value[i])
    decreases items, 0
  {
    if items == [] then Ok([])
    else
      var v0 := items[0];
      assert v0 in items;
      match ProcessValue(w, v0, p)
      case Err(e) => Err(e)
      case Ok(v) =>
        match ProcessList(w, items[1..], p)
        case Err(e) => Err(e)
        case Ok(rest) =>
          assert forall i :: 1 <= i < |items| ==> items[i] == items[1..][i - 1];
          Ok([v] + rest)
  }

  /** A value `process_data` drops: None, the empty list, or text that is blank once
      stripped. */
  predicate Blank(v: Value) {
    v == Null || v == List([]) || (IsText(v) && IsBlank(TextOf(v)))
  }

  /** What `process_data` does with one entry: drop it when blank (None); keep it when it
      equals the old data's value or no property describes it; otherwise process it. */
  function ProcessEntry(w: World, k: string, v: Value, t: Option<TypeDef>, prev: Option<seq<(string, Value)>>): (r: Result<Option<Value>, Error>)
    ensures Blank(v) <==> r == Ok(None)
    ensures !Blank(v) && prev.Some? && prev.value != [] && Get(prev.value, k) == Some(v) ==> r == Ok(Some(v))
    decreases v, 3
  {
    if Blank(v) then Ok(None)
    else if prev.Some? && prev.value != [] && Get(prev.value, k) == Some(v) then Ok(Some(v))
    else
      match GetProperty(t, k)
      case Err(e) => Err(e)
      case Ok(None) => Ok(Some(v))
      case Ok(Some(p)) =>
        match ProcessValue(w, v, p)
        case Err(e) => Err(e)
        case Ok(pv) => Ok(Some(pv))
  }

  /** The loop of `process_data` over the entries, in order, stopping at the first error. */
  function ProcessEntries(w: World, d: seq<(string, Value)>, t: Option<TypeDef>, prev: Option<seq<(string, Value)>>): (r: Result<seq<(string, Value)>, Error>)
    ensures r.Ok? ==> |r.value| <= |d|
    ensures r.Ok? ==> forall i :: 0 <= i < |r.value| ==> r.value[i].0 in Keys(d)
    decreases d, 0
  {
    if d == [] then Ok([])
    else
      var e := d[|d| - 1];
      assert e in d && e.1 < e;
      assert Keys(d) == Keys(d[..|d| - 1]) + [e.0];
      match ProcessEntries(w, d[..|d| - 1], t, prev)
      case Err(err) => Err(err)
      case Ok(prefix) =>
        match ProcessEntry(w, e.0, e.1, t, prev)
        case Err(err) => Err(err)
        case Ok(None) => Ok(prefix)
        case Ok(Some(v)) => Ok(prefix + [(e.0, v)])
  }

  /** `process_data(d, type, old_data)`: the entries processed, then 'type' set to a reference
      to the type. */
  function ProcessData(w: World, d: seq<(string, Value)>, t: Option<TypeDef>, prev: Option<seq<(string, Value)>>): (r: Result<seq<(string, Value)>, Error>)
    decreases d, 1
  {
    match ProcessEntries(w, d, t, prev)
    case Err(e) => Err(e)
    case Ok(entries) =>
      if t.Some? then Ok(Put(entries, "type", Ref(t.value.key))) else Ok(entries)
  }

  /** The last turn of `process_data`'s loop drops a blank entry and appends any other. */
  lemma EntriesLast(w: World, d: seq<(string, Value)>, t: Option<TypeDef>, prev: Option<seq<(string, Value)>>)
    requires d != [] && ProcessEntries(w, d, t, prev).Ok?
    ensures ProcessEntries(w, d[..|d| - 1], t, prev).Ok?
    ensures Blank(d[|d| - 1].1) ==> Keys(ProcessEntries(w, d, t, prev).value) == Keys(ProcessEntries(w, d[..|d| - 1], t, prev).value)
    ensures !Blank(d[|d| - 1].1) ==> Keys(ProcessEntries(w, d, t, prev).value) == Keys(ProcessEntries(w, d[..|d| - 1], t, prev).value) + [d[|d| - 1].0]
  {
    var e := d[|d| - 1];
    var prefix := ProcessEntries(w, d[..|d| - 1], t, prev).value;
    var entry := ProcessEntry(w, e.0, e.1, t, prev);
    if !Blank(e.1) {
      KeysAppend(prefix, e.0, entry.value.value);
    }
  }

  /** The keys of an entry list with one more entry. */
  lemma KeysAppend(d: seq<(string, Value)>, k: string, v: Value)
    ensures Keys(d + [(k, v)]) == Keys(d) + [k]
  {
    assert (d + [(k, v)])[..|d|] == d;
  }

  /** The keys `process_data` returns come from the entries it was given. */
  lemma EntriesKeysFrom(w: World, d: seq<(string, Value)>, t: Option<TypeDef>, prev: Option<seq<(string, Value)>>)
    requires ProcessEntries(w, d, t, prev).Ok?
    ensures forall k :: k in Keys(ProcessEntries(w, d, t, prev).value) ==> k in Keys(d)
  {
    var ks := Keys(ProcessEntries(w, d, t, prev).value);
    forall k | k in ks ensures k in Keys(d) {
      var i :| 0 <= i < |ks| && ks[i] == k;
    }
  }

  /** `process_data` keeps every entry whose value is not blank. */
  lemma {:induction false} EntriesKeepFilled(w: World, d: seq<(string, Value)>, t: Option<TypeDef>, prev: Option<seq<(string, Value)>>)
    requires ProcessEntries(w, d, t, prev).Ok?
    ensures forall i :: 0 <= i < |d| && !Blank(d[i].1) ==> d[i].0 in Keys(ProcessEntries(w, d, t, prev).value)
  {
    if d != [] {
      var init := d[..|d| - 1];
      EntriesLast(w, d, t, prev);
      EntriesKeepFilled(w, init, t, prev);
      KeepFilledStep(d, init, Keys(ProcessEntries(w, init, t, prev).value), Keys(ProcessEntries(w, d, t, prev).value));
    }
  }

  /** One turn of the loop keeps what was kept and the new entry unless it is blank. */
  lemma KeepFilledStep(d: seq<(string, Value)>, init: seq<(string, Value)>, before: seq<string>, after: seq<string>)
    requires d != [] && init == d[..|d| - 1]
    requires forall i :: 0 <= i < |init| && !Blank(init[i].1) ==> init[i].0 in before
    requires Blank(d[|d| - 1].1) ==> after == before
    requires !Blank(d[|d| - 1].1) ==> after == before + [d[|d| - 1].0]
    ensures forall i :: 0 <= i < |d| && !Blank(d[i].1) ==> d[i].0 in after
  {
    assert forall i :: 0 <= i < |init| ==> init[i] == d[i];
  }

  /** Keys being unique, as in a dict, `process_data` drops every entry whose value is
      blank. */
  lemma {:induction false} EntriesDropBlank(w: World, d: seq<(string, Value)>, t: Option<TypeDef>, prev: Option<seq<(string, Value)>>)
    requires UniqueKeys(d) && ProcessEntries(w, d, t, prev).Ok?
    ensures forall i :: 0 <= i < |d| && Blank(d[i].1) ==> d[i].0 !in Keys(ProcessEntries(w, d, t, prev).value)
  {
    if d != [] {
      var init := d[..|d| - 1];
      EntriesLast(w, d, t, prev);
      UniqueKeysInit(d);
      EntriesDropBlank(w, init, t, prev);
      EntriesKeysFrom(w, init, t, prev);
      LastKeyFresh(d, init);
      DropBlankStep(d, init, Keys(ProcessEntries(w, init, t, prev).value), Keys(ProcessEntries(w, d, t, prev).value));
    }
  }

  lemma UniqueKeysInit(d: seq<(string, Value)>)
    requires d != [] && UniqueKeys(d)
    ensures UniqueKeys(d[..|d| - 1])
  {
  }

  /** One turn of the loop keeps out what was kept out, and adds only its own key, which no
      earlier entry has. */
  lemma DropBlankStep(d: seq<(string, Value)>, init: seq<(string, Value)>, before: seq<string>, after: seq<string>)
    requires d != [] && UniqueKeys(d) && init == d[..|d| - 1]
    requires forall i :: 0 <= i < |init| && Blank(init[i].1) ==> init[i].0 !in before
    requires d[|d| - 1].0 !in before
    requires Blank(d[|d| - 1].1) ==> after == before
    requires !Blank(d[|d| - 1].1) ==> after == before + [d[|d| - 1].0]
    ensures forall i :: 0 <= i < |d| && Blank(d[i].1) ==> d[i].0 !in after
  {
    var e := d[|d| - 1];
    forall i | 0 <= i < |d| && Blank(d[i].1) ensures d[i].0 !in after {
      if i < |init| {
        assert init[i] == d[i];
        assert d[i].0 !in before && d[i].0 != e.0;
      }
    }
  }

  /** With unique keys, the last entry's key is none of the earlier ones. */
  lemma LastKeyFresh(d: seq<(string, Value)>, init: seq<(string, Value)>)
    requires d != [] && UniqueKeys(d) && init == d[..|d| - 1]
    ensures d[|d| - 1].0 !in Keys(init)
  {
    forall j | 0 <= j < |init| ensures Keys(init)[j] != d[|d| - 1].0 {
      assert init[j] == d[j];
    }
  }

  /** One more turn of `process_data`'s loop. */
  lemma EntriesStep(w: World, d: seq<(string, Value)>, i: nat, t: Option<TypeDef>, prev: Option<seq<(string, Value)>>)
    requires i < |d|
    ensures ProcessEntries(w, d[..i + 1], t, prev) ==
      match ProcessEntries(w, d[..i], t, prev)
      case Err(err) => Err(err)
      case Ok(prefix) =>
        match ProcessEntry(w, d[i].0, d[i].1, t, prev)
        case Err(err) => Err(err)
        case Ok(None) => Ok(prefix)
        case Ok(Some(v)) => Ok(prefix + [(d[i].0, v)])
  {
    assert d[..i + 1][..i] == d[..i] && d[..i + 1][i] == d[i];
  }

  /** Once an entry fails, the rest of `process_data`'s loop does not run. */
  lemma {:induction false} EntriesErrorStops(w: World, d: seq<(string, Value)>, i: nat, t: Option<TypeDef>, prev: Option<seq<(string, Value)>>)
    requires i <= |d| && ProcessEntries(w, d[..i], t, prev).Err?
    ensures ProcessEntries(w, d, t, prev) == ProcessEntries(w, d[..i], t, prev)
    decreases |d| - i
  {
    if i < |d| {
      assert d[..|d| - 1][..i] == d[..i];
      EntriesErrorStops(w, d[..|d| - 1], i, t, prev);
    } else {
      assert d[..i] == d;
    }
  }

  /** `process_data` as it runs: the loop over the entries, then 'type' set at the end. */
  method ProcessDataLoop(w: World, d: seq<(string, Value)>, t: Option<TypeDef>, prev: Option<seq<(string, Value)>>) returns (r: Result<seq<(string, Value)>, Error>)
    ensures r == ProcessData(w, d, t, prev)
  {
    var entries := EntriesLoop(w, d, t, prev);
    if entries.Err? {
      return Err(entries.error);
    }
    var out := entries.value;
    if t.Some? {
      out := Put(out, "type", Ref(t.value.key));
    }
    r := Ok(out);
  }

  /** The loop of `process_data`: each entry is dropped, kept or replaced by its processed
      value, in order, until one fails. */
  method EntriesLoop(w: World, d: seq<(string, Value)>, t: Option<TypeDef>, prev: Option<seq<(string, Value)>>) returns (r: Result<seq<(string, Value)>, Error>)
    ensures r == ProcessEntries(w, d, t, prev)
  {
    var out: seq<(string, Value)> := [];
    var i := 0;
    var failed: Option<Error> := None;
    while i < |d| && failed.None?
      invariant 0 <= i <= |d|
      invariant failed.None? ==> ProcessEntries(w, d[..i], t, prev) == Ok(out)
      invariant failed.Some? ==> ProcessEntries(w, d, t, prev) == Err(failed.value)
      decreases |d| - i, if failed.None? then 1 else 0
    {
      var e := d[i];
      EntriesStep(w, d, i, t, prev);
      var entry := ProcessEntry(w, e.0, e.1, t, prev);
      if entry.Err? {
        EntriesErrorStops(w, d, i + 1, t, prev);
        failed := Some(entry.error);
      } else {
        if entry.value.Some? {
          out := out + [(e.0, entry.value.value)];
        }
        i := i + 1;
      }
    }
    if failed.Some? {
      return Err(failed.value);
    }
    assert d[..i] == d;
    r := Ok(out);
  }

  /** `process_data` sets 'type' to a reference to the type it is given. */
  lemma ProcessDataType(w: World, d: seq<(string, Value)>, t: TypeDef, prev: Option<seq<(string, Value)>>)
    requires ProcessData(w, d, Some(t), prev).Ok?
    ensures Get(ProcessData(w, d, Some(t), prev).value, "type") == Some(Ref(t.key))
  {
    GetPut(ProcessEntries(w, d, Some(t), prev).value, "type", Ref(t.key), "type");
  }

  /** `d.pop(k, None)` for every key of `ks`. */
  function RemoveAll(d: seq<(string, Value)>, ks: seq<string>): (r: seq<(string, Value)>)
    ensures forall k :: k in ks ==> !HasKey(r, k)
    ensures forall k :: k !in ks ==> Get(r, k) == Get(d, k)
  {
    if ks == [] then d
    else
      var r := Remove(RemoveAll(d, ks[..|ks| - 1]), ks[|ks| - 1]);
      forall k | k !in ks
        ensures Get(r, k) == Get(d, k)
      {
        GetRemove(RemoveAll(d, ks[..|ks| - 1]), ks[|ks| - 1], k);
      }
      forall k | k in ks
        ensures !HasKey(r, k)
      {
        if k != ks[|ks| - 1] {
          assert k in ks[..|ks| - 1];
          GetRemove(RemoveAll(d, ks[..|ks| - 1]), ks[|ks| - 1], k);
        }
      }
      r
  }

  /** Python's `==` on two dicts: the same keys with the same values. */
  predicate SameDict(a: seq<(string, Value)>, b: seq<(string, Value)>) {
    ToMap(a) == ToMap(b)
  }

  /** The stored object `key`, as `thing._get_data()` returns it; an empty dict counts as no
      previous data. */
  function PreviousData(w: World, key: string, typeKey: string): (r: Option<seq<(string, Value)>>)
    ensures r.Some? ==> w.store(key) == r && r.value != []
  {
    match w.store(key)
    case None => None
    case Some(d) =>
      // a changed type means every property counts as modified
      var t := Get(d, "type");
      if d != [] && t.Some? && IsText(t.value) && TextOf(t.value) == typeKey then Some(d) else None
  }

  /** The checks `process` makes before anything is processed: 'key' filled in when missing
      and required to be the key, the property names validated, and the author's permission
      checked unless permission checks are off. */
  function Admit(w: World, author: Option<string>, key: string, data: seq<(string, Value)>): (r: Result<seq<(string, Value)>, Error>)
    ensures r.Ok? ==> forall k :: k in Keys(data) ==> k in Keys(r.value) && ValidPropertyName(k)
    ensures r.Ok? ==> forall e :: e in data ==> e in r.value
    ensures r.Ok? ==> Get(r.value, "type") == Get(data, "type")
    ensures r.Ok? && w.checkPermission ==> Permitted(w.store, author, key) == Ok(true)
    ensures r.Ok? && w.checkPermission && GetPermission(w.store, key, false) != Null && author != Some("/user/admin") ==>
      Decide(Writers(w.store, GetPermission(w.store, key, false)), author) == Ok(true)
  {
    var filled := if HasKey(data, "key") then data else data + [("key", Str(key))];
    assert forall k :: k in Keys(data) ==> k in Keys(filled) by {
      if !HasKey(data, "key") {
        assert forall i :: 0 <= i < |data| ==> filled[i] == data[i];
      }
    }
    assert Get(filled, "type") == Get(data, "type") by {
      if !HasKey(data, "key") {
        GetPut(data, "key", Str(key), "type");
      }
    }
    var k := Get(filled, "key");
    if !(k.Some? && IsText(k.value) && TextOf(k.value) == key) then Err(AssertionError)
    else if ValidateProperties(Keys(filled)).Err? then Err(ValidateProperties(Keys(filled)).error)
    else
      var allowed := if w.checkPermission then Permitted(w.store, author, key) else Ok(true);
      if allowed.Err? then Err(allowed.error)
      else if !allowed.value then Err(PermissionDenied("Permission denied to modify " + Quoted(key)))
      else Ok(filled)
  }

  /** The type object the processed 'type' value names. */
  function TypeOf(w: World, typeRef: Value): Option<TypeDef> {
    if IsText(typeRef) then w.types(TextOf(typeRef)) else None
  }

  /** The type the data names, looked up after its 'type' value is processed: BadData when the
      value is missing or None, the error of processing it otherwise. */
  function NamedType(w: World, data: seq<(string, Value)>): (r: Result<Option<TypeDef>, Error>)
    ensures (Get(data, "type").None? || Get(data, "type").value == Null) ==> r == Err(BadData("missing type"))
    ensures r.Ok? ==> HasKey(data, "type") && ProcessValue(w, Get(data, "type").value, TypeProperty).Ok?
    ensures r.Ok? ==> r.value == TypeOf(w, ProcessValue(w, Get(data, "type").value, TypeProperty).value)
  {
    var tv := Get(data, "type");
    if tv.None? || tv.value == Null then Err(BadData("missing type"))
    else
      var typeRef := ProcessValue(w, tv.value, TypeProperty);
      if typeRef.Err? then Err(typeRef.error) else Ok(TypeOf(w, typeRef.value))
  }

  /** The two dictionaries `process` compares: the data processed against its type and the
      stored version, and that stored version when it has the same type (None when there is
      none, it is empty or its type changed). A stored thing whose new type is unknown is
      AttributeError. */
  function Processed(w: World, key: string, data: seq<(string, Value)>): (r: Result<(seq<(string, Value)>, Option<seq<(string, Value)>>), Error>)
    ensures (Get(data, "type").None? || Get(data, "type").value == Null) ==> r == Err(BadData("missing type"))
    ensures r.Ok? ==> NamedType(w, data).Ok?
    ensures r.Ok? && r.value.1.Some? ==> w.store(key) == r.value.1 && r.value.1.value != []
    ensures r.Ok? && r.value.1.Some? ==>
      (NamedType(w, data).value.Some? && Get(r.value.1.value, "type").Some? && IsText(Get(r.value.1.value, "type").value)
       && TextOf(Get(r.value.1.value, "type").value) == NamedType(w, data).value.value.key)
    ensures r.Ok? ==> ProcessData(w, data, NamedType(w, data).value, r.value.1) == Ok(r.value.0)
  {
    match NamedType(w, data)
    case Err(e) => Err(e)
    case Ok(t) =>
      var stored := w.store(key);
      if stored.Some? && stored.value != [] && t.None? then Err(AttributeError)
      else
        var prev := if t.Some? then PreviousData(w, key, t.value.key) else None;
        var processed := ProcessData(w, data, t, prev);
        if processed.Err? then Err(processed.error) else Ok((processed.value, prev))
  }

  /** What `process` does once the data is admitted: the type is required and processed, the
      properties are processed against the type and the previous version of the same type,
      and the read-only properties are dropped; None means nothing changed. */
  function SaveData(w: World, key: string, data: seq<(string, Value)>): (r: Result<Option<seq<(string, Value)>>, Error>)
    ensures (Get(data, "type").None? || Get(data, "type").value == Null) ==> r == Err(BadData("missing type"))
    ensures r.Err? <==> Processed(w, key, data).Err?
    ensures r.Err? ==> r.error == Processed(w, key, data).error
    ensures r == Ok(None) <==>
      (Processed(w, key, data).Ok? && Processed(w, key, data).value.1.Some?
       && SameDict(RemoveAll(Processed(w, key, data).value.0, w.readOnly), RemoveAll(Processed(w, key, data).value.1.value, w.readOnly)))
    ensures r.Ok? && r.value.Some? ==> r.value.value == RemoveAll(Processed(w, key, data).value.0, w.readOnly)
    ensures r.Ok? ==> HasKey(data, "type") && Get(data, "type").value != Null
    ensures r.Ok? ==> ProcessValue(w, Get(data, "type").value, TypeProperty).Ok?
    ensures r.Ok? ==> TypeFound(w, ProcessValue(w, Get(data, "type").value, TypeProperty).value) == Ok("/type/type")
    ensures r.Ok? && r.value.Some? ==> forall k :: k in w.readOnly ==> !HasKey(r.value.value, k)
    ensures r == Ok(None) ==> w.store(key).Some?
  {
    var tv := Get(data, "type");
    if tv.None? || tv.value == Null then Err(BadData("missing type"))
    else
      var typeRef := ProcessValue(w, tv.value, TypeProperty);
      if typeRef.Err? then Err(typeRef.error)
      else
        var t := TypeOf(w, typeRef.value);
        var stored := w.store(key);
        if stored.Some? && stored.value != [] && t.None? then Err(AttributeError)
        else
          var prev := if t.Some? then PreviousData(w, key, t.value.key) else None;
          match ProcessData(w, data, t, prev)
          case Err(e) => Err(e)
          case Ok(processed) =>
            var result := RemoveAll(processed, w.readOnly);
            if prev.Some? && SameDict(result, RemoveAll(prev.value, w.readOnly)) then Ok(None)
            else Ok(Some(result))
  }

  /** `SaveProcessor(store, author).process(key, data)`. */
  function Process(w: World, author: Option<string>, key: string, data: seq<(string, Value)>): (r: Result<Option<seq<(string, Value)>>, Error>)
    ensures r.Ok? ==> forall k :: k in Keys(data) ==> ValidPropertyName(k)
    ensures r.Ok? && w.checkPermission ==> Permitted(w.store, author, key) == Ok(true)
    ensures r.Ok? && r.value.Some? ==> forall k :: k in w.readOnly ==> !HasKey(r.value.value, k)
    ensures r == Ok(None) ==> w.store(key).Some?
    ensures Admit(w, author, key, data).Err? ==> r == Err(Admit(w, author, key, data).error)
    ensures Admit(w, author, key, data).Ok? && (Get(data, "type").None? || Get(data, "type").value == Null) ==>
      r == Err(BadData("missing type"))
    ensures r == Ok(None) <==>
      (Admit(w, author, key, data).Ok? && var p := Processed(w, key, Admit(w, author, key, data).value);
       p.Ok? && p.value.1.Some? && SameDict(RemoveAll(p.value.0, w.readOnly), RemoveAll(p.value.1.value, w.readOnly)))
    ensures r.Ok? && r.value.Some? ==>
      (Admit(w, author, key, data).Ok? && Processed(w, key, Admit(w, author, key, data).value).Ok?
       && r.value.value == RemoveAll(Processed(w, key, Admit(w, author, key, data).value).value.0, w.readOnly))
  {
    var admitted := Admit(w, author, key, data);
    if admitted.Err? then Err(admitted.error) else SaveData(w, key, admitted.value)
  }
}
