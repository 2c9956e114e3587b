/** The legacy tdb object store (infogami/tdb/tdb.py): things whose data is a dictionary, stored
    as one `datum` row per value (lists as one row per item with its position), a dirty flag
    that decides whether saving writes a new version, and a cache keyed by id or by name and
    parent. The `thing`, `version` and `datum` tables are given as rows; SQL is not modelled. */
module Tdb {
  import opened Wrappers
  import opened Strings

  /** A stored value: a byte string, a reference to a thing by id, an integer, a float (kept as
      the text the database holds), a list, or None. */
  datatype TValue = Str(s: string) | Ref(id: int) | Int(i: int) | Float(text: string) | List(items: seq<TValue>) | Null

  // ---------------------------------------------------------------------------------------------
  // Attributes: `Thing._reserved`, `__setattr__`, `setdata`, `save`

  /** The attribute names `Thing` keeps on the object rather than in its data. */
  const ReservedNames: seq<string> :=
    ["id", "parent", "name", "type", "latest_revision", "v", "h", "d", "latest", "versions", "save", "_tdb"]

  /** `Thing._reserved`: a leading underscore or one of the fixed names. */
  predicate Reserved(attr: string) {
    StartsWith(attr, "_") || attr in ReservedNames
  }

  class Thing {
    /** The reserved attributes set on the object (its `__dict__`), other than `d`. */
    var slots: map<string, TValue>
    /** The thing's data. */
    var d: map<string, TValue>
    /** Whether the thing changed since it was loaded or saved. */
    var dirty: bool
    /** The data of every version this thing wrote, oldest first (the store's side of `save`). */
    var saved: seq<map<string, TValue>>

    /** `Thing.__init__`: id (None for a new thing), name, parent, type, latest revision and
        version on the object, a clean flag. */
    constructor (id: Option<int>, name: TValue, parent: TValue, latestRevision: TValue, v: TValue,
                 typ: TValue, data: map<string, TValue>)
      ensures Valid()
      ensures slots == map["id" := (if id.Some? then Int(id.value) else Null), "name" := name,
                           "parent" := parent, "type" := typ, "latest_revision" := latestRevision, "v" := v]
      ensures d == data && !dirty && saved == []
    {
      slots := map["id" := (if id.Some? then Int(id.value) else Null), "name" := name,
                   "parent" := parent, "type" := typ, "latest_revision" := latestRevision, "v" := v];
      d := data;
      dirty := false;
      saved := [];
    }

    /** `__getattr__`/`__getitem__`: a data value under a name that is not reserved; AttributeError otherwise. */
    function Get(attr: string): (r: Result<TValue, string>)
      reads this
      ensures r.Ok? <==> !Reserved(attr) && attr in d
      ensures r.Ok? ==> r.value == d[attr]
    {
      if !Reserved(attr) && attr in d then Ok(d[attr]) else Err("AttributeError")
    }

    /** `__setattr__`/`__setitem__`: a reserved name goes on the object, and only `type` among them
        marks the thing dirty; any other name goes into the data and marks it dirty. */
    method SetAttr(attr: string, value: TValue)
      requires attr != "d"
      modifies this
      ensures Reserved(attr) ==> slots == old(slots)[attr := value] && d == old(d)
                                 && dirty == (old(dirty) || attr == "type")
      ensures !Reserved(attr) ==> d == old(d)[attr := value] && slots == old(slots) && dirty
      ensures saved == old(saved)
    {
      if Reserved(attr) {
        slots := slots[attr := value];
        if attr == "type" {
          dirty := true;
        }
      } else {
        d := d[attr := value];
        dirty := true;
      }
    }

    /** `setdata`: new data, and the thing is dirty. */
    method SetData(data: map<string, TValue>)
      modifies this
      ensures d == data && dirty && slots == old(slots) && saved == old(saved)
    {
      d := data;
      dirty := true;
    }

    /** `save`: a dirty thing hands the store its data, entry by entry in the order `items()`
        gives them (`entries`), then its type; the store writes the rows of each. A value the
        store cannot write is BadData: nothing is recorded and the thing stays dirty. Otherwise
        a new version is recorded and the thing becomes clean. A clean thing writes nothing. */
    method Save(entries: seq<(string, TValue)>) returns (r: Result<seq<Row>, string>)
      requires Valid() && DistinctKeys(entries) && Extend(map[], entries) == d
      modifies this
      ensures Valid() && d == old(d) && slots == old(slots)
      ensures old(dirty) ==> r == SaveRows(entries + [("__type__", slots["type"])])
      ensures !old(dirty) ==> r == Ok([])
      ensures r.Ok? ==> !dirty && saved == old(saved) + (if old(dirty) then [d] else [])
      ensures r.Err? ==> dirty && saved == old(saved)
    {
      if !dirty {
        return Ok([]);
      }
      r := SaveRows(entries + [("__type__", slots["type"])]);
      if r.Ok? {
        saved := saved + [d];
        dirty := false;
      }
    }

    /** The attributes `__init__` sets are present, and the id is an integer or None. */
    predicate Valid()
      reads this
    {
      "id" in slots && "name" in slots && "parent" in slots && "type" in slots
      && "latest_revision" in slots && "v" in slots
      && (slots["id"].Int? || slots["id"].Null?)
    }

    /** `copy`: a new thing with the same id, name, parent, latest revision, version, type and
        data, and a clean flag; other attributes set on the object are not carried over. */
    method Copy() returns (c: Thing)
      requires Valid()
      ensures fresh(c) && c.Valid()
      ensures Same(c, this) && c.d == d && !c.dirty && c.saved == []
      ensures c.slots == map k | k in slots && k in {"id", "name", "parent", "type", "latest_revision", "v"} :: slots[k]
    {
      var id := if slots["id"].Int? then Some(slots["id"].i) else None;
      c := new Thing(id, slots["name"], slots["parent"], slots["latest_revision"], slots["v"], slots["type"], d);
    }
  }

  /** `Thing.__eq__`: the same id, the same name and equal data; the type, parent and flags do not count. */
  predicate Same(a: Thing, b: Thing)
    reads a, b
  {
    GetSlot(a.slots, "id") == GetSlot(b.slots, "id") && GetSlot(a.slots, "name") == GetSlot(b.slots, "name") && a.d == b.d
  }

  function GetSlot(slots: map<string, TValue>, attr: string): Option<TValue> {
    if attr in slots then Some(slots[attr]) else None
  }

  // ---------------------------------------------------------------------------------------------
  // Data rows: `savedatum` and `_parse_data`

  /** A `datum` row: the key, the value as the database holds it, its type code and, for a list
      item, its position. */
  datatype Row = Row(key: string, value: string, dataType: int, ordering: Option<nat>)

  /** The row of one value that is not a list: code 0 for a string, 1 for a thing (stored as its
      id), 2 for an integer, 3 for a float; anything else is BadData. */
  function ScalarRow(key: string, v: TValue, ordering: Option<nat>): (r: Result<Row, string>)
    ensures r.Ok? <==> v.Str? || v.Ref? || v.Int? || v.Float?
    ensures r.Ok? ==> r.value.key == key && r.value.ordering == ordering && 0 <= r.value.dataType <= 3
  {
    match v
    case Str(s) => Ok(Row(key, s, 0, ordering))
    case Ref(id) => Ok(Row(key, IntToString(id), 1, ordering))
    case Int(i) => Ok(Row(key, IntToString(i), 2, ordering))
    case Float(t) => Ok(Row(key, t, 3, ordering))
    case List(_) => Err("BadData")
    case Null => Err("BadData")
  }

  /** The rows of the items of a top-level list, numbered from `n`. */
  function ItemRows(key: string, items: seq<TValue>, n: nat): (r: Result<seq<Row>, string>)
    ensures r.Ok? ==> |r.value| == |items|
    ensures r.Ok? ==> forall j :: 0 <= j < |items| ==> r.value[j].key == key && r.value[j].ordering == Some(n + j)
    decreases |items|
  {
    if items == [] then Ok([])
    else
      var first := ScalarRow(key, items[0], Some(n));
      if first.Err? then Err(first.error)
      else
        var rest := ItemRows(key, items[1..], n + 1);
        if rest.Err? then rest else Ok([first.value] + rest.value)
  }

  /** `savedatum(vid, key, value)`: a top-level list becomes one row per item, numbered from 0
      (a list inside it is BadData); any other value becomes one row without a position. */
  function SaveDatum(key: string, v: TValue): (r: Result<seq<Row>, string>)
    ensures r.Ok? ==> forall j :: 0 <= j < |r.value| ==> r.value[j].key == key
  {
    if v.List? then ItemRows(key, v.items, 0)
    else
      var row := ScalarRow(key, v, None);
      if row.Err? then Err(row.error) else Ok([row.value])
  }

  /** The rows `save` writes for a thing's data, in the order of its entries, then its type. */
  function SaveRows(entries: seq<(string, TValue)>): (r: Result<seq<Row>, string>) {
    if entries == [] then Ok([])
    else
      var first := SaveDatum(entries[0].0, entries[0].1);
      if first.Err? then first
      else
        var rest := SaveRows(entries[1..]);
        if rest.Err? then rest else Ok(first.value + rest.value)
  }

  /** The value a row holds, decoded by its type code: 1 a thing by id, 2 an integer, 3 a float;
      0 and unknown codes leave the text as it is. A malformed number is Python's ValueError. */
  function DecodeRow(row: Row): (r: Result<TValue, string>)
    ensures r.Err? <==> (row.dataType == 1 || row.dataType == 2) && ParseInt(row.value).None?
    ensures r.Err? ==> r.error == "ValueError"
    ensures r.Ok? ==> !r.value.List? && !r.value.Null?
    ensures r.Ok? && (r.value.Str? || r.value.Float?) ==> row.dataType != 1 && row.dataType != 2
  {
    if row.dataType == 1 || row.dataType == 2 then
      var i := ParseInt(row.value);
      if i.None? then Err("ValueError")
      else if row.dataType == 1 then Ok(Ref(i.value)) else Ok(Int(i.value))
    else if row.dataType == 3 then Ok(Float(row.value))
    else Ok(Str(row.value))
  }

  /** One row into the dictionary: a positioned row appends to the list under its key (started
      when the key is new; appending to a value that is not a list is AttributeError), any other
      row sets its key. */
  function AddRow(d: map<string, TValue>, r: Row): Result<map<string, TValue>, string> {
    var v := DecodeRow(r);
    if v.Err? then Err(v.error)
    else if r.ordering.Some? then
      if r.key !in d then Ok(d[r.key := List([v.value])])
      else if d[r.key].List? then Ok(d[r.key := List(d[r.key].items + [v.value])])
      else Err("AttributeError")
    else Ok(d[r.key := v.value])
  }

  function ParseFrom(rows: seq<Row>, d: map<string, TValue>): Result<map<string, TValue>, string>
    decreases |rows|
  {
    if rows == [] then Ok(d)
    else
      var d1 := AddRow(d, rows[0]);
      if d1.Err? then d1 else ParseFrom(rows[1..], d1.value)
  }

  /** `_parse_data`: the rows folded into a dictionary, then `__type__` popped from it (KeyError
      when it is missing). */
  function ParseData(rows: seq<Row>): (r: Result<(map<string, TValue>, TValue), string>)
    ensures r.Ok? ==> "__type__" !in r.value.0
  {
    var d := ParseFrom(rows, map[]);
    if d.Err? then Err(d.error)
    else if "__type__" !in d.value then Err("KeyError")
    else Ok((d.value - {"__type__"}, d.value["__type__"]))
  }

  /** `_parse_data`'s loop over the rows. */
  method ParseDataLoop(rows: seq<Row>) returns (r: Result<(map<string, TValue>, TValue), string>)
    ensures r == ParseData(rows)
  {
    var d: map<string, TValue> := map[];
    var i := 0;
    var failed: Option<string> := None;
    while i < |rows| && failed.None?
      invariant 0 <= i <= |rows|
      invariant failed.None? ==> ParseFrom(rows[i..], d) == ParseFrom(rows, map[])
      invariant failed.Some? ==> ParseFrom(rows, map[]) == Err(failed.value)
      decreases |rows| - i, if failed.None? then 1 else 0
    {
      assert rows[i..][0] == rows[i] && rows[i..][1..] == rows[i + 1..];
      var d1 := AddRow(d, rows[i]);
      if d1.Err? {
        failed := Some(d1.error);
      } else {
        d := d1.value;
        i := i + 1;
      }
    }
    if failed.Some? {
      r := Err(failed.value);
    } else {
      assert rows[i..] == [];
      if "__type__" !in d {
        r := Err("KeyError");
      } else {
        r := Ok((d - {"__type__"}, d["__type__"]));
      }
    }
  }

  // ---------------------------------------------------------------------------------------------
  // Saving then parsing

  /** A value `savedatum` writes as a single row. */
  predicate Scalar(v: TValue) {
    v.Str? || v.Ref? || v.Int? || v.Float?
  }

  /** A value that survives `savedatum` then `_parse_data`: a scalar, or a non-empty list of
      scalars (an empty list writes no row at all, so its key is not read back). */
  predicate Storable(v: TValue) {
    Scalar(v) || (v.List? && v.items != [] && forall i :: 0 <= i < |v.items| ==> Scalar(v.items[i]))
  }

  /** A dictionary built from entries in order, later entries overriding earlier ones. */
  function Extend(d: map<string, TValue>, entries: seq<(string, TValue)>): map<string, TValue>
    decreases |entries|
  {
    if entries == [] then d else Extend(d[entries[0].0 := entries[0].1], entries[1..])
  }

  predicate DistinctKeys(entries: seq<(string, TValue)>) {
    forall i, j :: 0 <= i < j < |entries| ==> entries[i].0 != entries[j].0
  }

  lemma {:induction false} ExtendKeys(d: map<string, TValue>, entries: seq<(string, TValue)>)
    ensures Extend(d, entries).Keys == d.Keys + set i | 0 <= i < |entries| :: entries[i].0
    decreases |entries|
  {
    if entries != [] {
      ExtendKeys(d[entries[0].0 := entries[0].1], entries[1..]);
      var rest := set i | 0 <= i < |entries| - 1 :: entries[1..][i].0;
      var all := set i | 0 <= i < |entries| :: entries[i].0;
      assert all == {entries[0].0} + rest by {
        forall k | k in all ensures k in {entries[0].0} + rest {
          var i :| 0 <= i < |entries| && entries[i].0 == k;
          if i > 0 {
            assert entries[1..][i - 1].0 == k;
          }
        }
      }
    }
  }

  /** A row that decodes to the value it was written from. */
  lemma ScalarRowDecodes(key: string, v: TValue, ordering: Option<nat>)
    requires Scalar(v)
    ensures ScalarRow(key, v, ordering).Ok? && DecodeRow(ScalarRow(key, v, ordering).value) == Ok(v)
  {
    if v.Ref? {
      ParseIntToString(v.id);
    } else if v.Int? {
      ParseIntToString(v.i);
    }
  }

  lemma {:induction false} ParseFromAppend(a: seq<Row>, b: seq<Row>, d: map<string, TValue>)
    ensures ParseFrom(a + b, d) == if ParseFrom(a, d).Err? then ParseFrom(a, d) else ParseFrom(b, ParseFrom(a, d).value)
    decreases |a|
  {
    if a != [] {
      assert (a + b)[0] == a[0] && (a + b)[1..] == a[1..] + b;
      var d1 := AddRow(d, a[0]);
      if d1.Ok? {
        ParseFromAppend(a[1..], b, d1.value);
      }
    } else {
      assert a + b == b;
    }
  }

  /** One item row appends its value to the list under its key. */
  lemma AddItemRow(key: string, item: TValue, n: nat, d: map<string, TValue>)
    requires key in d && d[key].List? && Scalar(item)
    ensures ScalarRow(key, item, Some(n)).Ok?
    ensures AddRow(d, ScalarRow(key, item, Some(n)).value) == Ok(d[key := List(d[key].items + [item])])
  {
    ScalarRowDecodes(key, item, Some(n));
  }

  /** The item rows of a list extend the list already under the key. */
  lemma {:induction false} ParseItemRows(key: string, items: seq<TValue>, n: nat, d: map<string, TValue>)
    requires key in d && d[key].List?
    requires forall i :: 0 <= i < |items| ==> Scalar(items[i])
    ensures ItemRows(key, items, n).Ok?
    ensures ParseFrom(ItemRows(key, items, n).value, d) == Ok(d[key := List(d[key].items + items)])
    decreases |items|
  {
    if items == [] {
      assert d[key].items + items == d[key].items;
      assert d[key := List(d[key].items)] == d;
    } else {
      AddItemRow(key, items[0], n, d);
      var d1 := d[key := List(d[key].items + [items[0]])];
      ParseItemRows(key, items[1..], n + 1, d1);
      ItemRowsCons(key, items, n);
      ParseFromCons(ItemRows(key, items, n).value, d);
      ListExtendStep(d, key, items);
    }
  }

  /** The item rows of a non-empty list: the first item's row, then the rest's. */
  lemma ItemRowsCons(key: string, items: seq<TValue>, n: nat)
    requires items != [] && ScalarRow(key, items[0], Some(n)).Ok? && ItemRows(key, items[1..], n + 1).Ok?
    ensures ItemRows(key, items, n).Ok?
    ensures ItemRows(key, items, n).value[0] == ScalarRow(key, items[0], Some(n)).value
    ensures ItemRows(key, items, n).value[1..] == ItemRows(key, items[1..], n + 1).value
  {
  }

  /** Reading rows is reading the first, then the rest from there. */
  lemma ParseFromCons(rows: seq<Row>, d: map<string, TValue>)
    requires rows != [] && AddRow(d, rows[0]).Ok?
    ensures ParseFrom(rows, d) == ParseFrom(rows[1..], AddRow(d, rows[0]).value)
  {
  }

  /** Extending a list by its first item and then by the rest extends it by all items. */
  lemma ListExtendStep(d: map<string, TValue>, key: string, items: seq<TValue>)
    requires key in d && d[key].List? && items != []
    ensures var d1 := d[key := List(d[key].items + [items[0]])];
      d1[key := List(d1[key].items + items[1..])] == d[key := List(d[key].items + items)]
  {
    assert d[key].items + [items[0]] + items[1..] == d[key].items + items;
  }

  /** One value written then read back into a dictionary that does not hold its key yet. */
  lemma {:induction false} ParseDatum(key: string, v: TValue, d: map<string, TValue>)
    requires Storable(v) && key !in d
    ensures SaveDatum(key, v).Ok? && ParseFrom(SaveDatum(key, v).value, d) == Ok(d[key := v])
  {
    if v.List? {
      var items := v.items;
      ScalarRowDecodes(key, items[0], Some(0));
      var d1 := d[key := List([items[0]])];
      assert AddRow(d, ScalarRow(key, items[0], Some(0)).value) == Ok(d1);
      ParseItemRows(key, items[1..], 1, d1);
      var rows := ItemRows(key, items, 0).value;
      assert rows[0] == ScalarRow(key, items[0], Some(0)).value;
      assert rows[1..] == ItemRows(key, items[1..], 1).value;
      assert ParseFrom(rows, d) == ParseFrom(rows[1..], d1);
      assert [items[0]] + items[1..] == items;
      assert d1[key := List([items[0]] + items[1..])] == d[key := v];
    } else {
      ScalarRowDecodes(key, v, None);
    }
  }

  /** The rows of distinct entries read back as the dictionary they were written from. */
  lemma {:induction false} ParseSaved(entries: seq<(string, TValue)>, d: map<string, TValue>)
    requires DistinctKeys(entries)
    requires forall i :: 0 <= i < |entries| ==> Storable(entries[i].1) && entries[i].0 !in d
    ensures SaveRows(entries).Ok? && ParseFrom(SaveRows(entries).value, d) == Ok(Extend(d, entries))
    decreases |entries|
  {
    if entries != [] {
      var e := entries[0];
      ParseDatum(e.0, e.1, d);
      var d1 := d[e.0 := e.1];
      forall i | 0 <= i < |entries| - 1
        ensures Storable(entries[1..][i].1) && entries[1..][i].0 !in d1
      {
        assert entries[1..][i] == entries[i + 1];
      }
      ParseSaved(entries[1..], d1);
      ParseFromAppend(SaveDatum(e.0, e.1).value, SaveRows(entries[1..]).value, d);
    }
  }

  /** `save` then `_parse_data`: a thing's data, whose keys are distinct and other than
      `__type__` and whose values are storable, reads back as written, with its type. */
  lemma {:induction false} SaveParseRoundTrip(entries: seq<(string, TValue)>, typ: TValue)
    requires DistinctKeys(entries) && Scalar(typ)
    requires forall i :: 0 <= i < |entries| ==> Storable(entries[i].1) && entries[i].0 != "__type__"
    ensures SaveRows(entries + [("__type__", typ)]).Ok?
    ensures ParseData(SaveRows(entries + [("__type__", typ)]).value) == Ok((Extend(map[], entries), typ))
  {
    var all := entries + [("__type__", typ)];
    assert forall i :: 0 <= i < |entries| ==> all[i] == entries[i];
    assert DistinctKeys(all);
    ParseSaved(all, map[]);
    ExtendSnoc(map[], entries, ("__type__", typ));
    ExtendKeys(map[], entries);
    var m := Extend(map[], entries);
    assert "__type__" !in m;
    assert m["__type__" := typ] - {"__type__"} == m;
  }

  /** A value `savedatum` cannot write (None, say) anywhere in the data fails the whole save. */
  lemma {:induction false} SaveRowsRejects(entries: seq<(string, TValue)>, i: nat)
    requires i < |entries| && entries[i].1.Null?
    ensures SaveRows(entries).Err?
    decreases i
  {
    if i > 0 {
      SaveRowsRejects(entries[1..], i - 1);
    }
  }

  /** Saving a dirty thing whose values are storable records a version and cleans the thing,
      and the rows it writes read back as its data and type. */
  method SaveReadsBack(t: Thing, entries: seq<(string, TValue)>) returns (r: Result<seq<Row>, string>)
    requires t.Valid() && t.dirty && DistinctKeys(entries) && Extend(map[], entries) == t.d
    requires Scalar(t.slots["type"])
    requires forall i :: 0 <= i < |entries| ==> Storable(entries[i].1) && entries[i].0 != "__type__"
    modifies t
    ensures t.Valid() && r.Ok? && !t.dirty && t.saved == old(t.saved) + [t.d]
    ensures ParseData(r.value) == Ok((t.d, t.slots["type"]))
  {
    r := t.Save(entries);
    SaveParseRoundTrip(entries, t.slots["type"]);
  }

  /** Saving a dirty thing that holds None fails and leaves it dirty, with nothing recorded. */
  method SaveNoneStaysDirty(t: Thing, entries: seq<(string, TValue)>, i: nat) returns (r: Result<seq<Row>, string>)
    requires t.Valid() && t.dirty && DistinctKeys(entries) && Extend(map[], entries) == t.d
    requires i < |entries| && entries[i].1.Null?
    modifies t
    ensures r.Err? && t.dirty && t.saved == old(t.saved)
  {
    var all := entries + [("__type__", t.slots["type"])];
    assert all[i] == entries[i];
    SaveRowsRejects(all, i);
    r := t.Save(entries);
  }

  lemma {:induction false} ExtendSnoc(d: map<string, TValue>, entries: seq<(string, TValue)>, e: (string, TValue))
    ensures Extend(d, entries + [e]) == Extend(d, entries)[e.0 := e.1]
    decreases |entries|
  {
    if entries == [] {
      assert Extend(d[e.0 := e.1], []) == d[e.0 := e.1];
      assert [] + [e] == [e];
    } else {
      assert (entries + [e])[0] == entries[0] && (entries + [e])[1..] == entries[1..] + [e];
      ExtendSnoc(d[entries[0].0 := entries[0].1], entries[1..], e);
    }
  }

  // ---------------------------------------------------------------------------------------------
  // `BetterTDBImpl._reorder`

  /** The dictionary `_reorder` builds: each thing under its key, a later thing replacing an
      earlier one with the same key. */
  function Keyed<K(==,!new), T>(things: seq<T>, key: T -> K): (m: map<K, T>)
    ensures forall k :: k in m <==> exists i :: 0 <= i < |things| && key(things[i]) == k
    ensures forall k :: k in m ==>
      exists i :: 0 <= i < |things| && things[i] == m[k] && key(things[i]) == k && forall j :: i < j < |things| ==> key(things[j]) != k
  {
    if things == [] then map[]
    else
      var init := things[..|things| - 1];
      var last := things[|things| - 1];
      assert things == init + [last];
      KeyedLast(init, last, key, Keyed(init, key));
      Keyed(init, key)[key(last) := last]
  }

  /** One more thing, stored under its key, replaces what was stored there. */
  lemma KeyedLast<K(!new), T>(init: seq<T>, last: T, key: T -> K, m0: map<K, T>)
    requires forall k :: k in m0 <==> exists i :: 0 <= i < |init| && key(init[i]) == k
    requires forall k :: k in m0 ==>
      exists i :: 0 <= i < |init| && init[i] == m0[k] && key(init[i]) == k && forall j :: i < j < |init| ==> key(init[j]) != k
    ensures var things, m := init + [last], m0[key(last) := last];
      forall k :: k in m <==> exists i :: 0 <= i < |things| && key(things[i]) == k
    ensures var things, m := init + [last], m0[key(last) := last];
      forall k :: k in m ==>
        exists i :: 0 <= i < |things| && things[i] == m[k] && key(things[i]) == k && forall j :: i < j < |things| ==> key(things[j]) != k
  {
    var things, m := init + [last], m0[key(last) := last];
    assert forall i :: 0 <= i < |init| ==> init[i] == things[i];
    assert things[|init|] == last;
    forall k | k in m
      ensures exists i :: 0 <= i < |things| && things[i] == m[k] && key(things[i]) == k && forall j :: i < j < |things| ==> key(things[j]) != k
    {
      if k == key(last) {
        assert things[|things| - 1] == m[k];
      } else {
        var i :| 0 <= i < |init| && init[i] == m0[k] && key(init[i]) == k && forall j :: i < j < |init| ==> key(init[j]) != k;
        assert things[i] == m[k];
      }
    }
  }

  /** `_reorder(things, key, order)`: the things in the order of the requested keys, the last
      thing with each key; a requested key no thing has is NotFound, for the first such key. */
  method Reorder<K(==,!new), T>(things: seq<T>, key: T -> K, order: seq<K>) returns (r: Result<seq<T>, K>)
    ensures r.Ok? <==> forall i :: 0 <= i < |order| ==> order[i] in Keyed(things, key)
    ensures r.Ok? ==> |r.value| == |order| && forall i :: 0 <= i < |order| ==> r.value[i] == Keyed(things, key)[order[i]]
    ensures r.Err? ==>
      exists i :: 0 <= i < |order| && order[i] == r.error && order[i] !in Keyed(things, key) && forall j :: 0 <= j < i ==> order[j] in Keyed(things, key)
  {
    var d: map<K, T> := map[];
    for i := 0 to |things|
      invariant d == Keyed(things[..i], key)
    {
      assert things[..i + 1][..i] == things[..i];
      d := d[key(things[i]) := things[i]];
    }
    assert things[..|things|] == things;
    var result: seq<T> := [];
    for i := 0 to |order|
      invariant |result| == i
      invariant forall j :: 0 <= j < i ==> order[j] in d && result[j] == d[order[j]]
    {
      if order[i] !in d {
        return Err(order[i]);
      }
      result := result + [d[order[i]]];
    }
    r := Ok(result);
  }

  // ---------------------------------------------------------------------------------------------
  // `ThingCache`

  /** What a cached copy keeps of a thing: the attributes `copy` carries over. */
  datatype Snapshot = Snapshot(id: TValue, name: TValue, parent: TValue, latestRevision: TValue, v: TValue,
                               typ: TValue, d: map<string, TValue>)

  /** A cache key: an id, or a (name, parent id) pair. */
  datatype CacheKey = ById(id: TValue) | ByName(name: TValue, parentId: TValue)

  function SnapshotOf(t: Thing): (s: Snapshot)
    reads t
    requires t.Valid()
    ensures s.id == t.slots["id"] && s.name == t.slots["name"] && s.d == t.d
  {
    Snapshot(t.slots["id"], t.slots["name"], t.slots["parent"], t.slots["latest_revision"], t.slots["v"],
             t.slots["type"], t.d)
  }

  /** `value.parent.id`: the id of the thing the parent attribute refers to; anything else
      has no `id` (AttributeError). */
  function ParentId(s: Snapshot): Option<TValue> {
    if s.parent.Ref? then Some(Int(s.parent.id)) else None
  }

  class ThingCache {
    /** Copies by id. */
    var cache: map<TValue, Snapshot>
    /** Copies by (name, parent id). */
    var namecache: map<(TValue, TValue), Snapshot>

    /** Every stored copy has the integer-or-None id `Thing.__init__` gives it. */
    predicate Valid()
      reads this
    {
      (forall id :: id in cache ==> cache[id].id.Int? || cache[id].id.Null?)
      && (forall np :: np in namecache ==> namecache[np].id.Int? || namecache[np].id.Null?)
    }

    constructor ()
      ensures Valid() && cache == map[] && namecache == map[]
    {
      cache := map[];
      namecache := map[];
    }

    /** `key in cache`: a pair is looked up among the names, anything else among the ids. */
    function Contains(key: CacheKey): (b: bool)
      reads this
      ensures key.ById? ==> (b <==> key.id in cache)
      ensures key.ByName? ==> (b <==> (key.name, key.parentId) in namecache)
    {
      match key
      case ById(id) => id in cache
      case ByName(name, parentId) => (name, parentId) in namecache
    }

    function Lookup(key: CacheKey): (r: Option<Snapshot>)
      reads this
      ensures r.Some? <==> Contains(key)
    {
      match key
      case ById(id) => if id in cache then Some(cache[id]) else None
      case ByName(name, parentId) => if (name, parentId) in namecache then Some(namecache[(name, parentId)]) else None
    }

    /** `cache[key]`: a fresh copy of what is stored, clean; KeyError when nothing is. */
    method Get(key: CacheKey) returns (r: Result<Thing, string>)
      requires Valid()
      ensures r.Err? <==> !Contains(key)
      ensures r.Ok? ==> fresh(r.value) && r.value.Valid() && !r.value.dirty
      ensures r.Ok? ==> SnapshotOf(r.value) == Lookup(key).value
    {
      var s := Lookup(key);
      if s.None? {
        return Err("KeyError");
      }
      var v := s.value;
      var id := if v.id.Int? then Some(v.id.i) else None;
      var t := new Thing(id, v.name, v.parent, v.latestRevision, v.v, v.typ, v.d);
      r := Ok(t);
    }

    /** `cache[key] = value`: a copy goes under its id and under its (name, parent id),
        whichever of the two the key gives. A thing whose parent has no id is AttributeError
        and nothing is stored. */
    method Set(key: CacheKey, t: Thing) returns (r: Result<(), string>)
      requires Valid() && t.Valid()
      modifies this
      ensures Valid()
      ensures var s := SnapshotOf(t);
        match key
        case ById(id) =>
          if ParentId(s).None? then r.Err? && cache == old(cache) && namecache == old(namecache)
          else r.Ok? && cache == old(cache)[id := s] && namecache == old(namecache)[(s.name, ParentId(s).value) := s]
        case ByName(name, parentId) =>
          r.Ok? && cache == old(cache)[s.id := s] && namecache == old(namecache)[(name, parentId) := s]
    {
      var s := SnapshotOf(t);
      var id, nameParent;
      match key {
        case ById(i) =>
          if ParentId(s).None? {
            return Err("AttributeError");
          }
          id, nameParent := i, (s.name, ParentId(s).value);
        case ByName(name, parentId) =>
          id, nameParent := s.id, (name, parentId);
      }
      cache := cache[id := s];
      namecache := namecache[nameParent := s];
      r := Ok(());
    }
  }

  /** A thing put in the cache by id comes back equal (`__eq__`) from both of its keys. */
  method CacheRoundTrip(c: ThingCache, t: Thing) returns (byId: Thing, byName: Thing)
    requires c.Valid() && t.Valid() && t.slots["parent"].Ref?
    modifies c
    ensures Same(byId, t) && Same(byName, t)
  {
    var s := SnapshotOf(t);
    var ok := c.Set(ById(s.id), t);
    var r1 := c.Get(ById(s.id));
    var r2 := c.Get(ByName(s.name, Int(s.parent.id)));
    byId, byName := r1.value, r2.value;
  }
}
