/** The JSON document store of Infobase (infogami/infobase/_dbstore/store.py): documents under
    unique keys with an id drawn from one sequence, an index of (type, name, value) rows per
    document, optimistic conflict checks on the revision, and queries ordered by id, newest
    first. The `store` and `store_index` tables are maps and sets; JSON encoding is the
    identity. */
module JsonStore {
  import opened Wrappers
  import opened Json
  import opened Strings
  import InfobaseUtils

  type Doc = seq<(string, Value)>
  type Indexer = Doc -> seq<(string, Value)>

  /** A row of the `store` table. */
  datatype StoreRow = StoreRow(key: string, json: Doc)

  /** A row of the `store_index` table. */
  datatype IndexRow = IndexRow(storeId: int, typ: Value, name: string, value: Value)

  /** What the listener is told: "store.put" with the document, "store.delete" without. */
  datatype Event = Event(name: string, key: string, data: Option<Doc>)

  datatype Error = Conflict(key: string, message: string)

  /** One query result: the key, and the document when `include_docs` is set. */
  datatype Hit = Hit(key: string, doc: Option<Doc>)

  const ConflictMessage := "Document update conflict"

  /** `doc.get("_delete") == True`: 1 and 1.0 compare equal to True as well. */
  predicate IsTrue(v: Option<Value>) {
    v == Some(Bool(true)) || v == Some(Int(1)) || v == Some(Float(1.0))
  }

  /** `str(row.id) == str(rev)`: only the id's digits, as text or as an int, match. */
  predicate RevMatches(id: int, rev: Value) {
    (IsText(rev) && TextOf(rev) == IntToString(id)) || rev == Int(id)
  }

  /** The default indexer, `StoreIndexer.index`: every flattened property. */
  function StoreIndex(doc: Doc): seq<(string, Value)> {
    InfobaseUtils.FlatItems("", Dict(doc))
  }

  /** `data.get("type", "")`. */
  function DocType(doc: Doc): Value {
    Get(doc, "type").GetOr(Str(""))
  }

  /** `str(value).lower()` for a boolean; other values are indexed as they are. */
  function Lowered(v: Value): (r: Value)
    ensures v.Bool? ==> r == Str(if v.b then "true" else "false")
    ensures !v.Bool? ==> r == v
  {
    if v.Bool? then Str(if v.b then "true" else "false") else v
  }

  /** A pair the index keeps: names starting with '_' and the name 'type' are skipped. */
  predicate Kept(p: (string, Value)) {
    !StartsWith(p.0, "_") && p.0 != "type"
  }

  /** The rows `add_index(id, key, doc)` inserts: ('_key', key) under the document's type,
      and each kept pair of the indexer's output. */
  function IndexRows(id: int, key: string, doc: Doc, pairs: seq<(string, Value)>): (rows: set<IndexRow>)
    ensures IndexRow(id, DocType(doc), "_key", Str(key)) in rows
    ensures forall r :: r in rows ==> r.storeId == id && r.typ == DocType(doc)
    ensures forall r :: r in rows ==> (r == IndexRow(id, DocType(doc), "_key", Str(key)) ||
      exists p :: p in pairs && Kept(p) && r == IndexRow(id, DocType(doc), p.0, Lowered(p.1)))
  {
    {IndexRow(id, DocType(doc), "_key", Str(key))} +
      set p | p in pairs && Kept(p) :: IndexRow(id, DocType(doc), p.0, Lowered(p.1))
  }

  /** `add_index` with its loop over the indexer's pairs. */
  method AddIndex(id: int, key: string, doc: Doc, pairs: seq<(string, Value)>) returns (d: set<IndexRow>)
    ensures d == IndexRows(id, key, doc, pairs)
  {
    var t := DocType(doc);
    d := {IndexRow(id, t, "_key", Str(key))};
    var i := 0;
    while i < |pairs|
      invariant 0 <= i <= |pairs|
      invariant d == IndexRows(id, key, doc, pairs[..i])
    {
      IndexRowsStep(id, key, doc, pairs[..i], pairs[i]);
      assert pairs[..i + 1] == pairs[..i] + [pairs[i]];
      var (name, value) := pairs[i];
      if !StartsWith(name, "_") && name != "type" {
        d := d + {IndexRow(id, t, name, Lowered(value))};
      }
      i := i + 1;
    }
    assert pairs[..i] == pairs;
  }

  lemma IndexRowsStep(id: int, key: string, doc: Doc, pairs: seq<(string, Value)>, p: (string, Value))
    ensures IndexRows(id, key, doc, pairs + [p]) ==
      IndexRows(id, key, doc, pairs) + (if Kept(p) then {IndexRow(id, DocType(doc), p.0, Lowered(p.1))} else {})
  {
  }

  /** The whole index of a store whose rows were all indexed with `indexer`. */
  function AllRows(rows: map<int, StoreRow>, indexer: Indexer): (index: set<IndexRow>)
    ensures forall r :: r in index ==> r.storeId in rows
  {
    set i, r | i in rows && r in IndexRows(i, rows[i].key, rows[i].json, indexer(rows[i].json)) :: r
  }

  lemma AllRowsRemove(rows: map<int, StoreRow>, indexer: Indexer, id: int)
    ensures AllRows(rows - {id}, indexer) == Without(AllRows(rows, indexer), id)
  {
    var a := AllRows(rows - {id}, indexer);
    var b := Without(AllRows(rows, indexer), id);
    forall r | r in a ensures r in b {
      var i :| i in rows - {id} && r in IndexRows(i, rows[i].key, rows[i].json, indexer(rows[i].json));
    }
    forall r | r in b ensures r in a {
      var i :| i in rows && r in IndexRows(i, rows[i].key, rows[i].json, indexer(rows[i].json));
      assert (rows - {id})[i] == rows[i];
    }
  }

  lemma AllRowsAdd(rows: map<int, StoreRow>, indexer: Indexer, id: int, row: StoreRow)
    requires id !in rows
    ensures AllRows(rows[id := row], indexer) == AllRows(rows, indexer) + IndexRows(id, row.key, row.json, indexer(row.json))
  {
    var a := AllRows(rows[id := row], indexer);
    var b := AllRows(rows, indexer) + IndexRows(id, row.key, row.json, indexer(row.json));
    forall r | r in a ensures r in b {
      var i :| i in rows[id := row] && r in IndexRows(i, rows[id := row][i].key, rows[id := row][i].json, indexer(rows[id := row][i].json));
      if i != id {
        assert rows[id := row][i] == rows[i];
      }
    }
    forall r | r in b ensures r in a {
      if r in AllRows(rows, indexer) {
        var i :| i in rows && r in IndexRows(i, rows[i].key, rows[i].json, indexer(rows[i].json));
        assert rows[id := row][i] == rows[i];
      } else {
        assert rows[id := row][id] == row;
      }
    }
  }

  /** `delete_index(id)`: the index rows of every other document. */
  function Without(index: set<IndexRow>, id: int): (r: set<IndexRow>)
    ensures forall x :: x in r <==> x in index && x.storeId != id
  {
    set x | x in index && x.storeId != id
  }

  /** The document without `_key` and `_rev`, as it is stored. */
  function Stripped(doc: Doc): (r: Doc)
    ensures !HasKey(r, "_key") && !HasKey(r, "_rev")
  {
    var r := Remove(Remove(doc, "_key"), "_rev");
    GetRemove(Remove(doc, "_key"), "_rev", "_key");
    GetRemove(doc, "_key", "_key");
    r
  }

  /** `_get_doc`: the stored document with `_key` and `_rev` (the id as text) added. */
  function WithMeta(doc: Doc, key: string, id: int): (r: Doc)
    ensures Get(r, "_key") == Some(Str(key)) && Get(r, "_rev") == Some(Str(IntToString(id)))
  {
    var r := Put(Put(doc, "_key", Str(key)), "_rev", Str(IntToString(id)));
    GetPut(Put(doc, "_key", Str(key)), "_rev", Str(IntToString(id)), "_key");
    GetPut(doc, "_key", Str(key), "_key");
    GetPut(Put(doc, "_key", Str(key)), "_rev", Str(IntToString(id)), "_rev");
    r
  }

  /** Reading a stored document back gives its properties, apart from `_key` and `_rev`. */
  lemma WithMetaGet(doc: Doc, key: string, id: int, name: string)
    requires name != "_key" && name != "_rev"
    ensures Get(WithMeta(Stripped(doc), key, id), name) == Get(doc, name)
  {
    var s := Stripped(doc);
    GetPut(Put(s, "_key", Str(key)), "_rev", Str(IntToString(id)), name);
    GetPut(s, "_key", Str(key), name);
    GetRemove(Remove(doc, "_key"), "_rev", name);
    GetRemove(doc, "_key", name);
  }

  /** The members of `sel` in [lo, n), largest first: SQL's `order by id desc`. */
  function Desc(sel: set<int>, lo: int, n: int): (r: seq<int>)
    ensures forall x :: x in r <==> x in sel && lo <= x < n
    ensures forall i :: 0 <= i < |r| ==> r[i] in sel && lo <= r[i] < n
    ensures forall i, j :: 0 <= i < j < |r| ==> r[i] > r[j]
    decreases n - lo
  {
    if n <= lo then []
    else
      var rest := Desc(sel, lo, n - 1);
      (if n - 1 in sel then [n - 1] else []) + rest
  }

  /** SQL `LIMIT limit OFFSET offset`. */
  function Page<T>(s: seq<T>, limit: nat, offset: nat): (r: seq<T>)
    ensures |r| <= limit
    ensures offset <= |s| ==> |r| == if |s| - offset < limit then |s| - offset else limit
    ensures offset >= |s| ==> r == []
    ensures forall i :: 0 <= i < |r| ==> r[i] == s[offset + i]
  {
    if offset >= |s| then []
    else if |s| - offset <= limit then s[offset..]
    else s[offset..offset + limit]
  }

  /** Keys and ids correspond one to one, every id was drawn from the sequence (which starts
      at 1), and the index holds exactly the rows of the stored documents. */
  ghost predicate Consistent(ids: map<string, int>, rows: map<int, StoreRow>, index: set<IndexRow>, nextId: int, indexer: Indexer) {
    1 <= nextId &&
    (forall k :: k in ids ==> ids[k] in rows && rows[ids[k]].key == k) &&
    (forall i :: i in rows ==> rows[i].key in ids && ids[rows[i].key] == i && 1 <= i < nextId) &&
    index == AllRows(rows, indexer)
  }

  /** `get(key)` on the tables: the stored document with `_key` and `_rev`, or None. */
  function Read(ids: map<string, int>, rows: map<int, StoreRow>, key: string): (r: Option<Doc>)
    ensures r.Some? <==> key in ids && ids[key] in rows
    ensures r.Some? ==> Get(r.value, "_key") == Some(Str(key)) && Get(r.value, "_rev") == Some(Str(IntToString(ids[key])))
  {
    if key in ids && ids[key] in rows then Some(WithMeta(rows[ids[key]].json, key, ids[key])) else None
  }

  /** Storing a document under a fresh id, after dropping the key's old row and its index rows,
      keeps the tables consistent, makes `get` return the document, and changes no other key. */
  lemma ReplaceKeeps(ids: map<string, int>, rows: map<int, StoreRow>, index: set<IndexRow>, nextId: int, indexer: Indexer,
                     key: string, doc: Doc, rows0: map<int, StoreRow>, index0: set<IndexRow>)
    requires Consistent(ids, rows, index, nextId, indexer)
    requires rows0 == rows - (if key in ids then {ids[key]} else {})
    requires index0 == if key in ids then Without(index, ids[key]) else index
    ensures Consistent(ids[key := nextId], rows0[nextId := StoreRow(key, doc)], index0 + IndexRows(nextId, key, doc, indexer(doc)), nextId + 1, indexer)
    ensures Read(ids[key := nextId], rows0[nextId := StoreRow(key, doc)], key) == Some(WithMeta(doc, key, nextId))
    ensures forall k :: k != key ==> Read(ids[key := nextId], rows0[nextId := StoreRow(key, doc)], k) == Read(ids, rows, k)
  {
    var rows1 := rows0[nextId := StoreRow(key, doc)];
    var ids1 := ids[key := nextId];
    if key in ids {
      AllRowsRemove(rows, indexer, ids[key]);
    } else {
      assert rows0 == rows;
    }
    assert index0 == AllRows(rows0, indexer);
    AllRowsAdd(rows0, indexer, nextId, StoreRow(key, doc));
    forall k | k in ids1 ensures ids1[k] in rows1 && rows1[ids1[k]].key == k {
      if k != key {
        assert ids[k] != nextId;
      }
    }
    forall i | i in rows1 ensures rows1[i].key in ids1 && ids1[rows1[i].key] == i && 1 <= i < nextId + 1 {
      if i != nextId {
        assert i in rows && rows1[i] == rows[i];
        assert rows[i].key != key;
      }
    }
    forall k | k != key ensures Read(ids1, rows1, k) == Read(ids, rows, k) {
      if k in ids {
        assert ids1[k] == ids[k] && ids[k] != nextId;
        assert key in ids ==> ids[k] != ids[key];
      }
    }
  }

  /** Dropping a key's row and its index rows keeps the tables consistent and changes no
      other key. */
  lemma DropKeeps(ids: map<string, int>, rows: map<int, StoreRow>, index: set<IndexRow>, nextId: int, indexer: Indexer, key: string)
    requires Consistent(ids, rows, index, nextId, indexer) && key in ids
    ensures Consistent(ids - {key}, rows - {ids[key]}, Without(index, ids[key]), nextId, indexer)
    ensures forall k :: k != key ==> Read(ids - {key}, rows - {ids[key]}, k) == Read(ids, rows, k)
  {
    AllRowsRemove(rows, indexer, ids[key]);
  }

  /** The ids a query selects from the index: every stored document without a type; with a
      type and no name, the documents of that type (through their '_key' row); otherwise those
      with an index row (name, value) under that type. */
  ghost function Selected(rows: map<int, StoreRow>, index: set<IndexRow>, typ: Option<Value>, name: Option<string>, value: Value): set<int> {
    if typ.None? then rows.Keys
    else
      set r | r in index && r.typ == typ.value &&
        (if name.None? then r.name == "_key" else r.name == name.value && r.value == value) :: r.storeId
  }

  class Store {
    /** The id of each stored key. */
    var ids: map<string, int>
    /** The `store` table by id. */
    var rows: map<int, StoreRow>
    /** The `store_index` table. */
    var index: set<IndexRow>
    /** The next value of `store_id_seq`. */
    var nextId: int
    /** What the listener has been told, in order. */
    var events: seq<Event>
    const indexer: Indexer

    ghost predicate Valid()
      reads this
    {
      Consistent(ids, rows, index, nextId, indexer)
    }

    constructor (indexer: Indexer)
      ensures Valid()
      ensures this.indexer == indexer && ids == map[] && rows == map[] && index == {} && events == []
    {
      this.indexer := indexer;
      ids := map[];
      rows := map[];
      index := {};
      nextId := 1;
      events := [];
    }

    /** `get(key)`. */
    function Lookup(key: string): (r: Option<Doc>)
      reads this
      requires Valid()
      ensures r.None? <==> key !in ids
      ensures r == Read(ids, rows, key)
    {
      Read(ids, rows, key)
    }

    /** `delete(key, rev)`: a conflict when a revision is given and is not the stored id;
        otherwise the document and its index rows go, if there were any. */
    method Delete(key: string, rev: Value) returns (r: Result<(), Error>)
      requires Valid()
      modifies this
      ensures Valid()
      ensures r.Err? <==> key in old(ids) && rev != Null && !RevMatches(old(ids)[key], rev)
      ensures r.Err? ==> (r.error == Conflict(key, ConflictMessage) &&
        ids == old(ids) && rows == old(rows) && index == old(index) && events == old(events))
      ensures r.Ok? ==> (ids == old(ids) - {key} && rows == old(rows) - (if key in old(ids) then {old(ids)[key]} else {}) &&
        events == old(events) + [Event("store.delete", key, None)])
      ensures nextId == old(nextId)
      ensures r.Ok? ==> Read(ids, rows, key).None? && forall k :: k != key ==> Read(ids, rows, k) == Read(old(ids), old(rows), k)
    {
      if key in ids {
        var id := ids[key];
        if rev != Null && !RevMatches(id, rev) {
          return Err(Conflict(key, ConflictMessage));
        }
        DropKeeps(ids, rows, index, nextId, indexer, key);
        index := Without(index, id);
        rows := rows - {id};
        ids := ids - {key};
      }
      events := events + [Event("store.delete", key, None)];
      r := Ok(());
    }

    /** `put(key, doc)`: a document with a true `_delete` is a delete with its `_rev`; any
        other is saved. */
    method Put(key: string, doc: Doc) returns (r: Result<Option<Doc>, Error>)
      requires Valid()
      modifies this
      ensures Valid()
      ensures IsTrue(Get(doc, "_delete")) ==>
        (r.Err? <==> key in old(ids) && Get(doc, "_rev").GetOr(Null) != Null && !RevMatches(old(ids)[key], Get(doc, "_rev").GetOr(Null))) &&
        (r.Ok? ==> r == Ok(None) && ids == old(ids) - {key} && Read(ids, rows, key).None?)
      ensures !IsTrue(Get(doc, "_delete")) ==>
        (r.Err? <==> key in old(ids) && Get(doc, "_rev") != Some(Null) && !RevMatches(old(ids)[key], Get(doc, "_rev").GetOr(Null))) &&
        (r.Ok? ==> r == Ok(Some(WithMeta(Stripped(doc), key, old(nextId)))) && ids == old(ids)[key := old(nextId)])
      ensures r.Err? ==> (r.error == Conflict(key, ConflictMessage) &&
        ids == old(ids) && rows == old(rows) && index == old(index) && events == old(events) && nextId == old(nextId))
      ensures r.Ok? && r.value.Some? ==> Read(ids, rows, key) == r.value
      ensures r.Ok? ==> forall k :: k != key ==> Read(ids, rows, k) == Read(old(ids), old(rows), k)
    {
      if IsTrue(Get(doc, "_delete")) {
        var d := Delete(key, Get(doc, "_rev").GetOr(Null));
        if d.Err? {
          return Err(d.error);
        }
        return Ok(None);
      }
      var saved := Save(key, doc);
      if saved.Err? {
        return Err(saved.error);
      }
      return Ok(Some(saved.value));
    }

    /** The saving half of `put`: an existing key needs `_rev` equal to its id unless `_rev` is
        None; the document is stored without `_key` and `_rev` under a fresh id, its old row and
        index rows replaced, and it is returned with them. */
    method Save(key: string, doc: Doc) returns (r: Result<Doc, Error>)
      requires Valid()
      modifies this
      ensures Valid()
      ensures r.Err? <==> key in old(ids) && Get(doc, "_rev") != Some(Null) && !RevMatches(old(ids)[key], Get(doc, "_rev").GetOr(Null))
      ensures r.Err? ==> (r.error == Conflict(key, ConflictMessage) &&
        ids == old(ids) && rows == old(rows) && index == old(index) && events == old(events) && nextId == old(nextId))
      ensures r.Ok? ==> r.value == WithMeta(Stripped(doc), key, old(nextId))
      ensures r.Ok? ==> ids == old(ids)[key := old(nextId)]
      ensures r.Ok? ==> rows == (old(rows) - (if key in old(ids) then {old(ids)[key]} else {}))[old(nextId) := StoreRow(key, Stripped(doc))]
      ensures r.Ok? ==> nextId == old(nextId) + 1
      ensures r.Ok? ==> events == old(events) + [Event("store.put", key, Some(r.value))]
      ensures r.Ok? ==> Read(ids, rows, key) == Some(r.value)
      ensures r.Ok? ==> forall k :: k != key ==> Read(ids, rows, k) == Read(old(ids), old(rows), k)
    {
      var check := Get(doc, "_rev") != Some(Null);
      var rev := Get(doc, "_rev").GetOr(Null);
      var stored := Stripped(doc);
      var index0 := index;
      if key in ids {
        var oldId := ids[key];
        if check && !RevMatches(oldId, rev) {
          return Err(Conflict(key, ConflictMessage));
        }
        index0 := Without(index, oldId);
      }
      var rows0 := rows - (if key in ids then {ids[key]} else {});
      ReplaceKeeps(ids, rows, index, nextId, indexer, key, stored, rows0, index0);
      var id := nextId;
      var added := AddIndex(id, key, stored, indexer(stored));
      var result := WithMeta(stored, key, id);
      ids, rows, index, nextId := ids[key := id], rows0[id := StoreRow(key, stored)], index0 + added, id + 1;
      events := events + [Event("store.put", key, Some(result))];
      r := Ok(result);
    }

    /** The selected ids, newest first. */
    ghost function Order(typ: Option<Value>, name: Option<string>, value: Value): (order: seq<int>)
      reads this
      requires Valid()
      ensures forall i :: 0 <= i < |order| ==> order[i] in rows && order[i] in Selected(rows, index, typ, name, value)
      ensures forall i :: i in Selected(rows, index, typ, name, value) ==> i in order
      ensures forall i, j :: 0 <= i < j < |order| ==> order[i] > order[j]
    {
      Desc(Selected(rows, index, typ, name, value) * rows.Keys, 1, nextId)
    }

    /** `query(type, name, value, limit, offset, include_docs)`: one page of the selected
        documents, newest id first. */
    ghost function Query(typ: Option<Value>, name: Option<string>, value: Value, limit: nat, offset: nat, includeDocs: bool)
      : (hits: seq<Hit>)
      reads this
      requires Valid()
      ensures |hits| <= limit
      ensures |hits| == |Page(Order(typ, name, value), limit, offset)|
      ensures forall i :: 0 <= i < |hits| ==> hits[i].key == rows[Page(Order(typ, name, value), limit, offset)[i]].key
      ensures forall i :: 0 <= i < |hits| ==> hits[i].doc == if includeDocs then Read(ids, rows, hits[i].key) else None
    {
      var page := Page(Order(typ, name, value), limit, offset);
      var stored := rows;
      seq(|page|, i requires 0 <= i < |page| =>
        Hit(stored[page[i]].key, if includeDocs then Some(WithMeta(stored[page[i]].json, stored[page[i]].key, page[i])) else None))
    }
  }

  /** Query hits are stored keys, selected, and strictly newest first. */
  lemma QueryOrdered(s: Store, typ: Option<Value>, name: Option<string>, value: Value, limit: nat, offset: nat, includeDocs: bool)
    requires s.Valid()
    ensures var hits := s.Query(typ, name, value, limit, offset, includeDocs);
      (forall i :: 0 <= i < |hits| ==> hits[i].key in s.ids && s.ids[hits[i].key] in Selected(s.rows, s.index, typ, name, value)) &&
      (forall i, j :: 0 <= i < j < |hits| ==> s.ids[hits[i].key] > s.ids[hits[j].key])
  {
    var order := s.Order(typ, name, value);
    var page := Page(order, limit, offset);
    var hits := s.Query(typ, name, value, limit, offset, includeDocs);
    forall i | 0 <= i < |hits| ensures hits[i].key in s.ids && s.ids[hits[i].key] == page[i] {
      assert page[i] == order[offset + i];
    }
    forall i, j | 0 <= i < j < |hits| ensures page[i] > page[j] {
      assert page[i] == order[offset + i] && page[j] == order[offset + j];
    }
  }

  /** Every document of a type is found by a query on that type: its '_key' row is always
      indexed. */
  lemma QueryFindsType(s: Store, key: string)
    requires s.Valid() && key in s.ids
    ensures s.ids[key] in Selected(s.rows, s.index, Some(DocType(s.rows[s.ids[key]].json)), None, Null)
  {
    var id := s.ids[key];
    var row := s.rows[id];
    var r := IndexRow(id, DocType(row.json), "_key", Str(key));
    assert r in IndexRows(id, row.key, row.json, s.indexer(row.json));
    assert r in s.index;
  }

  /** A (name, value) query under a type finds exactly the documents of that type whose
      indexer output has a kept pair with that name and (lower-cased) value. */
  lemma QueryByValue(s: Store, key: string, t: Value, name: string, value: Value)
    requires s.Valid() && key in s.ids && name != "_key"
    ensures s.ids[key] in Selected(s.rows, s.index, Some(t), Some(name), value) <==>
      DocType(s.rows[s.ids[key]].json) == t &&
      exists p :: p in s.indexer(s.rows[s.ids[key]].json) && Kept(p) && p.0 == name && Lowered(p.1) == value
  {
    var id := s.ids[key];
    SelectedByValue(s.rows, s.index, s.indexer, id, t, name, value);
  }

  /** The (name, value) selection on the tables themselves. */
  lemma SelectedByValue(rows: map<int, StoreRow>, index: set<IndexRow>, indexer: Indexer, id: int, t: Value, name: string, value: Value)
    requires index == AllRows(rows, indexer) && id in rows && name != "_key"
    ensures id in Selected(rows, index, Some(t), Some(name), value) <==>
      DocType(rows[id].json) == t &&
      exists p :: p in indexer(rows[id].json) && Kept(p) && p.0 == name && Lowered(p.1) == value
  {
    if id in Selected(rows, index, Some(t), Some(name), value) {
      SelectedHasPair(rows, index, indexer, id, t, name, value);
    }
    if DocType(rows[id].json) == t && exists p :: p in indexer(rows[id].json) && Kept(p) && p.0 == name && Lowered(p.1) == value {
      var p :| p in indexer(rows[id].json) && Kept(p) && p.0 == name && Lowered(p.1) == value;
      PairIsSelected(rows, index, indexer, id, p);
    }
  }

  /** A selected document has its type and a kept pair with that name and value. */
  lemma SelectedHasPair(rows: map<int, StoreRow>, index: set<IndexRow>, indexer: Indexer, id: int, t: Value, name: string, value: Value)
    requires index == AllRows(rows, indexer) && id in rows && name != "_key"
    requires id in Selected(rows, index, Some(t), Some(name), value)
    ensures DocType(rows[id].json) == t
    ensures exists p :: p in indexer(rows[id].json) && Kept(p) && p.0 == name && Lowered(p.1) == value
  {
    var row := rows[id];
    var r :| r in index && r.typ == t && r.name == name && r.value == value && r.storeId == id;
    var i :| i in rows && r in IndexRows(i, rows[i].key, rows[i].json, indexer(rows[i].json));
    assert r in IndexRows(id, row.key, row.json, indexer(row.json));
  }

  /** A kept pair of a document's indexer output selects it under its type. */
  lemma PairIsSelected(rows: map<int, StoreRow>, index: set<IndexRow>, indexer: Indexer, id: int, p: (string, Value))
    requires index == AllRows(rows, indexer) && id in rows && p in indexer(rows[id].json) && Kept(p)
    ensures id in Selected(rows, index, Some(DocType(rows[id].json)), Some(p.0), Lowered(p.1))
  {
    var row := rows[id];
    var r := IndexRow(id, DocType(row.json), p.0, Lowered(p.1));
    assert r in IndexRows(id, row.key, row.json, indexer(row.json));
    assert r in index;
  }



  /** The document written last has the largest id, so it comes first in any query that
      selects it: an update moves a document to the front. */
  lemma QueryNewestFirst(s: Store, typ: Option<Value>, name: Option<string>, value: Value, limit: nat, includeDocs: bool)
    requires s.Valid() && s.nextId - 1 in s.rows && s.nextId - 1 in Selected(s.rows, s.index, typ, name, value) && limit >= 1
    ensures |s.Query(typ, name, value, limit, 0, includeDocs)| >= 1
    ensures s.Query(typ, name, value, limit, 0, includeDocs)[0].key == s.rows[s.nextId - 1].key
  {
    var order := s.Order(typ, name, value);
    assert order[0] == s.nextId - 1;
  }

  /** `TypewiseIndexer`: an indexer per document type, the default one for the others. */
  class TypewiseIndexer {
    var indexers: map<Value, Indexer>

    constructor ()
      ensures indexers == map[]
    {
      indexers := map[];
    }

    /** `set_indexer(type, indexer)`. */
    method SetIndexer(typ: Value, indexer: Indexer)
      modifies this
      ensures indexers == old(indexers)[typ := indexer]
      ensures forall doc :: DocType(doc) == typ ==> Index(doc) == indexer(doc)
      ensures forall doc :: DocType(doc) != typ ==> Index(doc) == old(Index(doc))
    {
      indexers := indexers[typ := indexer];
    }

    /** `get_indexer(type)`. */
    function GetIndexer(typ: Value): (f: Indexer)
      reads this
      ensures typ in indexers ==> f == indexers[typ]
      ensures typ !in indexers ==> f == StoreIndex
    {
      if typ in indexers then indexers[typ] else StoreIndex
    }

    /** `index(doc)`: the indexer of the document's type. */
    function Index(doc: Doc): (pairs: seq<(string, Value)>)
      reads this
      ensures DocType(doc) !in indexers ==> pairs == StoreIndex(doc)
      ensures DocType(doc) in indexers ==> pairs == indexers[DocType(doc)](doc)
    {
      GetIndexer(DocType(doc))(doc)
    }
  }
}
