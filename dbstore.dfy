/** The older database store of Infobase (infogami/infobase/dbstore.py): drawing new keys from
    a type's sequence, and the index rows `_update_tables` deletes and inserts when an object is
    saved. Its `Schema` class is the one of `TableSchema`, built with `OldIndexedDatatypes`.
    The tables are sets of rows; the schema's `find_table`, the id of a referenced key and the
    values the sequence hands out are parameters. */
module DbStore {
  import opened Wrappers
  import opened Json
  import opened Strings
  import InfobaseUtils
  import ReadQuery
  import TableSchema

  // ---------------------------------------------------------------------------------------
  // new keys

  /** `pattern % value` for a pattern with one `%d` and no other `%`; any other pattern is
      Python's TypeError or ValueError. */
  function FormatKey(pattern: string, value: int): (r: Option<string>)
    ensures r.Some? <==> exists i :: (0 <= i < |pattern| - 1 && pattern[i] == '%' && pattern[i + 1] == 'd' &&
      '%' !in pattern[..i] && '%' !in pattern[i + 2..])
    ensures r.Some? ==> exists i :: (0 <= i < |pattern| - 1 && '%' !in pattern[..i] && '%' !in pattern[i + 2..] &&
      r.value == pattern[..i] + IntToString(value) + pattern[i + 2..])
  {
    match IndexOf(pattern, '%')
    case None => None
    case Some(i) =>
      if i + 1 < |pattern| && pattern[i + 1] == 'd' && '%' !in pattern[i + 2..] then
        Some(pattern[..i] + IntToString(value) + pattern[i + 2..])
      else
        assert forall j :: 0 <= j < |pattern| - 1 && pattern[j] == '%' && '%' !in pattern[..j] ==> j == i by {
          forall j | 0 <= j < |pattern| - 1 && pattern[j] == '%' && '%' !in pattern[..j] ensures j == i {
            FirstOf(pattern, '%', i, j);
          }
        }
        None
  }

  /** Two first occurrences of a character are the same position. */
  lemma FirstOf(s: string, c: char, i: nat, j: nat)
    requires i < |s| && j < |s| && s[i] == c && s[j] == c && c !in s[..i] && c !in s[..j]
    ensures i == j
  {
    assert forall k :: 0 <= k < i ==> s[..i][k] == s[k];
    assert forall k :: 0 <= k < j ==> s[..j][k] == s[k];
  }

  /** Different sequence values give different keys. */
  lemma FormatKeyInjective(pattern: string, a: int, b: int)
    requires FormatKey(pattern, a).Some? && FormatKey(pattern, a) == FormatKey(pattern, b)
    ensures a == b
  {
    var i := IndexOf(pattern, '%').value;
    var sa, sb := IntToString(a), IntToString(b);
    var k := pattern[..i] + sa + pattern[i + 2..];
    assert k == pattern[..i] + sb + pattern[i + 2..];
    assert sa == k[i..|k| - |pattern[i + 2..]|];
    assert sb == k[i..|k| - |pattern[i + 2..]|];
    ParseIntToString(a);
    ParseIntToString(b);
  }

  /** What the key loop ends with: a key, a pattern `%` cannot fill, or no free key among the
      values drawn so far (the loop would go on drawing). */
  datatype KeyOutcome = Fresh(key: string) | BadPattern | StillDrawing

  /** The first of the drawn values whose key names no existing object. */
  function FirstFree(pattern: string, draws: seq<int>, exists_: string -> bool): (r: KeyOutcome)
    ensures r.Fresh? ==> (!exists_(r.key) &&
      exists i :: (0 <= i < |draws| && Some(r.key) == FormatKey(pattern, draws[i]) &&
        forall j :: 0 <= j < i ==> FormatKey(pattern, draws[j]).Some? && exists_(FormatKey(pattern, draws[j]).value)))
    ensures r.StillDrawing? ==> forall j :: 0 <= j < |draws| ==> FormatKey(pattern, draws[j]).Some? && exists_(FormatKey(pattern, draws[j]).value)
    ensures r.BadPattern? ==> draws != [] && FormatKey(pattern, draws[0]).None?
  {
    if draws == [] then StillDrawing
    else
      match FormatKey(pattern, draws[0])
      case None => BadPattern
      case Some(key) =>
        if !exists_(key) then Fresh(key)
        else
          var r := FirstFree(pattern, draws[1..], exists_);
          assert forall j :: 1 <= j < |draws| ==> draws[j] == draws[1..][j - 1];
          r
  }

  /** `new_key(type, kw)`: for a type with a sequence, draw values until the key is free;
      otherwise the store's default key. */
  method NewKey(schema: TableSchema.Schema, typ: string, draws: seq<int>, exists_: string -> bool, defaultKey: string)
    returns (r: KeyOutcome)
    ensures schema.GetSeq(typ).None? ==> r == Fresh(defaultKey)
    ensures schema.GetSeq(typ).Some? ==> r == FirstFree(schema.GetSeq(typ).value.pattern, draws, exists_)
  {
    var s := schema.GetSeq(typ);
    if s.None? {
      return Fresh(defaultKey);
    }
    var pattern := s.value.pattern;
    var i := 0;
    r := StillDrawing;
    while i < |draws| && r.StillDrawing?
      invariant 0 <= i <= |draws|
      invariant r.StillDrawing? ==> FirstFree(pattern, draws, exists_) == FirstFree(pattern, draws[i..], exists_)
      invariant !r.StillDrawing? ==> r == FirstFree(pattern, draws, exists_)
    {
      assert draws[i..][1..] == draws[i + 1..];
      var key := FormatKey(pattern, draws[i]);
      if key.None? {
        r := BadPattern;
      } else if !exists_(key.value) {
        r := Fresh(key.value);
      }
      i := i + 1;
    }
  }

  // ---------------------------------------------------------------------------------------
  // index rows

  /** `find_datatype` as written: the float and int tests look at the literal string 'value',
      so they never succeed. */
  function FindDatatypeAsWritten(value: Value): (r: string)
    ensures value.Int? || value.Float? ==> r == "str"
  {
    if value.Text? then "text"
    else if value.Ref? then "ref"
    else if value.Bool? then "boolean"
    else "str"
  }

  /** `find_datatype` as evidently intended: the value itself is tested, so a `long` is not an
      `int` and is filed as 'str'. */
  function FindDatatype(value: Value): (r: string)
    ensures value.Int? ==> r == (if IsShortInt(value.i) then "int" else "str")
    ensures value.Float? ==> r == "float"
    ensures !(value.Int? && IsShortInt(value.i)) && !value.Float? ==> r == FindDatatypeAsWritten(value)
  {
    if value.Text? then "text"
    else if value.Ref? then "ref"
    else if value.Bool? then "boolean"
    else if value.Float? then "float"
    else if value.Int? && IsShortInt(value.i) then "int"
    else "str"
  }

  /** Numbers are filed as strings by the code as written. */
  lemma FindDatatypeNumbers(i: int, f: real)
    requires IsShortInt(i)
    ensures FindDatatypeAsWritten(Int(i)) == "str" != FindDatatype(Int(i))
    ensures FindDatatypeAsWritten(Float(f)) == "str" != FindDatatype(Float(f))
  {
  }

  /** For numbers, booleans and references the corrected datatype is the one the query side
      infers for an ordinary property, so saved rows and queries meet in the same table. */
  lemma FindDatatypeAgreesWithQueries(t: Option<ReadQuery.TypeInfo>, key: string, value: Value)
    requires key !in ReadQuery.SpecialDatatypes
    requires (value.Int? && IsShortInt(value.i)) || value.Float? || value.Bool? || value.Ref?
    ensures FindDatatype(value) == ReadQuery.FindDatatype(t, key, value)
  {
  }

  /** One row of a property table: thing id and key id are implied by the object and the name. */
  datatype Row = Row(table: string, name: string, value: Value, ordering: Option<int>)

  /** `schema.find_table(type, datatype, name)`. */
  type Finder = (Option<string>, string, string) -> Option<string>

  /** The value stored in a row: a reference becomes the id of the object it names, a boolean
      'f' or 't'. */
  function Stored(value: Value, idOf: string -> int): (r: Value)
    ensures !r.Bool? && !r.Ref?
    ensures value.Bool? ==> r == Str(if value.b then "t" else "f")
    ensures !value.Bool? && !value.Ref? ==> r == value
  {
    match value
    case Ref(k) => Int(idOf(k))
    case Bool(b) => Str(if b then "t" else "f")
    case _ => value
  }

  /** A name at or below `name`. */
  predicate Under(n: string, name: string) {
    n == name || StartsWith(n, name + ".")
  }

  lemma UnderDot(n: string, name: string, k: string)
    requires Under(n, name + "." + k)
    ensures Under(n, name)
  {
    var p := name + ".";
    assert (name + "." + k)[..|p|] == p;
    if n != name + "." + k {
      assert n[..|p|] == (name + "." + k + ".")[..|p|];
    }
  }

  /** `do_action(f, typekey, thing_id, name, value, ordering)`: the rows for a value; list
      elements get their index as ordering, dict entries are named `name.k` and keep the
      ordering, and an atom gets a row when its datatype has a table. */
  function Actions(find: Finder, idOf: string -> int, typ: Option<string>, name: string, value: Value, ordering: Option<int>): (rows: seq<Row>)
    ensures forall r :: r in rows ==> Under(r.name, name)
    ensures forall r :: r in rows ==> !r.value.List? && !r.value.Dict? && !r.value.Bool? && !r.value.Ref?
    ensures !value.List? && !value.Dict? ==> |rows| <= 1 && forall r :: r in rows ==>
      r.name == name && r.ordering == ordering && r.value == Stored(value, idOf) && Some(r.table) == find(typ, FindDatatype(value), name)
    decreases value, 2
  {
    match value
    case List(items) => ActionsList(find, idOf, typ, name, items, 0)
    case Dict(entries) => ActionsDict(find, idOf, typ, name, entries, ordering)
    case _ =>
      match find(typ, FindDatatype(value), name)
      case None => []
      case Some(table) => if table == [] then [] else [Row(table, name, Stored(value, idOf), ordering)]
  }

  function ActionsList(find: Finder, idOf: string -> int, typ: Option<string>, name: string, items: seq<Value>, start: nat): (rows: seq<Row>)
    ensures forall r :: r in rows ==> Under(r.name, name)
    ensures forall r :: r in rows ==> !r.value.List? && !r.value.Dict? && !r.value.Bool? && !r.value.Ref?
    decreases items, 1
  {
    if items == [] then []
    else
      assert items[0] in items;
      Actions(find, idOf, typ, name, items[0], Some(start)) + ActionsList(find, idOf, typ, name, items[1..], start + 1)
  }

  function ActionsDict(find: Finder, idOf: string -> int, typ: Option<string>, name: string, entries: seq<(string, Value)>, ordering: Option<int>): (rows: seq<Row>)
    ensures forall r :: r in rows ==> Under(r.name, name)
    ensures forall r :: r in rows ==> !r.value.List? && !r.value.Dict? && !r.value.Bool? && !r.value.Ref?
    decreases entries, 1
  {
    if entries == [] then []
    else
      var e := entries[0];
      assert e in entries && e.1 < e;
      var first := Actions(find, idOf, typ, name + "." + e.0, e.1, ordering);
      forall r | r in first ensures Under(r.name, name) {
        UnderDot(r.name, name, e.0);
      }
      first + ActionsDict(find, idOf, typ, name, entries[1..], ordering)
  }

  /** A list of atoms whose tables all exist gives one row per element, in order, each with its
      index as ordering. */
  lemma {:induction false} ActionsListOfAtoms(find: Finder, idOf: string -> int, typ: Option<string>, name: string, items: seq<Value>, start: nat)
    requires forall i :: 0 <= i < |items| ==> !items[i].List? && !items[i].Dict?
    requires forall i :: 0 <= i < |items| ==> find(typ, FindDatatype(items[i]), name).Some? && find(typ, FindDatatype(items[i]), name).value != []
    ensures var rows := ActionsList(find, idOf, typ, name, items, start);
      |rows| == |items| && forall i :: 0 <= i < |items| ==>
        rows[i] == Row(find(typ, FindDatatype(items[i]), name).value, name, Stored(items[i], idOf), Some(start + i))
    decreases items
  {
    if items != [] {
      ActionsListOfAtoms(find, idOf, typ, name, items[1..], start + 1);
      AtomRow(find, idOf, typ, name, items[0], Some(start));
      var rows := ActionsList(find, idOf, typ, name, items, start);
      var rest := ActionsList(find, idOf, typ, name, items[1..], start + 1);
      assert rows == [rows[0]] + rest;
      forall i | 1 <= i < |items|
        ensures rows[i] == Row(find(typ, FindDatatype(items[i]), name).value, name, Stored(items[i], idOf), Some(start + i))
      {
        assert items[i] == items[1..][i - 1] && rows[i] == rest[i - 1];
      }
    }
  }

  /** An atom whose table exists gives exactly one row. */
  lemma AtomRow(find: Finder, idOf: string -> int, typ: Option<string>, name: string, v: Value, ordering: Option<int>)
    requires !v.List? && !v.Dict?
    requires find(typ, FindDatatype(v), name).Some? && find(typ, FindDatatype(v), name).value != []
    ensures Actions(find, idOf, typ, name, v, ordering) == [Row(find(typ, FindDatatype(v), name).value, name, Stored(v, idOf), ordering)]
  {
  }

  /** A row name up to its first '.'. */
  function Head(n: string): string {
    match IndexOf(n, '.')
    case None => n
    case Some(i) => n[..i]
  }

  /** A name below a top-level name without '.' starts with exactly that name. */
  lemma HeadUnder(n: string, a: string)
    ensures Under(n, a) && '.' !in a ==> Head(n) == a
  {
    if Under(n, a) && '.' !in a && n != a {
      assert n[..|a|] == a && n[|a|] == '.';
      assert '.' in n;
      FirstOf(n, '.', IndexOf(n, '.').value, |a|);
    }
  }

  /** Top-level names without '.' have disjoint rows. */
  lemma UnderDistinct(n: string, a: string, b: string)
    requires '.' !in a && '.' !in b && a != b
    ensures !(Under(n, a) && Under(n, b))
  {
    HeadUnder(n, a);
    HeadUnder(n, b);
  }

  // ---------------------------------------------------------------------------------------
  // _update_tables

  datatype Error = KeyError

  /** The properties `_update_tables` pops before comparing. */
  const Popped: set<string> := {"id", "key", "type", "last_modified", "created", "revision"}

  function Strip(d: map<string, Value>): (r: map<string, Value>)
    ensures r.Keys == d.Keys - Popped && forall k :: k in r ==> r[k] == d[k]
  {
    d - Popped
  }

  /** `olddata and olddata['type']`: an empty old dict is its own (falsy) type. */
  function OldType(olddata: map<string, Value>): (r: Result<Value, Error>)
    ensures r.Err? <==> olddata != map[] && "type" !in olddata
  {
    if olddata == map[] then Ok(Dict([]))
    else if "type" in olddata then Ok(olddata["type"])
    else Err(KeyError)
  }

  function NewType(newdata: map<string, Value>): (r: Result<Value, Error>)
    ensures r.Err? <==> "type" !in newdata
  {
    if "type" in newdata then Ok(newdata["type"]) else Err(KeyError)
  }

  /** Python equality of two type values: a reference equals the string with its text. */
  predicate SameValue(a: Value, b: Value) {
    if IsText(a) && IsText(b) then TextOf(a) == TextOf(b) else a == b
  }

  /** The type key `find_table` compares with the entries' types: only a string can equal
      one, so anything else matches only wildcard entries, like None. */
  function TypeKey(t: Value): (r: Option<string>)
    ensures r.Some? <==> IsText(t)
  {
    if IsText(t) then Some(TextOf(t)) else None
  }

  lemma SameValueTypeKey(a: Value, b: Value)
    requires SameValue(a, b)
    ensures TypeKey(a) == TypeKey(b)
  {
  }

  /** The rows of the given top-level keys. */
  function KeyRows(find: Finder, idOf: string -> int, typ: Value, d: map<string, Value>, keys: set<string>): (rows: set<Row>)
    requires keys <= d.Keys
    ensures forall r :: r in rows ==> exists k :: k in keys && Under(r.name, k)
  {
    set k, r | k in keys && r in Actions(find, idOf, TypeKey(typ), k, d[k], None) :: r
  }

  /** Every row an object is indexed under. */
  function Index(find: Finder, idOf: string -> int, typ: Value, data: map<string, Value>): set<Row> {
    var d := Strip(data);
    KeyRows(find, idOf, typ, d, d.Keys)
  }

  /** `_update_tables` as written: on a type change every old key is deleted, but only the
      changed keys are inserted. */
  function UpdateTablesAsWritten(find: Finder, idOf: string -> int, olddata: map<string, Value>, newdata: map<string, Value>)
    : (r: Result<(set<Row>, set<Row>), Error>)
    ensures r.Err? <==> OldType(olddata).Err? || NewType(newdata).Err?
  {
    match OldType(olddata)
    case Err(e) => Err(e)
    case Ok(oldType) =>
      match NewType(newdata)
      case Err(e) => Err(e)
      case Ok(newType) =>
        var o, n := Strip(olddata), Strip(newdata);
        var (left, same, right) := InfobaseUtils.DictDiff(o, n);
        var removed := if !SameValue(oldType, newType) then o.Keys else left;
        Ok((KeyRows(find, idOf, oldType, o, removed), KeyRows(find, idOf, newType, n, right)))
  }

  /** `_update_tables` as evidently intended: on a type change every old row is deleted and
      every new row inserted; otherwise the rows of the keys whose value changed. */
  function UpdateTables(find: Finder, idOf: string -> int, olddata: map<string, Value>, newdata: map<string, Value>)
    : (r: Result<(set<Row>, set<Row>), Error>)
    ensures r.Err? <==> OldType(olddata).Err? || NewType(newdata).Err?
    ensures r.Ok? && !SameValue(OldType(olddata).value, NewType(newdata).value) ==>
      r.value == (Index(find, idOf, OldType(olddata).value, olddata), Index(find, idOf, NewType(newdata).value, newdata))
    ensures r.Ok? ==> r.value.0 <= Index(find, idOf, OldType(olddata).value, olddata) && r.value.1 <= Index(find, idOf, NewType(newdata).value, newdata)
  {
    match OldType(olddata)
    case Err(e) => Err(e)
    case Ok(oldType) =>
      match NewType(newdata)
      case Err(e) => Err(e)
      case Ok(newType) =>
        var o, n := Strip(olddata), Strip(newdata);
        var (left, same, right) := InfobaseUtils.DictDiff(o, n);
        var changed := !SameValue(oldType, newType);
        Ok((KeyRows(find, idOf, oldType, o, if changed then o.Keys else left),
            KeyRows(find, idOf, newType, n, if changed then n.Keys else right)))
  }

  /** A schema with only the default tables, and a store where every id is 0. */
  function DatumTables(typ: Option<string>, dtype: string, name: string): Option<string> {
    Some("datum_" + dtype)
  }

  function NoIds(key: string): int {
    0
  }

  /** An object whose type changes from /type/a to /type/b while its title stays "x". */
  const TitledA: map<string, Value> := map["type" := Ref("/type/a"), "title" := Str("x")]
  const TitledB: map<string, Value> := map["type" := Ref("/type/b"), "title" := Str("x")]
  const TitleRow := Row("datum_str", "title", Str("x"), None)

  /** The code as written drops an unchanged property from the index when the type changes:
      its old row is deleted and no new row is inserted. */
  lemma UpdateTablesAsWrittenLosesRows()
    ensures UpdateTablesAsWritten(DatumTables, NoIds, TitledA, TitledB).Ok?
    ensures TitleRow in Index(DatumTables, NoIds, Ref("/type/b"), TitledB)
    ensures var (deletes, inserts) := UpdateTablesAsWritten(DatumTables, NoIds, TitledA, TitledB).value;
      TitleRow !in (Index(DatumTables, NoIds, Ref("/type/a"), TitledA) - deletes) + inserts
  {
    assert "datum_" + "str" == "datum_str";
    var o, n := Strip(TitledA), Strip(TitledB);
    assert o == map["title" := Str("x")];
    assert n == map["title" := Str("x")];
    assert TitleRow in Actions(DatumTables, NoIds, TypeKey(Ref("/type/b")), "title", n["title"], None);
    var diff := InfobaseUtils.DictDiff(o, n);
    assert "title" in diff.1;
    assert diff.2 == {};
    assert !SameValue(Ref("/type/a"), Ref("/type/b"));
  }

  /** With the corrected rule, deleting and then inserting the rows turns the old index into
      the new one, provided top-level names have no '.' (else two properties can share a
      row name) and no old value is None (a None beside an absent key counts as unchanged). */
  lemma UpdateTablesApplies(find: Finder, idOf: string -> int, olddata: map<string, Value>, newdata: map<string, Value>)
    requires UpdateTables(find, idOf, olddata, newdata).Ok?
    requires forall k :: k in olddata ==> '.' !in k
    requires forall k :: k in newdata ==> '.' !in k
    requires forall k :: k in olddata ==> olddata[k] != Null
    ensures var (deletes, inserts) := UpdateTables(find, idOf, olddata, newdata).value;
      (Index(find, idOf, OldType(olddata).value, olddata) - deletes) + inserts == Index(find, idOf, NewType(newdata).value, newdata)
  {
    var oldType, newType := OldType(olddata).value, NewType(newdata).value;
    var (deletes, inserts) := UpdateTables(find, idOf, olddata, newdata).value;
    var before := Index(find, idOf, oldType, olddata);
    var after := Index(find, idOf, newType, newdata);
    if SameValue(oldType, newType) {
      SameValueTypeKey(oldType, newType);
      var o, n := Strip(olddata), Strip(newdata);
      var (left, same, right) := InfobaseUtils.DictDiff(o, n);
      assert deletes == KeyRows(find, idOf, oldType, o, left);
      assert inserts == KeyRows(find, idOf, newType, n, right);
      forall r | r in (before - deletes) + inserts ensures r in after {
        if r !in inserts {
          var k :| k in o.Keys && r in Actions(find, idOf, TypeKey(oldType), k, o[k], None);
          assert k in same;
          assert k in n;
        }
      }
      forall r | r in after ensures r in (before - deletes) + inserts {
        var k :| k in n.Keys && r in Actions(find, idOf, TypeKey(newType), k, n[k], None);
        if k !in right {
          assert k in same && o[k] == n[k];
          assert r in before;
          if r in deletes {
            var k2 :| k2 in left && r in Actions(find, idOf, TypeKey(oldType), k2, o[k2], None);
            UnderDistinct(r.name, k, k2);
          }
        }
      }
    }
  }

  /** `_update_tables` with its two loops over the removed and the added keys; the deletes and
      inserts are gathered rather than sent to the database. */
  method ApplyUpdate(find: Finder, idOf: string -> int, olddata: map<string, Value>, newdata: map<string, Value>)
    returns (r: Result<(set<Row>, set<Row>), Error>)
    ensures r == UpdateTables(find, idOf, olddata, newdata)
  {
    var oldType := OldType(olddata);
    if oldType.Err? {
      return Err(oldType.error);
    }
    var newType := NewType(newdata);
    if newType.Err? {
      return Err(newType.error);
    }
    var o, n := Strip(olddata), Strip(newdata);
    var (left, same, right) := InfobaseUtils.DictDiff(o, n);
    var removed, added := left, right;
    if !SameValue(oldType.value, newType.value) {
      removed, added := o.Keys, n.Keys;
    }
    var deletes := Gather(find, idOf, oldType.value, o, removed);
    var inserts := Gather(find, idOf, newType.value, n, added);
    r := Ok((deletes, inserts));
  }

  /** `for k in keys: do_action(f, type, thing_id, k, d[k])`. */
  method Gather(find: Finder, idOf: string -> int, typ: Value, d: map<string, Value>, keys: set<string>)
    returns (rows: set<Row>)
    requires keys <= d.Keys
    ensures rows == KeyRows(find, idOf, typ, d, keys)
  {
    rows := {};
    var todo := keys;
    while todo != {}
      invariant todo <= keys
      invariant rows == KeyRows(find, idOf, typ, d, keys - todo)
      decreases todo
    {
      var k :| k in todo;
      KeyRowsAdd(find, idOf, typ, d, keys - todo, k);
      rows := rows + set r | r in Actions(find, idOf, TypeKey(typ), k, d[k], None);
      todo := todo - {k};
      assert keys - todo == (keys - (todo + {k})) + {k};
    }
  }

  lemma KeyRowsAdd(find: Finder, idOf: string -> int, typ: Value, d: map<string, Value>, keys: set<string>, k: string)
    requires keys <= d.Keys && k in d
    ensures KeyRows(find, idOf, typ, d, keys + {k}) ==
      KeyRows(find, idOf, typ, d, keys) + set r | r in Actions(find, idOf, TypeKey(typ), k, d[k], None)
  {
  }
}
