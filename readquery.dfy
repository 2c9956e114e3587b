/** Read queries of Infobase (infogami/infobase/readquery.py): a query dictionary becomes a
    `Query`, a list of conditions (key, operator, dtype, value) with paging and sorting.
    Operators are suffixes of the keys; datatypes come from fixed properties, the value's own
    type or the schema of the query's type. */
module ReadQuery {
  import opened Wrappers
  import opened Json
  import opened Strings

  datatype Error = InfobaseError(message: string) | AssertionError | AttributeError

  /** A condition of a query, or a query nested in it for a dict value. */
  datatype Condition =
    | Cond(key: string, op: string, dtype: Option<string>, value: Value)
    | Nested(query: QueryValue)

  /** The sort of a query: the sort key, with its datatype when `make_query` found one. */
  datatype Sort = Sort(key: Value, dtype: Option<string>)

  /** The state of a `Query` object. */
  datatype QueryValue = QueryValue(conditions: seq<Condition>, sort: Option<Sort>, limit: Value, offset: Value)

  /** A type object as `find_datatype` consults it: its properties, each a name and the key of
      its expected type. */
  datatype TypeInfo = TypeInfo(key: string, properties: seq<(string, string)>)

  /** `store.get(key)` for the type of a query: the type object with that key, if any. */
  type Schema = string -> Option<TypeInfo>

  // ---------------------------------------------------------------------------------------
  // the Query object

  /** `Query.get_type` as written: the value of the first condition on 'type'. A nested query
      has no `key` attribute, so one met before that condition raises AttributeError. */
  function GetTypeAsWritten(cs: seq<Condition>): (r: Result<Option<Value>, Error>)
    ensures r.Err? ==> r.error == AttributeError
    ensures r == Err(AttributeError) <==> exists i :: 0 <= i < |cs| && cs[i].Nested? && forall j :: 0 <= j < i ==> cs[j].Cond? && cs[j].key != "type"
  {
    if cs == [] then Ok(None)
    else if cs[0].Nested? then Err(AttributeError)
    else if cs[0].key == "type" then
      Ok(Some(cs[0].value))
    else
      var r := GetTypeAsWritten(cs[1..]);
      assert r == Err(AttributeError) ==> exists i :: 0 <= i < |cs| && cs[i].Nested? && forall j :: 0 <= j < i ==> cs[j].Cond? && cs[j].key != "type" by {
        if r == Err(AttributeError) {
          var i :| 0 <= i < |cs[1..]| && cs[1..][i].Nested? && forall j :: 0 <= j < i ==> cs[1..][j].Cond? && cs[1..][j].key != "type";
          assert cs[i + 1].Nested? && forall j :: 0 <= j < i + 1 ==> cs[j].Cond? && cs[j].key != "type";
        }
      }
      r
  }

  /** `Query.get_type` as evidently intended: the value of the first condition on 'type',
      passing over nested queries as `assert_type_required` does. */
  function GetType(cs: seq<Condition>): (r: Option<Value>)
    ensures r.Some? <==> exists i :: 0 <= i < |cs| && cs[i].Cond? && cs[i].key == "type"
    ensures r.Some? ==> exists i :: (0 <= i < |cs| && cs[i].Cond? && cs[i].key == "type" && cs[i].value == r.value &&
      forall j :: 0 <= j < i ==> !(cs[j].Cond? && cs[j].key == "type"))
  {
    if cs == [] then None
    else if cs[0].Cond? && cs[0].key == "type" then Some(cs[0].value)
    else
      var r := GetType(cs[1..]);
      assert forall i :: 1 <= i < |cs| ==> cs[i] == cs[1..][i - 1];
      if r.Some? then
        var i :| 0 <= i < |cs[1..]| && cs[1..][i].Cond? && cs[1..][i].key == "type" && cs[1..][i].value == r.value &&
          forall j :: 0 <= j < i ==> !(cs[1..][j].Cond? && cs[1..][j].key == "type");
        assert cs[i + 1] == cs[1..][i];
        r
      else r
  }

  /** Where the two agree: whenever the written `get_type` returns, it returns the intended
      answer. */
  lemma {:induction false} GetTypeAgrees(cs: seq<Condition>)
    ensures GetTypeAsWritten(cs).Ok? ==> GetTypeAsWritten(cs).value == GetType(cs)
  {
    if cs != [] && !(cs[0].Cond? && cs[0].key == "type") {
      GetTypeAgrees(cs[1..]);
    }
  }

  /** The query {'a.b=': 1, 'type': '/type/page'}, kept in that order, has a nested query before
      its type condition: the written `get_type` fails where the intended one finds the type. */
  lemma GetTypeNestedFirst()
    ensures
      var cs := [Nested(QueryValue([Cond("a.b", "=", None, Int(1))], None, Int(1000), Null)),
                 Cond("type", "=", None, Str("/type/page"))];
      GetTypeAsWritten(cs) == Err(AttributeError) && GetType(cs) == Some(Str("/type/page"))
  {
    var cs := [Nested(QueryValue([Cond("a.b", "=", None, Int(1))], None, Int(1000), Null)),
               Cond("type", "=", None, Str("/type/page"))];
    assert GetType(cs[1..]) == Some(Str("/type/page"));
  }

  /** Which reading of `parse_key` and `get_type` a query is built with: the code as written,
      or as evidently intended (`ParseKey`, `GetType`). */
  datatype Reading = AsWritten | Intended

  /** `q.get_type()` under a reading. */
  function TypeIn(v: Reading, cs: seq<Condition>): Result<Option<Value>, Error> {
    if v.AsWritten? then GetTypeAsWritten(cs) else Ok(GetType(cs))
  }

  /** Some plain condition is on a property outside the common ones. */
  predicate TypeRequired(commonProperties: set<string>, cs: seq<Condition>) {
    exists i :: 0 <= i < |cs| && cs[i].Cond? && cs[i].key !in commonProperties
  }

  /** `assert_type_required`: a condition on a property outside the common ones needs a type
      condition; `get_type` is consulted only then. */
  function AssertTypeRequired(v: Reading, commonProperties: set<string>, cs: seq<Condition>): (r: Result<(), Error>)
    ensures v.Intended? ==> (r.Err? <==> TypeRequired(commonProperties, cs) && GetType(cs).None?)
    ensures v.AsWritten? ==> (r.Err? <==> TypeRequired(commonProperties, cs) && (GetType(cs).None? || GetTypeAsWritten(cs).Err?))
    ensures r.Err? ==> r.error == if v.AsWritten? && GetTypeAsWritten(cs).Err? then AttributeError else InfobaseError("missing 'type' in query")
  {
    GetTypeAgrees(cs);
    if !TypeRequired(commonProperties, cs) then Ok(())
    else
      match TypeIn(v, cs)
      case Err(err) => Err(err)
      case Ok(None) => Err(InfobaseError("missing 'type' in query"))
      case Ok(Some(_)) => Ok(())
  }

  /** A `Query` object: its conditions in the order they were added, the sort, the limit and
      the offset. */
  class Query {
    var conditions: seq<Condition>
    var sort: Option<Sort>
    var limit: Value
    var offset: Value

    constructor ()
      ensures conditions == [] && sort == None && limit == Null && offset == Null
    {
      conditions := [];
      sort := None;
      limit := Null;
      offset := Null;
    }

    function Snapshot(): (r: QueryValue)
      reads this
      ensures r.conditions == conditions && r.sort == sort && r.limit == limit && r.offset == offset
    {
      QueryValue(conditions, sort, limit, offset)
    }

    /** `get_type` as written, walking the conditions: the value of the first condition on
        'type', AttributeError at a nested query met before it. */
    method GetType() returns (r: Result<Option<Value>, Error>)
      ensures r == GetTypeAsWritten(conditions)
    {
      var i := 0;
      var done := false;
      r := Ok(None);
      while i < |conditions| && !done
        invariant 0 <= i <= |conditions|
        invariant GetTypeAsWritten(conditions) == if done then r else GetTypeAsWritten(conditions[i..])
        invariant !done ==> r == Ok(None)
        decreases |conditions| - i, if done then 0 else 1
      {
        assert conditions[i..][0] == conditions[i] && conditions[i..][1..] == conditions[i + 1..];
        if conditions[i].Nested? {
          r := Err(AttributeError);
          done := true;
        } else if conditions[i].key == "type" {
          r := Ok(Some(conditions[i].value));
          done := true;
        } else {
          i := i + 1;
        }
      }
      if !done {
        assert conditions[i..] == [];
        assert GetTypeAsWritten(conditions[i..]) == Ok(None);
        assert GetTypeAsWritten(conditions) == Ok(None);
      }
    }

    /** `add_condition`: the condition goes at the end. */
    method AddCondition(key: string, op: string, dtype: Option<string>, value: Value)
      modifies this
      ensures conditions == old(conditions) + [Cond(key, op, dtype, value)]
      ensures sort == old(sort) && limit == old(limit) && offset == old(offset)
    {
      conditions := conditions + [Cond(key, op, dtype, value)];
    }
  }

  /** After `add_condition`, the type is the same unless there was none and the new
      condition is on 'type'. */
  lemma {:induction false} GetTypeAfterAdd(cs: seq<Condition>, c: Condition)
    ensures GetType(cs).Some? ==> GetType(cs + [c]) == GetType(cs)
    ensures GetType(cs).None? && c.Cond? && c.key == "type" ==> GetType(cs + [c]) == Some(c.value)
    ensures GetType(cs).None? && !(c.Cond? && c.key == "type") ==> GetType(cs + [c]).None?
  {
    if cs != [] {
      assert (cs + [c])[1..] == cs[1..] + [c];
      GetTypeAfterAdd(cs[1..], c);
    }
  }

  // ---------------------------------------------------------------------------------------
  // keys and datatypes

  /** The operators, in the order `parse_key` tries them. */
  const OperatorsAsWritten: seq<string> := ["=", "!=", "<", "<=", ">=", ">", "~"]

  /** The same operators, each two-character one before the one-character operator it ends
      with. */
  const Operators: seq<string> := ["!=", "<=", ">=", "=", "<", ">", "~"]

  /** The first of `ops` that `key` ends with. */
  function FirstSuffix(ops: seq<string>, key: string): (r: Option<nat>)
    ensures r.Some? ==> r.value < |ops| && EndsWith(key, ops[r.value])
    ensures r.Some? ==> forall j :: 0 <= j < r.value ==> !EndsWith(key, ops[j])
    ensures r.None? <==> forall j :: 0 <= j < |ops| ==> !EndsWith(key, ops[j])
  {
    if ops == [] then None
    else if EndsWith(key, ops[0]) then Some(0)
    else
      match FirstSuffix(ops[1..], key)
      case None => None
      case Some(j) => Some(j + 1)
  }

  /** A name of letters, digits and underscores only. */
  predicate PlainName(key: string) {
    forall i :: 0 <= i < |key| ==> 'a' <= key[i] <= 'z' || 'A' <= key[i] <= 'Z' || '0' <= key[i] <= '9' || key[i] == '_'
  }

  /** `parse_key` over a list of operators: the key without the first operator it ends with;
      a key with no operator must be a plain name and gets '='. */
  function ParseKeyWith(ops: seq<string>, key: string): (r: Result<(string, string), Error>)
    ensures r.Ok? ==> r.value.0 + r.value.1 == key || (r.value == (key, "=") && FirstSuffix(ops, key).None?)
    ensures FirstSuffix(ops, key).None? ==> (r.Ok? <==> PlainMatch(key))
    ensures r.Err? ==> r.error == InfobaseError("Invalid property: '" + key + "'")
  {
    match FirstSuffix(ops, key)
    case Some(j) =>
      var op := ops[j];
      assert key == key[..|key| - |op|] + op;
      Ok((key[..|key| - |op|], op))
    case None =>
      if PlainMatch(key) then Ok((key, "=")) else Err(InfobaseError("Invalid property: '" + key + "'"))
  }

  /** `parse_key` as written. */
  function ParseKeyAsWritten(key: string): Result<(string, string), Error> {
    ParseKeyWith(OperatorsAsWritten, key)
  }

  /** `parse_key` as evidently intended: the two-character operators are recognised. */
  function ParseKey(key: string): Result<(string, string), Error> {
    ParseKeyWith(Operators, key)
  }

  /** A suffix, character by character. */
  lemma EndsWithChars(key: string, suffix: string)
    ensures EndsWith(key, suffix) <==> |suffix| <= |key| && forall i :: 0 <= i < |suffix| ==> key[|key| - |suffix| + i] == suffix[i]
  {
    if |suffix| <= |key| && forall i :: 0 <= i < |suffix| ==> key[|key| - |suffix| + i] == suffix[i] {
      assert key[|key| - |suffix|..] == suffix;
    }
  }

  /** As written, '!=', '<=' and '>=' are never recognised: every key ending in one of them
      ends in '=' too, which is tried first. */
  lemma ParseKeyShadowed(key: string)
    requires ParseKeyAsWritten(key).Ok?
    ensures ParseKeyAsWritten(key).value.1 !in {"!=", "<=", ">="}
  {
    forall k | 0 <= k < |OperatorsAsWritten| {
      EndsWithChars(key, OperatorsAsWritten[k]);
    }
  }

  lemma EndsWithLast(key: string, suffix: string)
    requires EndsWith(key, suffix)
    ensures |suffix| >= 1 ==> key[|key| - 1] == suffix[|suffix| - 1]
    ensures |suffix| >= 2 ==> key[|key| - 2] == suffix[|suffix| - 2]
  {
    EndsWithChars(key, suffix);
  }

  /** The operator `FirstSuffix` finds, given that no earlier one matches. */
  lemma {:induction false} FirstSuffixAt(ops: seq<string>, key: string, j: nat)
    requires j < |ops| && EndsWith(key, ops[j]) && forall k :: 0 <= k < j ==> !EndsWith(key, ops[k])
    ensures FirstSuffix(ops, key) == Some(j)
  {
    if j > 0 {
      FirstSuffixAt(ops[1..], key, j - 1);
    }
  }

  /** A character a plain name may hold. */
  /** `re.match('^[a-zA-Z0-9_]*$', key)`: `$` also matches just before a final line feed,
      so a plain name followed by one '\n' passes too. */
  predicate PlainMatch(key: string) {
    PlainName(key) || (key != [] && key[|key| - 1] == '\n' && PlainName(key[..|key| - 1]))
  }

  predicate PlainChar(c: char) {
    'a' <= c <= 'z' || 'A' <= c <= 'Z' || '0' <= c <= '9' || c == '_'
  }

  /** With the intended order, a plain name followed by any operator parses back into the
      name and the operator. */
  lemma ParseKeyRoundTrip(name: string, op: string)
    requires PlainName(name) && op in Operators
    ensures ParseKey(name + op) == Ok((name, op))
  {
    var key := name + op;
    var m :| 0 <= m < |Operators| && Operators[m] == op;
    assert EndsWith(key, op) by {
      assert key[|key| - |op|..] == op;
    }
    NoEarlierOperator(name, m);
    FirstSuffixAt(Operators, key, m);
    assert key[..|key| - |op|] == name;
  }

  /** A plain name followed by an operator ends in no operator listed before it. */
  lemma NoEarlierOperator(name: string, m: nat)
    requires PlainName(name) && m < |Operators|
    ensures forall k :: 0 <= k < m ==> !EndsWith(name + Operators[m], Operators[k])
  {
    var op := Operators[m];
    var key := name + op;
    assert |name| > 0 ==> PlainChar(key[|name| - 1]);
    assert forall i :: 0 <= i < |op| ==> key[|name| + i] == op[i];
    forall k | 0 <= k < m
      ensures !EndsWith(key, Operators[k])
    {
      if EndsWith(key, Operators[k]) {
        EndsWithLast(key, Operators[k]);
      }
    }
  }

  /** A key without an operator that is a plain name gets '='. */
  lemma ParseKeyPlain(name: string)
    requires PlainName(name)
    ensures ParseKey(name) == Ok((name, "="))
  {
    forall k | 0 <= k < |Operators|
      ensures !EndsWith(name, Operators[k])
    {
      PlainNotOperator(name, Operators[k]);
    }
    assert FirstSuffix(Operators, name).None?;
  }

  /** A plain name with a line feed after it is accepted whole, the line feed kept in the
      property name, because `$` matches before a final line feed. */
  lemma ParseKeyNewline(name: string)
    requires PlainName(name)
    ensures ParseKey(name + "\n") == Ok((name + "\n", "="))
    ensures ParseKeyAsWritten(name + "\n") == Ok((name + "\n", "="))
  {
    var key := name + "\n";
    forall k | 0 <= k < |Operators|
      ensures !EndsWith(key, Operators[k])
    {
      if EndsWith(key, Operators[k]) {
        EndsWithLast(key, Operators[k]);
      }
    }
    assert FirstSuffix(Operators, key).None?;
    forall k | 0 <= k < |OperatorsAsWritten|
      ensures !EndsWith(key, OperatorsAsWritten[k])
    {
      if EndsWith(key, OperatorsAsWritten[k]) {
        EndsWithLast(key, OperatorsAsWritten[k]);
      }
    }
    assert FirstSuffix(OperatorsAsWritten, key).None?;
    assert key[..|key| - 1] == name;
  }

  /** A plain name parses to itself with '=' under either order of the operators. */
  lemma ParseKeyPlainBoth(name: string)
    requires PlainName(name)
    ensures ParseKey(name) == Ok((name, "=")) && ParseKeyAsWritten(name) == Ok((name, "="))
  {
    ParseKeyPlain(name);
    forall k | 0 <= k < |OperatorsAsWritten|
      ensures !EndsWith(name, OperatorsAsWritten[k])
    {
      PlainNotOperator(name, OperatorsAsWritten[k]);
    }
    assert FirstSuffix(OperatorsAsWritten, name).None?;
  }

  /** A plain name ends with no operator: every operator ends with a character a plain name
      does not hold. */
  lemma PlainNotOperator(name: string, op: string)
    requires PlainName(name) && op in Operators
    ensures !EndsWith(name, op)
  {
    if EndsWith(name, op) {
      EndsWithLast(name, op);
    }
  }

  /** The datatypes of the properties every object has. */
  const SpecialDatatypes: map<string, string> := map[
    "key" := "key", "type" := "ref", "permission" := "ref", "child_permission" := "ref",
    "created" := "datetime", "last_modified" := "datetime"]

  /** The datatypes `find_datatype` derives from a schema's expected type. */
  const SchemaDatatypes: map<string, string> := map[
    "/type/string" := "str", "/type/int" := "int", "/type/float" := "float",
    "/type/boolean" := "boolean", "/type/datetime" := "datetime"]

  /** The expected type of the first property named `key`. */
  function PropertyType(props: seq<(string, string)>, key: string): (r: Option<string>)
    ensures r.Some? <==> exists i :: 0 <= i < |props| && props[i].0 == key
  {
    if props == [] then None
    else if props[0].0 == key then Some(props[0].1)
    else
      var r := PropertyType(props[1..], key);
      assert forall i :: 1 <= i < |props| ==> props[i] == props[1..][i - 1];
      r
  }

  /** `find_datatype(type, key, value)`: the fixed datatype of a special property; otherwise
      the datatype of the value's own type; otherwise (a `long` too) the schema's expected
      type, 'ref' for a type that is not primitive and 'str' when there is no such property. */
  function FindDatatype(t: Option<TypeInfo>, key: string, value: Value): (r: string)
    ensures key in SpecialDatatypes ==> r == SpecialDatatypes[key]
    ensures key !in SpecialDatatypes && value.Bool? ==> r == "boolean"
    ensures key !in SpecialDatatypes && value.Int? && IsShortInt(value.i) ==> r == "int"
    ensures key !in SpecialDatatypes && value.Float? ==> r == "float"
    ensures key !in SpecialDatatypes && value.Ref? ==> r == "ref"
    ensures key !in SpecialDatatypes && !(value.Bool? || (value.Int? && IsShortInt(value.i)) || value.Float? || value.Ref?) ==>
      (t.None? || PropertyType(t.value.properties, key).None? ==> r == "str") &&
      (t.Some? && PropertyType(t.value.properties, key).Some? ==>
        var e := PropertyType(t.value.properties, key).value;
        r == if e in SchemaDatatypes then SchemaDatatypes[e] else "ref")
    ensures r in {"key", "ref", "datetime", "boolean", "int", "float", "str"}
  {
    if key in SpecialDatatypes then SpecialDatatypes[key]
    else if value.Bool? then "boolean"
    else if value.Int? && IsShortInt(value.i) then "int"
    else if value.Float? then "float"
    else if value.Ref? then "ref"
    else if t.None? then "str"
    else
      match PropertyType(t.value.properties, key)
      case None => "str"
      case Some(e) => if e in SchemaDatatypes then SchemaDatatypes[e] else "ref"
  }

  // ---------------------------------------------------------------------------------------
  // building queries

  /** `if q.limit > 1000: q.limit = 1000` under Python 2's ordering, where None and numbers
      sort below every other kind of value. */
  function CapLimit(limit: Value): (r: Value)
    ensures limit.Int? ==> r == Int(if limit.i > 1000 then 1000 else limit.i)
    ensures limit == Null ==> r == Null
  {
    match limit
    case Null => Null
    case Bool(_) => limit
    case Int(i) => if i > 1000 then Int(1000) else limit
    case Float(f) => if f > 1000 as real then Int(1000) else limit
    case _ => Int(1000)
  }

  /** The keys `make_query` pops before building conditions. */
  const Paging: set<string> := {"offset", "limit", "sort"}

  /** The value of the first entry whose key, after the prefix, is `name`. */
  function Lookup(prefix: string, entries: seq<(string, Value)>, name: string): Option<Value> {
    if entries == [] then None
    else if prefix + entries[0].0 == name then Some(entries[0].1)
    else Lookup(prefix, entries[1..], name)
  }

  /** `store.get(t)` for the type of a query: the type object whose key is the text `t`. */
  function StoreGet(schema: Schema, t: Option<Value>): Option<TypeInfo> {
    if t.Some? && IsText(t.value) then schema(TextOf(t.value)) else None
  }

  /** `store.get(q.get_type())`: the type to consult for datatypes. */
  function TypeOf(v: Reading, schema: Schema, cs: seq<Condition>): Result<Option<TypeInfo>, Error> {
    match TypeIn(v, cs)
    case Err(err) => Err(err)
    case Ok(t) => Ok(StoreGet(schema, t))
  }

  /** `parse_key` under a reading. */
  function ParseKeyIn(v: Reading, key: string): Result<(string, string), Error> {
    if v.AsWritten? then ParseKeyAsWritten(key) else ParseKey(key)
  }

  /** What the loop of `make_query` makes of one entry: a nested query for a dict value, with
      the key as a prefix of its keys; otherwise a condition with the operator split off. */
  function EntryCondition(v: Reading, schema: Schema, commonProperties: set<string>, prefix: string, e: (string, Value)): (r: Result<Condition, Error>)
    ensures !e.1.Dict? ==> (r.Ok? <==> ParseKeyIn(v, prefix + e.0).Ok?)
    ensures !e.1.Dict? && r.Ok? ==> (r.value.Cond? && r.value.value == e.1 && r.value.dtype.None? &&
      ParseKeyIn(v, prefix + e.0) == Ok((r.value.key, r.value.op)))
    ensures e.1.Dict? && r.Ok? ==> r.value.Nested?
    decreases e, 2
  {
    if e.1.Dict? then
      match MakeQuerySpec(v, schema, commonProperties, prefix + e.0 + ".", e.1.entries, true)
      case Err(err) => Err(err)
      case Ok(q) => Ok(Nested(q))
    else
      match ParseKeyIn(v, prefix + e.0)
      case Err(err) => Err(err)
      case Ok((k, op)) => Ok(Cond(k, op, None, e.1))
  }

  /** The operators `parse_key` as written never yields. */
  const Shadowed: set<string> := {"!=", "<=", ">="}

  /** The conditions the loop of `make_query` appends, in order, stopping at the first
      error. As written, no condition gets a two-character operator. */
  function Conditions(v: Reading, schema: Schema, commonProperties: set<string>, prefix: string, entries: seq<(string, Value)>): (r: Result<seq<Condition>, Error>)
    ensures r.Ok? ==> |r.value| <= |entries|
    ensures r.Ok? && v.AsWritten? ==> forall i :: 0 <= i < |r.value| && r.value[i].Cond? ==> r.value[i].op !in Shadowed
    decreases entries, 0
  {
    if entries == [] then Ok([])
    else
      var e := entries[|entries| - 1];
      assert e in entries;
      match Conditions(v, schema, commonProperties, prefix, entries[..|entries| - 1])
      case Err(err) => Err(err)
      case Ok(cs) =>
        if prefix + e.0 in Paging then Ok(cs)
        else
          match EntryCondition(v, schema, commonProperties, prefix, e)
          case Err(err) => Err(err)
          case Ok(c) =>
            if v.AsWritten? && !e.1.Dict? then
              ParseKeyShadowed(prefix + e.0);
              Ok(cs + [c])
            else Ok(cs + [c])
  }

  /** The second loop of `make_query`: every plain condition gets its datatype. */
  function WithDatatypes(t: Option<TypeInfo>, cs: seq<Condition>): (r: seq<Condition>)
    ensures |r| == |cs|
    ensures forall i :: 0 <= i < |cs| ==> r[i] == Typed(t, cs[i])
  {
    if cs == [] then [] else WithDatatypes(t, cs[..|cs| - 1]) + [Typed(t, cs[|cs| - 1])]
  }

  /** A plain condition with its datatype found. */
  function Typed(t: Option<TypeInfo>, c: Condition): (r: Condition)
    ensures c.Cond? ==> r == c.(dtype := Some(FindDatatype(t, c.key, c.value)))
    ensures c.Nested? ==> r == c
  {
    if c.Cond? then c.(dtype := Some(FindDatatype(t, c.key, c.value))) else c
  }

  /** `make_query(store, query, nested)` for a query whose keys all start with `prefix`:
      paging popped, the limit defaulting to and capped at 1000, conditions built, the type
      required at the top level, the type looked up, datatypes found, and the sort key
      validated. */
  function MakeQuerySpec(v: Reading, schema: Schema, commonProperties: set<string>, prefix: string, entries: seq<(string, Value)>, nested: bool): (r: Result<QueryValue, Error>)
    ensures r.Ok? ==> r.value.limit == CapLimit(Lookup(prefix, entries, "limit").GetOr(Int(1000)))
    ensures r.Ok? ==> r.value.offset == Lookup(prefix, entries, "offset").GetOr(Null)
    ensures r.Ok? && !nested ==> AssertTypeRequired(v, commonProperties, r.value.conditions).Ok?
    ensures r.Ok? && v.AsWritten? ==> GetTypeAsWritten(r.value.conditions).Ok?
    ensures r.Ok? ==> forall i :: 0 <= i < |r.value.conditions| && r.value.conditions[i].Cond? ==> r.value.conditions[i].dtype.Some?
    ensures r.Ok? && v.AsWritten? ==> forall i :: 0 <= i < |r.value.conditions| && r.value.conditions[i].Cond? ==> r.value.conditions[i].op !in Shadowed
    decreases entries, 1
  {
    var offset := Lookup(prefix, entries, "offset").GetOr(Null);
    var limit := CapLimit(Lookup(prefix, entries, "limit").GetOr(Int(1000)));
    var sort := Lookup(prefix, entries, "sort").GetOr(Null);
    match Conditions(v, schema, commonProperties, prefix, entries)
    case Err(err) => Err(err)
    case Ok(cs) =>
      if !nested && AssertTypeRequired(v, commonProperties, cs).Err? then Err(AssertTypeRequired(v, commonProperties, cs).error)
      else
        match TypeOf(v, schema, cs)
        case Err(err) => Err(err)
        case Ok(t) =>
          var typed := WithDatatypes(t, cs);
          SameType(t, cs);
          SameRequired(t, commonProperties, cs);
          if !Truthy(sort) then Ok(QueryValue(typed, None, limit, offset))
          else if !IsText(sort) then Err(AttributeError)
          else if ParseKeyIn(v, TextOf(sort)).Err? then Err(ParseKeyIn(v, TextOf(sort)).error)
          else
            Ok(QueryValue(typed, Some(Sort(sort, Some(FindDatatype(t, TextOf(sort), Null)))), limit, offset))
  }

  /** Filling in datatypes does not change the type of a query, under either reading. */
  lemma {:induction false} SameType(t: Option<TypeInfo>, cs: seq<Condition>)
    ensures GetType(WithDatatypes(t, cs)) == GetType(cs)
    ensures GetTypeAsWritten(WithDatatypes(t, cs)) == GetTypeAsWritten(cs)
  {
    var r := WithDatatypes(t, cs);
    if cs != [] {
      SameType(t, cs[1..]);
      assert WithDatatypes(t, cs[1..]) == r[1..];
    }
  }

  /** Filling in datatypes does not change whether a type is required. */
  lemma SameRequired(t: Option<TypeInfo>, commonProperties: set<string>, cs: seq<Condition>)
    ensures TypeRequired(commonProperties, WithDatatypes(t, cs)) == TypeRequired(commonProperties, cs)
  {
    var r := WithDatatypes(t, cs);
    if TypeRequired(commonProperties, cs) {
      var i :| 0 <= i < |cs| && cs[i].Cond? && cs[i].key !in commonProperties;
      assert r[i].Cond? && r[i].key !in commonProperties;
    }
    if TypeRequired(commonProperties, r) {
      var i :| 0 <= i < |r| && r[i].Cond? && r[i].key !in commonProperties;
      assert cs[i].Cond? && cs[i].key !in commonProperties;
    }
  }

  /** Once a condition fails, the rest of the loop of `make_query` does not run. */
  lemma {:induction false} ConditionsErrorStops(v: Reading, schema: Schema, commonProperties: set<string>, prefix: string, entries: seq<(string, Value)>, i: nat)
    requires i <= |entries| && Conditions(v, schema, commonProperties, prefix, entries[..i]).Err?
    ensures Conditions(v, schema, commonProperties, prefix, entries) == Conditions(v, schema, commonProperties, prefix, entries[..i])
    decreases |entries| - i
  {
    if i < |entries| {
      assert entries[..|entries| - 1][..i] == entries[..i];
      ConditionsErrorStops(v, schema, commonProperties, prefix, entries[..|entries| - 1], i);
    } else {
      assert entries[..i] == entries;
    }
  }

  /** One more turn of the loop of `make_query`. */
  lemma ConditionsStep(v: Reading, schema: Schema, commonProperties: set<string>, prefix: string, entries: seq<(string, Value)>, i: nat)
    requires i < |entries|
    ensures Conditions(v, schema, commonProperties, prefix, entries[..i + 1]) ==
      match Conditions(v, schema, commonProperties, prefix, entries[..i])
      case Err(err) => Err(err)
      case Ok(cs) =>
        if prefix + entries[i].0 in Paging then Ok(cs)
        else
          match EntryCondition(v, schema, commonProperties, prefix, entries[i])
          case Err(err) => Err(err)
          case Ok(c) => Ok(cs + [c])
  {
    assert entries[..i + 1][..i] == entries[..i] && entries[..i + 1][i] == entries[i];
  }

  /** The first loop of `make_query`: a condition or a nested query per entry, paging keys
      passed over. */
  method AddConditions(q: Query, schema: Schema, commonProperties: set<string>, prefix: string, entries: seq<(string, Value)>) returns (r: Result<(), Error>)
    requires q.conditions == []
    modifies q
    ensures r.Ok? ==> Conditions(AsWritten, schema, commonProperties, prefix, entries) == Ok(q.conditions)
    ensures r.Err? ==> Conditions(AsWritten, schema, commonProperties, prefix, entries) == Err(r.error)
    ensures q.sort == old(q.sort) && q.limit == old(q.limit) && q.offset == old(q.offset)
    decreases entries, 0
  {
    var i := 0;
    while i < |entries|
      invariant 0 <= i <= |entries|
      invariant Conditions(AsWritten, schema, commonProperties, prefix, entries[..i]) == Ok(q.conditions)
      invariant q.sort == old(q.sort) && q.limit == old(q.limit) && q.offset == old(q.offset)
    {
      var e := entries[i];
      assert e in entries && e.1 < e;
      ConditionsStep(AsWritten, schema, commonProperties, prefix, entries, i);
      if prefix + e.0 !in Paging {
        if e.1.Dict? {
          var sub := MakeQuery(schema, commonProperties, prefix + e.0 + ".", e.1.entries, true);
          if sub.Err? {
            ConditionsErrorStops(AsWritten, schema, commonProperties, prefix, entries, i + 1);
            return Err(sub.error);
          }
          q.conditions := q.conditions + [Nested(sub.value.Snapshot())];
        } else {
          var parsed := ParseKeyAsWritten(prefix + e.0);
          if parsed.Err? {
            ConditionsErrorStops(AsWritten, schema, commonProperties, prefix, entries, i + 1);
            return Err(parsed.error);
          }
          q.AddCondition(parsed.value.0, parsed.value.1, None, e.1);
        }
      }
      i := i + 1;
    }
    assert entries[..i] == entries;
    r := Ok(());
  }

  /** The second loop of `make_query`: the datatype of every plain condition, in place. */
  method FillDatatypes(q: Query, t: Option<TypeInfo>)
    modifies q
    ensures q.conditions == WithDatatypes(t, old(q.conditions))
    ensures q.sort == old(q.sort) && q.limit == old(q.limit) && q.offset == old(q.offset)
  {
    ghost var cs := q.conditions;
    var j := 0;
    while j < |q.conditions|
      invariant 0 <= j <= |cs| == |q.conditions|
      invariant forall k :: 0 <= k < j ==> q.conditions[k] == Typed(t, cs[k])
      invariant forall k :: j <= k < |cs| ==> q.conditions[k] == cs[k]
      invariant q.sort == old(q.sort) && q.limit == old(q.limit) && q.offset == old(q.offset)
    {
      var c := q.conditions[j];
      if c.Cond? {
        q.conditions := q.conditions[j := c.(dtype := Some(FindDatatype(t, c.key, c.value)))];
      }
      j := j + 1;
    }
    assert q.conditions == WithDatatypes(t, cs);
  }

  /** `make_query(store, query, nested)` as written, building the `Query` object step by step. */
  method MakeQuery(schema: Schema, commonProperties: set<string>, prefix: string, entries: seq<(string, Value)>, nested: bool) returns (r: Result<Query, Error>)
    ensures r.Ok? ==> fresh(r.value) && MakeQuerySpec(AsWritten, schema, commonProperties, prefix, entries, nested) == Ok(r.value.Snapshot())
    ensures r.Err? ==> MakeQuerySpec(AsWritten, schema, commonProperties, prefix, entries, nested) == Err(r.error)
    decreases entries, 1
  {
    var q := new Query();
    q.offset := Lookup(prefix, entries, "offset").GetOr(Null);
    q.limit := CapLimit(Lookup(prefix, entries, "limit").GetOr(Int(1000)));
    var sort := Lookup(prefix, entries, "sort").GetOr(Null);
    var added := AddConditions(q, schema, commonProperties, prefix, entries);
    if added.Err? {
      return Err(added.error);
    }
    if !nested {
      var required := AssertTypeRequired(AsWritten, commonProperties, q.conditions);
      if required.Err? {
        return Err(required.error);
      }
    }
    var found := q.GetType();
    if found.Err? {
      return Err(found.error);
    }
    var t := StoreGet(schema, found.value);
    FillDatatypes(q, t);
    if Truthy(sort) {
      if !IsText(sort) {
        return Err(AttributeError);
      }
      var parsed := ParseKeyAsWritten(TextOf(sort));
      if parsed.Err? {
        return Err(parsed.error);
      }
      q.sort := Some(Sort(sort, Some(FindDatatype(t, TextOf(sort), Null))));
    }
    r := Ok(q);
  }

  /** A key that does not end in a two-character operator parses the same either way: its
      operator, if any, is the one one-character operator it ends with. */
  lemma ParseKeyAgrees(key: string)
    requires !EndsWith(key, "!=") && !EndsWith(key, "<=") && !EndsWith(key, ">=")
    ensures ParseKeyAsWritten(key) == ParseKey(key)
  {
    if EndsWith(key, "=") {
      ParseKeyAgreesEqual(key);
    } else if EndsWith(key, "<") {
      ParseKeyAgreesLess(key);
    } else if EndsWith(key, ">") {
      ParseKeyAgreesGreater(key);
    } else if EndsWith(key, "~") {
      ParseKeyAgreesTilde(key);
    } else {
      ParseKeyAgreesNone(key);
    }
  }

  lemma ParseKeyAgreesTilde(key: string)
    requires !EndsWith(key, "!=") && !EndsWith(key, "<=") && !EndsWith(key, ">=")
    requires !EndsWith(key, "=") && !EndsWith(key, "<") && !EndsWith(key, ">") && EndsWith(key, "~")
    ensures ParseKeyAsWritten(key) == ParseKey(key)
  {
    forall k | 0 <= k < 6
      ensures !EndsWith(key, OperatorsAsWritten[k]) && !EndsWith(key, Operators[k])
    {
      OperatorAt(k);
    }
    ParseKeyAgreesAt(key, 6, 6);
  }

  /** A key that ends in no operator is parsed alike: both orders find none. */
  lemma ParseKeyAgreesNone(key: string)
    requires !EndsWith(key, "!=") && !EndsWith(key, "<=") && !EndsWith(key, ">=")
    requires !EndsWith(key, "=") && !EndsWith(key, "<") && !EndsWith(key, ">") && !EndsWith(key, "~")
    ensures ParseKeyAsWritten(key) == ParseKey(key)
  {
    forall k | 0 <= k < 7
      ensures !EndsWith(key, OperatorsAsWritten[k]) && !EndsWith(key, Operators[k])
    {
      OperatorAt(k);
    }
    assert FirstSuffix(OperatorsAsWritten, key).None?;
    assert FirstSuffix(Operators, key).None?;
  }

  /** The k-th operator of each order. */
  lemma OperatorAt(k: nat)
    requires k < 7
    ensures OperatorsAsWritten[k] == ["=", "!=", "<", "<=", ">=", ">", "~"][k]
    ensures Operators[k] == ["!=", "<=", ">=", "=", "<", ">", "~"][k]
  {
  }

  lemma ParseKeyAgreesEqual(key: string)
    requires !EndsWith(key, "!=") && !EndsWith(key, "<=") && !EndsWith(key, ">=") && EndsWith(key, "=")
    ensures ParseKeyAsWritten(key) == ParseKey(key)
  {
    ParseKeyAgreesAt(key, 0, 3);
  }

  lemma ParseKeyAgreesLess(key: string)
    requires !EndsWith(key, "!=") && !EndsWith(key, "<=") && !EndsWith(key, ">=")
    requires !EndsWith(key, "=") && EndsWith(key, "<")
    ensures ParseKeyAsWritten(key) == ParseKey(key)
  {
    forall k | 0 <= k < 2
      ensures !EndsWith(key, OperatorsAsWritten[k])
    {
      assert OperatorsAsWritten[k] == if k == 0 then "=" else "!=";
    }
    forall k | 0 <= k < 4
      ensures !EndsWith(key, Operators[k])
    {
      assert Operators[k] == if k == 0 then "!=" else if k == 1 then "<=" else if k == 2 then ">=" else "=";
    }
    ParseKeyAgreesAt(key, 2, 4);
  }

  lemma ParseKeyAgreesGreater(key: string)
    requires !EndsWith(key, "!=") && !EndsWith(key, "<=") && !EndsWith(key, ">=")
    requires !EndsWith(key, "=") && !EndsWith(key, "<") && EndsWith(key, ">")
    ensures ParseKeyAsWritten(key) == ParseKey(key)
  {
    forall k | 0 <= k < 5
      ensures !EndsWith(key, OperatorsAsWritten[k])
    {
      assert OperatorsAsWritten[k] == if k == 0 then "=" else if k == 1 then "!=" else if k == 2 then "<" else if k == 3 then "<=" else ">=";
    }
    forall k | 0 <= k < 5
      ensures !EndsWith(key, Operators[k])
    {
      assert Operators[k] == if k == 0 then "!=" else if k == 1 then "<=" else if k == 2 then ">=" else if k == 3 then "=" else "<";
    }
    ParseKeyAgreesAt(key, 5, 5);
  }

  /** Both orders find the same operator when it is the first each of them tries. */
  lemma ParseKeyAgreesAt(key: string, j: nat, m: nat)
    requires j < |OperatorsAsWritten| && m < |Operators| && OperatorsAsWritten[j] == Operators[m]
    requires EndsWith(key, Operators[m])
    requires forall k :: 0 <= k < j ==> !EndsWith(key, OperatorsAsWritten[k])
    requires forall k :: 0 <= k < m ==> !EndsWith(key, Operators[k])
    ensures ParseKeyAsWritten(key) == ParseKey(key)
  {
    FirstSuffixAt(OperatorsAsWritten, key, j);
    FirstSuffixAt(Operators, key, m);
  }

  /** The condition of an entry whose value is not a dict. */
  lemma EntryPlain(v: Reading, schema: Schema, commonProperties: set<string>, prefix: string, e: (string, Value), k: string, op: string)
    requires !e.1.Dict? && ParseKeyIn(v, prefix + e.0) == Ok((k, op))
    ensures EntryCondition(v, schema, commonProperties, prefix, e) == Ok(Cond(k, op, None, e.1))
  {
  }

  /** The condition of an entry whose value is a dict: the nested query. */
  lemma EntryNested(v: Reading, schema: Schema, commonProperties: set<string>, prefix: string, e: (string, Value), q: QueryValue)
    requires e.1.Dict? && MakeQuerySpec(v, schema, commonProperties, prefix + e.0 + ".", e.1.entries, true) == Ok(q)
    ensures EntryCondition(v, schema, commonProperties, prefix, e) == Ok(Nested(q))
  {
  }

  /** The conditions of a query of one entry that is not a paging key. */
  lemma ConditionsOne(v: Reading, schema: Schema, commonProperties: set<string>, prefix: string, e: (string, Value), c: Condition)
    requires prefix + e.0 !in Paging && EntryCondition(v, schema, commonProperties, prefix, e) == Ok(c)
    ensures Conditions(v, schema, commonProperties, prefix, [e]) == Ok([c])
  {
    ConditionsStep(v, schema, commonProperties, prefix, [e], 0);
    assert [e][..0] == [] && [e][0] == e && [e][..1] == [e];
    assert Conditions(v, schema, commonProperties, prefix, [e][..0]) == Ok([]);
    assert [] + [c] == [c];
  }

  /** The conditions of a query of two entries that are not paging keys. */
  lemma ConditionsTwo(v: Reading, schema: Schema, commonProperties: set<string>, prefix: string, e0: (string, Value), e1: (string, Value), c0: Condition, c1: Condition)
    requires prefix + e0.0 !in Paging && EntryCondition(v, schema, commonProperties, prefix, e0) == Ok(c0)
    requires prefix + e1.0 !in Paging && EntryCondition(v, schema, commonProperties, prefix, e1) == Ok(c1)
    ensures Conditions(v, schema, commonProperties, prefix, [e0, e1]) == Ok([c0, c1])
  {
    ConditionsOne(v, schema, commonProperties, prefix, e0, c0);
    ConditionsSnoc(v, schema, commonProperties, prefix, [e0], e1, [c0], c1);
    assert [e0] + [e1] == [e0, e1] && [c0] + [c1] == [c0, c1];
  }

  /** One more entry that is not a paging key adds its condition at the end. */
  lemma ConditionsSnoc(v: Reading, schema: Schema, commonProperties: set<string>, prefix: string, init: seq<(string, Value)>, e: (string, Value), cs: seq<Condition>, c: Condition)
    requires Conditions(v, schema, commonProperties, prefix, init) == Ok(cs)
    requires prefix + e.0 !in Paging && EntryCondition(v, schema, commonProperties, prefix, e) == Ok(c)
    ensures Conditions(v, schema, commonProperties, prefix, init + [e]) == Ok(cs + [c])
  {
    var es := init + [e];
    assert es[..|es| - 1] == init && es[|es| - 1] == e;
  }

  /** The conditions of two top-level entries that are not dicts or paging keys. */
  lemma PlainTwo(v: Reading, schema: Schema, commonProperties: set<string>, e0: (string, Value), e1: (string, Value), c0: Condition, c1: Condition)
    requires !e0.1.Dict? && !e1.1.Dict? && e0.0 !in Paging && e1.0 !in Paging
    requires c0.Cond? && c0.dtype.None? && c0.value == e0.1 && c1.Cond? && c1.dtype.None? && c1.value == e1.1
    requires ParseKeyIn(v, e0.0) == Ok((c0.key, c0.op)) && ParseKeyIn(v, e1.0) == Ok((c1.key, c1.op))
    ensures Conditions(v, schema, commonProperties, "", [e0, e1]) == Ok([c0, c1])
    ensures Lookup("", [e0, e1], "offset").None? && Lookup("", [e0, e1], "limit").None? && Lookup("", [e0, e1], "sort").None?
  {
    assert "" + e0.0 == e0.0 && "" + e1.0 == e1.0;
    EntryPlain(v, schema, commonProperties, "", e0, c0.key, c0.op);
    EntryPlain(v, schema, commonProperties, "", e1, c1.key, c1.op);
    ConditionsTwo(v, schema, commonProperties, "", e0, e1, c0, c1);
    LookupTwo("", e0, e1, "offset");
    LookupTwo("", e0, e1, "limit");
    LookupTwo("", e0, e1, "sort");
  }

  lemma WithDatatypesTwo(t: Option<TypeInfo>, c0: Condition, c1: Condition)
    ensures WithDatatypes(t, [c0, c1]) == [Typed(t, c0), Typed(t, c1)]
  {
    assert WithDatatypes(t, [c0, c1])[0] == Typed(t, c0);
  }

  /** A name neither of two entries has. */
  lemma LookupTwo(prefix: string, e0: (string, Value), e1: (string, Value), name: string)
    requires prefix + e0.0 != name && prefix + e1.0 != name
    ensures Lookup(prefix, [e0, e1], name).None?
  {
    assert [e0, e1][1..] == [e1] && [e1][1..] == [];
    assert Lookup(prefix, [e1], name).None?;
  }

  /** A key ending in '=' is none of the paging keys. */
  lemma NotPaging(key: string)
    requires |key| > 0 && key[|key| - 1] == '='
    ensures key !in Paging && key != "offset" && key != "limit" && key != "sort"
  {
    assert "offset"[5] == 't' && "limit"[4] == 't' && "sort"[3] == 't';
  }

  /** 'type' is not a paging key. */
  lemma TypeNotPaging()
    ensures "type" !in Paging
  {
    assert "type"[0] == 't' && "offset"[0] == 'o' && "limit"[0] == 'l' && "sort"[0] == 's';
  }

  /** A query without paging keys whose conditions, type check and type lookup succeed. */
  lemma QueryWithoutPaging(v: Reading, schema: Schema, commonProperties: set<string>, prefix: string, entries: seq<(string, Value)>, nested: bool, cs: seq<Condition>, t: Option<TypeInfo>)
    requires Lookup(prefix, entries, "offset").None? && Lookup(prefix, entries, "limit").None? && Lookup(prefix, entries, "sort").None?
    requires Conditions(v, schema, commonProperties, prefix, entries) == Ok(cs)
    requires nested || AssertTypeRequired(v, commonProperties, cs).Ok?
    requires TypeOf(v, schema, cs) == Ok(t)
    ensures MakeQuerySpec(v, schema, commonProperties, prefix, entries, nested) == Ok(QueryValue(WithDatatypes(t, cs), None, Int(1000), Null))
  {
  }

  /** Conditions that start with one on the type '/type/page' pass the type check and look
      that type up, under either reading. */
  lemma TypeFirst(v: Reading, schema: Schema, commonProperties: set<string>, cs: seq<Condition>)
    requires |cs| > 0 && cs[0] == Cond("type", "=", None, Str("/type/page"))
    ensures AssertTypeRequired(v, commonProperties, cs).Ok? && TypeOf(v, schema, cs) == Ok(schema("/type/page"))
  {
    assert GetTypeAsWritten(cs) == Ok(Some(Str("/type/page")));
    assert GetType(cs) == Some(Str("/type/page"));
  }

  /** A plain name followed by '<=': as written the '<' stays on the name and the operator is
      '='; as intended the operator is '<='. */
  lemma ParseKeyLessEqual(name: string)
    requires PlainName(name)
    ensures ParseKeyAsWritten(name + "<=") == Ok((name + "<", "="))
    ensures ParseKey(name + "<=") == Ok((name, "<="))
  {
    var key := name + "<=";
    assert EndsWith(key, "=") by {
      assert key[|key| - 1..] == "=";
    }
    FirstSuffixAt(OperatorsAsWritten, key, 0);
    assert key[..|key| - 1] == name + "<";
    ParseKeyRoundTrip(name, "<=");
  }

  /** The query {'type': '/type/page', name + '<=': x} for a plain name and a value that is not
      a dict: as written it holds the condition name< = x; as intended, name <= x. */
  lemma MakeQueryRangeCondition(schema: Schema, commonProperties: set<string>, name: string, x: Value)
    requires PlainName(name) && !x.Dict?
    ensures
      var entries := [("type", Str("/type/page")), (name + "<=", x)];
      var t := schema("/type/page");
      var typeCond := Cond("type", "=", Some("ref"), Str("/type/page"));
      MakeQuerySpec(AsWritten, schema, commonProperties, "", entries, false) ==
        Ok(QueryValue([typeCond, Cond(name + "<", "=", Some(FindDatatype(t, name + "<", x)), x)], None, Int(1000), Null)) &&
      MakeQuerySpec(Intended, schema, commonProperties, "", entries, false) ==
        Ok(QueryValue([typeCond, Cond(name, "<=", Some(FindDatatype(t, name, x)), x)], None, Int(1000), Null))
  {
    RangeAsWritten(schema, commonProperties, name, x);
    RangeIntended(schema, commonProperties, name, x);
  }

  /** 'type' is a plain key under either reading. */
  lemma ParseKeyType(v: Reading)
    ensures ParseKeyIn(v, "type") == Ok(("type", "="))
  {
    ParseKeyPlainIn(v, "type");
  }

  /** A plain name is parsed alike under either reading. */
  lemma ParseKeyPlainIn(v: Reading, name: string)
    requires PlainName(name)
    ensures ParseKeyIn(v, name) == Ok((name, "="))
  {
    ParseKeyPlainBoth(name);
  }

  /** `ParseKeyIn` for a known reading. */
  lemma ParseKeyInReading(v: Reading, key: string)
    ensures v.AsWritten? ==> ParseKeyIn(v, key) == ParseKeyAsWritten(key)
    ensures v.Intended? ==> ParseKeyIn(v, key) == ParseKey(key)
  {
  }

  /** The as-written half of `MakeQueryRangeCondition`. */
  lemma RangeAsWritten(schema: Schema, commonProperties: set<string>, name: string, x: Value)
    requires PlainName(name) && !x.Dict?
    ensures MakeQuerySpec(AsWritten, schema, commonProperties, "", [("type", Str("/type/page")), (name + "<=", x)], false) ==
      Ok(QueryValue([Cond("type", "=", Some("ref"), Str("/type/page")), Cond(name + "<", "=", Some(FindDatatype(schema("/type/page"), name + "<", x)), x)], None, Int(1000), Null))
  {
    ParseKeyType(AsWritten);
    ParseKeyLessEqual(name);
    ParseKeyInReading(AsWritten, name + "<=");
    RangeQuery(AsWritten, schema, commonProperties, name, x, Cond(name + "<", "=", None, x));
  }

  /** The intended half of `MakeQueryRangeCondition`. */
  lemma RangeIntended(schema: Schema, commonProperties: set<string>, name: string, x: Value)
    requires PlainName(name) && !x.Dict?
    ensures MakeQuerySpec(Intended, schema, commonProperties, "", [("type", Str("/type/page")), (name + "<=", x)], false) ==
      Ok(QueryValue([Cond("type", "=", Some("ref"), Str("/type/page")), Cond(name, "<=", Some(FindDatatype(schema("/type/page"), name, x)), x)], None, Int(1000), Null))
  {
    ParseKeyType(Intended);
    ParseKeyLessEqual(name);
    ParseKeyInReading(Intended, name + "<=");
    RangeQuery(Intended, schema, commonProperties, name, x, Cond(name, "<=", None, x));
  }

  /** The query {'type': '/type/page', name + '<=': x} under a reading that parses its second
      key as the condition `c1`. */
  lemma RangeQuery(v: Reading, schema: Schema, commonProperties: set<string>, name: string, x: Value, c1: Condition)
    requires !x.Dict? && c1.Cond? && c1.dtype.None? && c1.value == x
    requires ParseKeyIn(v, "type") == Ok(("type", "=")) && ParseKeyIn(v, name + "<=") == Ok((c1.key, c1.op))
    ensures MakeQuerySpec(v, schema, commonProperties, "", [("type", Str("/type/page")), (name + "<=", x)], false) ==
      Ok(QueryValue([Cond("type", "=", Some("ref"), Str("/type/page")), Cond(c1.key, c1.op, Some(FindDatatype(schema("/type/page"), c1.key, x)), x)], None, Int(1000), Null))
  {
    var e0, e1 := ("type", Str("/type/page")), (name + "<=", x);
    var c0 := Cond("type", "=", None, Str("/type/page"));
    var t := schema("/type/page");
    NotPaging(e1.0);
    TypeNotPaging();
    TypeFirst(v, schema, commonProperties, [c0, c1]);
    TwoPlainQuery(v, schema, commonProperties, e0, e1, c0, c1, t);
    TypeDatatype(t, Str("/type/page"));
  }

  /** A top-level query of two plain entries that are not paging keys, once its type is known. */
  lemma TwoPlainQuery(v: Reading, schema: Schema, commonProperties: set<string>, e0: (string, Value), e1: (string, Value), c0: Condition, c1: Condition, t: Option<TypeInfo>)
    requires !e0.1.Dict? && !e1.1.Dict? && e0.0 !in Paging && e1.0 !in Paging
    requires c0.Cond? && c0.dtype.None? && c0.value == e0.1 && c1.Cond? && c1.dtype.None? && c1.value == e1.1
    requires ParseKeyIn(v, e0.0) == Ok((c0.key, c0.op)) && ParseKeyIn(v, e1.0) == Ok((c1.key, c1.op))
    requires AssertTypeRequired(v, commonProperties, [c0, c1]).Ok? && TypeOf(v, schema, [c0, c1]) == Ok(t)
    ensures MakeQuerySpec(v, schema, commonProperties, "", [e0, e1], false) ==
      Ok(QueryValue([Typed(t, c0), Typed(t, c1)], None, Int(1000), Null))
  {
    PlainTwo(v, schema, commonProperties, e0, e1, c0, c1);
    QueryWithoutPaging(v, schema, commonProperties, "", [e0, e1], false, [c0, c1], t);
    WithDatatypesTwo(t, c0, c1);
  }

  /** The condition on 'type' always has datatype 'ref'. */
  lemma TypeDatatype(t: Option<TypeInfo>, x: Value)
    ensures FindDatatype(t, "type", x) == "ref"
  {
    assert "type" in SpecialDatatypes && SpecialDatatypes["type"] == "ref";
  }

  /** The query {a: {b + '=': x}, 'type': '/type/page'}, kept in that order, for plain names a
      (not a paging key) and b and a value that is not a dict: as written, `get_type` stops at
      the nested query and raises AttributeError; as intended the query is built. */
  lemma MakeQueryNestedBeforeType(schema: Schema, commonProperties: set<string>, a: string, b: string, x: Value)
    requires PlainName(a) && PlainName(b) && a !in Paging && !x.Dict?
    ensures
      var nested := QueryValue([Cond(a + "." + b, "=", Some(FindDatatype(None, a + "." + b, x)), x)], None, Int(1000), Null);
      var entries := [(a, Dict([(b + "=", x)])), ("type", Str("/type/page"))];
      MakeQuerySpec(AsWritten, schema, commonProperties, "", entries, false) == Err(AttributeError) &&
      MakeQuerySpec(Intended, schema, commonProperties, "", entries, false) ==
        Ok(QueryValue([Nested(nested), Cond("type", "=", Some("ref"), Str("/type/page"))], None, Int(1000), Null))
  {
    var nq := QueryValue([Cond(a + "." + b, "=", Some(FindDatatype(None, a + "." + b, x)), x)], None, Int(1000), Null);
    var entries := [(a, Dict([(b + "=", x)])), ("type", Str("/type/page"))];
    var c1 := Cond("type", "=", None, Str("/type/page"));
    var cs := [Nested(nq), c1];
    NestedConditions(AsWritten, schema, commonProperties, a, b, x);
    NestedConditions(Intended, schema, commonProperties, a, b, x);
    assert GetTypeAsWritten(cs) == Err(AttributeError);
    WrittenTypeError(schema, commonProperties, "", entries, false, cs);
    TypeSecond(schema, commonProperties, cs);
    QueryWithoutPaging(Intended, schema, commonProperties, "", entries, false, cs, schema("/type/page"));
    WithDatatypesTwo(schema("/type/page"), Nested(nq), c1);
  }

  /** Whenever the written `get_type` fails on the conditions, `make_query` as written fails
      with AttributeError, in the type check or in the type lookup. */
  lemma WrittenTypeError(schema: Schema, commonProperties: set<string>, prefix: string, entries: seq<(string, Value)>, nested: bool, cs: seq<Condition>)
    requires Conditions(AsWritten, schema, commonProperties, prefix, entries) == Ok(cs) && GetTypeAsWritten(cs).Err?
    ensures MakeQuerySpec(AsWritten, schema, commonProperties, prefix, entries, nested) == Err(AttributeError)
  {
  }

  /** A nested query, then a condition on the type '/type/page': the intended reading passes
      the type check and looks that type up. */
  lemma TypeSecond(schema: Schema, commonProperties: set<string>, cs: seq<Condition>)
    requires |cs| == 2 && cs[0].Nested? && cs[1] == Cond("type", "=", None, Str("/type/page"))
    ensures AssertTypeRequired(Intended, commonProperties, cs).Ok? && TypeOf(Intended, schema, cs) == Ok(schema("/type/page"))
  {
    assert GetType(cs) == Some(Str("/type/page")) by {
      assert GetType(cs[1..]) == Some(Str("/type/page"));
    }
  }

  /** The conditions of the query above, under either reading: the nested query, then the
      type; and no paging key. */
  lemma NestedConditions(v: Reading, schema: Schema, commonProperties: set<string>, a: string, b: string, x: Value)
    requires PlainName(a) && PlainName(b) && a !in Paging && !x.Dict?
    ensures
      var nq := QueryValue([Cond(a + "." + b, "=", Some(FindDatatype(None, a + "." + b, x)), x)], None, Int(1000), Null);
      var entries := [(a, Dict([(b + "=", x)])), ("type", Str("/type/page"))];
      Conditions(v, schema, commonProperties, "", entries) == Ok([Nested(nq), Cond("type", "=", None, Str("/type/page"))]) &&
      Lookup("", entries, "offset").None? && Lookup("", entries, "limit").None? && Lookup("", entries, "sort").None?
  {
    var nq := QueryValue([Cond(a + "." + b, "=", Some(FindDatatype(None, a + "." + b, x)), x)], None, Int(1000), Null);
    NestedQuery(v, schema, commonProperties, a, b, x);
    var e0, e1 := (a, Dict([(b + "=", x)])), ("type", Str("/type/page"));
    NestedFirst(v, schema, commonProperties, e0, e1, nq);
  }

  /** The conditions of the query above: the nested query, then the type. */
  lemma NestedFirst(v: Reading, schema: Schema, commonProperties: set<string>, e0: (string, Value), e1: (string, Value), nq: QueryValue)
    requires e0.1.Dict? && e0.0 !in Paging && e1 == ("type", Str("/type/page"))
    requires MakeQuerySpec(v, schema, commonProperties, e0.0 + ".", e0.1.entries, true) == Ok(nq)
    requires ParseKeyIn(v, "type") == Ok(("type", "="))
    ensures Conditions(v, schema, commonProperties, "", [e0, e1]) == Ok([Nested(nq), Cond("type", "=", None, Str("/type/page"))])
    ensures Lookup("", [e0, e1], "offset").None? && Lookup("", [e0, e1], "limit").None? && Lookup("", [e0, e1], "sort").None?
  {
    assert "" + e0.0 == e0.0 && "" + e1.0 == e1.0 && "" + e0.0 + "." == e0.0 + ".";
    EntryNested(v, schema, commonProperties, "", e0, nq);
    EntryPlain(v, schema, commonProperties, "", e1, "type", "=");
    TypeNotPaging();
    ConditionsTwo(v, schema, commonProperties, "", e0, e1, Nested(nq), Cond("type", "=", None, Str("/type/page")));
    LookupTwo("", e0, e1, "offset");
    LookupTwo("", e0, e1, "limit");
    LookupTwo("", e0, e1, "sort");
  }

  /** The nested query {a + '.' + b + '=': x} of the query above, under either reading. */
  lemma NestedQuery(v: Reading, schema: Schema, commonProperties: set<string>, a: string, b: string, x: Value)
    requires PlainName(a) && PlainName(b) && !x.Dict?
    ensures MakeQuerySpec(v, schema, commonProperties, a + ".", [(b + "=", x)], true) ==
      Ok(QueryValue([Cond(a + "." + b, "=", Some(FindDatatype(None, a + "." + b, x)), x)], None, Int(1000), Null))
    ensures ParseKeyIn(v, "type") == Ok(("type", "="))
  {
    ParseKeyPlainBoth("type");
    var e := (b + "=", x);
    var nc := Cond(a + "." + b, "=", None, x);
    NestedCondition(v, schema, commonProperties, a, b, x);
    NoType(a, b, nc);
    QueryWithoutPaging(v, schema, commonProperties, a + ".", [e], true, [nc], None);
    assert WithDatatypes(None, [nc]) == [Typed(None, nc)];
  }

  /** A single plain condition on a key with a dot in it gives no type. */
  lemma NoType(a: string, b: string, nc: Condition)
    requires nc.Cond? && nc.key == a + "." + b
    ensures GetTypeAsWritten([nc]) == Ok(None) && GetType([nc]) == None
  {
    NotType(a, b);
    assert [nc][1..] == [] && [nc][0] == nc;
  }

  /** The one condition of the nested query, and no paging key in it. */
  lemma NestedCondition(v: Reading, schema: Schema, commonProperties: set<string>, a: string, b: string, x: Value)
    requires PlainName(a) && PlainName(b) && !x.Dict?
    ensures Conditions(v, schema, commonProperties, a + ".", [(b + "=", x)]) == Ok([Cond(a + "." + b, "=", None, x)])
    ensures Lookup(a + ".", [(b + "=", x)], "offset").None? && Lookup(a + ".", [(b + "=", x)], "limit").None?
    ensures Lookup(a + ".", [(b + "=", x)], "sort").None?
  {
    var key := a + "." + (b + "=");
    assert a + "." + (b + "=") == (a + "." + b) + "=";
    NestedKey(a + "." + b);
    var e := (b + "=", x);
    var nc := Cond(a + "." + b, "=", None, x);
    NotPaging(key);
    EntryPlain(v, schema, commonProperties, a + ".", e, nc.key, nc.op);
    ConditionsOne(v, schema, commonProperties, a + ".", e, nc);
  }

  /** A key whose last character is not one of '!', '<', '>' followed by '=' parses to
      itself and '=' under either order. */
  lemma NestedKey(k: string)
    requires |k| > 0 && k[|k| - 1] !in {'!', '<', '>'}
    ensures ParseKeyAsWritten(k + "=") == Ok((k, "=")) && ParseKey(k + "=") == Ok((k, "="))
  {
    var key := k + "=";
    assert EndsWith(key, "=") by {
      assert key[|key| - 1..] == "=";
    }
    FirstSuffixAt(OperatorsAsWritten, key, 0);
    assert key[..|key| - 1] == k;
    forall op | op in Shadowed
      ensures !EndsWith(key, op)
    {
      if EndsWith(key, op) {
        EndsWithLast(key, op);
      }
    }
    ParseKeyAgrees(key);
  }

  /** A key with a dot in it is not 'type'. */
  lemma NotType(a: string, b: string)
    ensures a + "." + b != "type"
  {
    var k := a + "." + b;
    assert k[|a|] == '.';
  }

  /** The columns of a versions query. */
  const VersionColumns: seq<string> := ["key", "type", "revision", "author", "comment", "machine_comment", "ip", "created"]

  /** The conditions of `make_versions_query`: one equality per entry, AssertionError on a key
      outside the columns. */
  function VersionConditions(entries: seq<(string, Value)>): (r: Result<seq<Condition>, Error>)
    ensures r.Ok? <==> forall i :: 0 <= i < |entries| && entries[i].0 !in Paging ==> entries[i].0 in VersionColumns
    ensures r.Err? ==> r.error == AssertionError
    ensures r.Ok? ==> forall c :: c in r.value ==> c.Cond? && c.op == "=" && c.dtype.None? && c.key in VersionColumns
  {
    if entries == [] then Ok([])
    else
      var e := entries[|entries| - 1];
      var init := entries[..|entries| - 1];
      assert forall i :: 0 <= i < |init| ==> init[i] == entries[i];
      match VersionConditions(init)
      case Err(err) => Err(err)
      case Ok(cs) =>
        if e.0 in Paging then Ok(cs)
        else if e.0 !in VersionColumns then Err(AssertionError)
        else Ok(cs + [Cond(e.0, "=", None, e.1)])
  }

  /** `make_versions_query(store, query)`: paging popped (the sort kept as given), then one
      equality condition per column. */
  function MakeVersionsQuery(entries: seq<(string, Value)>): (r: Result<QueryValue, Error>)
    ensures r.Ok? <==> forall i :: 0 <= i < |entries| && entries[i].0 !in Paging ==> entries[i].0 in VersionColumns
    ensures r.Ok? ==> r.value.limit == CapLimit(Lookup("", entries, "limit").GetOr(Int(1000)))
    ensures r.Ok? ==> r.value.offset == Lookup("", entries, "offset").GetOr(Null)
    ensures r.Ok? ==> (r.value.sort.None? <==> Lookup("", entries, "sort").GetOr(Null) == Null)
  {
    var sort := Lookup("", entries, "sort").GetOr(Null);
    match VersionConditions(entries)
    case Err(err) => Err(err)
    case Ok(cs) =>
      Ok(QueryValue(cs, if sort == Null then None else Some(Sort(sort, None)),
        CapLimit(Lookup("", entries, "limit").GetOr(Int(1000))), Lookup("", entries, "offset").GetOr(Null)))
  }
}
