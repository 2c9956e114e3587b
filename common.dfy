/** Datatype tagging of Infobase values (infogami/infobase/common.py): the mapping between
    primitive type keys and datatype tags, the older `Thing` that stores `(datatype, value)`
    pairs and converts them to and from JSON, the condition list `Query`, and `prepr`. */
module Common {
  import opened Wrappers
  import opened Json
  import opened Strings

  /** `primitive_types`, in the source's order. */
  const PrimitiveTypes: seq<string> :=
    ["/type/key", "/type/string", "/type/text", "/type/int", "/type/float", "/type/boolean", "/type/datetime"]

  /** The tag of each primitive type (`_datatypes`). */
  const Datatypes: map<string, string> := map[
    "/type/key" := "key", "/type/string" := "str", "/type/text" := "text", "/type/int" := "int",
    "/type/float" := "float", "/type/boolean" := "boolean", "/type/datetime" := "datetime"]

  /** `type2datatype`: the tag of a primitive type, 'ref' for every other type. */
  function Type2Datatype(t: string): (dt: string)
    ensures t in PrimitiveTypes ==> dt != "ref" && dt == Datatypes[t]
    ensures t !in PrimitiveTypes ==> dt == "ref"
  {
    if t in Datatypes then Datatypes[t] else "ref"
  }

  /** `datatype2type`: the inverse of `_datatypes` (`_types.get`), None for 'ref' and unknown tags. */
  function Datatype2Type(dt: string): (t: Option<string>)
    ensures t.Some? ==> t.value in PrimitiveTypes && Datatypes[t.value] == dt
    ensures t.None? ==> dt !in Datatypes.Values
  {
    if dt == "key" then Some("/type/key")
    else if dt == "str" then Some("/type/string")
    else if dt == "text" then Some("/type/text")
    else if dt == "int" then Some("/type/int")
    else if dt == "float" then Some("/type/float")
    else if dt == "boolean" then Some("/type/boolean")
    else if dt == "datetime" then Some("/type/datetime")
    else None
  }

  /** The two tables are inverse on the primitive types; every other type is a reference. */
  lemma DatatypeRoundTrip(t: string)
    ensures t in PrimitiveTypes <==> Datatype2Type(Type2Datatype(t)) == Some(t)
    ensures t !in PrimitiveTypes ==> Datatype2Type(Type2Datatype(t)) == None
  {
  }

  /** A JSON value as the old `Thing` holds it: what the caller passed, where a thing object
      (`Thing`) is distinguished from a plain value. */
  datatype Obj = ThingObj(key: string) | Plain(v: Value) | Objs(items: seq<Obj>)

  /** `unthing`: a thing becomes its key. */
  function Unthing(x: Obj): (r: Value)
    ensures x.ThingObj? ==> r == Str(x.key)
  {
    match x
    case ThingObj(k) => Str(k)
    case Plain(v) => v
    case Objs(items) => List(seq(|items|, i requires 0 <= i < |items| => Unthing(items[i])))
  }

  /** A store as the things it holds, by key. */
  type Store = string -> Option<Value>

  /** The old `Thing`: a key, metadata and `name -> (datatype, value)` data. */
  class Thing {
    const store: Store
    const key: string
    var metadata: map<string, Value>
    var data: map<string, (string, Value)>

    constructor (store: Store, key: string, metadata: map<string, Value>, data: map<string, (string, Value)>)
      ensures this.store == store && this.key == key && this.metadata == metadata && this.data == data
    {
      this.store := store;
      this.key := key;
      this.metadata := metadata;
      this.data := data;
    }

    /** `get_value(name)`: None when absent; a 'ref' value (or list of them) is looked up in the store. */
    function GetValue(name: string): (r: Value)
      reads this
      ensures name !in data ==> r == Null
      ensures name in data && data[name].0 != "ref" ==> r == data[name].1
      ensures name in data && data[name].0 == "ref" && data[name].1.List? ==>
        r.List? && |r.items| == |data[name].1.items|
    {
      if name !in data then Null
      else
        var dtype := data[name].0;
        var value := data[name].1;
        if dtype == "ref" then
          if value.List? then
            var st := store;
            List(seq(|value.items|, i requires 0 <= i < |value.items| => Deref(st, value.items[i])))
          else Deref(store, value)
        else value
    }

    /** `set(name, value, datatype)`: a 'ref' keeps keys, never thing objects; a single ref
        that is not a thing has no `.key` (AttributeError) and nothing is written. */
    method Set(name: string, value: Obj, dtype: string) returns (r: Result<(), string>)
      modifies this
      ensures metadata == old(metadata)
      ensures r.Err? <==> dtype == "ref" && !value.Objs? && !value.ThingObj?
      ensures r.Err? ==> data == old(data)
      ensures r.Ok? ==> data == old(data)[name := (dtype, StoredForm(value, dtype))]
    {
      if dtype == "ref" && !value.Objs? && !value.ThingObj? {
        return Err("AttributeError");
      }
      data := data[name := (dtype, StoredForm(value, dtype))];
      r := Ok(());
    }

    /** `name in thing`: 'key' is always there. */
    function Contains(name: string): (b: bool)
      reads this
      ensures name == "key" ==> b
      ensures b <==> name == "key" || name in metadata || name in data
    {
      name == "key" || name in metadata || name in data
    }
  }

  /** `store.get(v)`: None for a key the store does not hold. */
  function Deref(store: Store, v: Value): Value {
    if v.Str? && store(v.s).Some? then store(v.s).value else Null
  }

  /** What `set` stores for a value of the given datatype. */
  function StoredForm(value: Obj, dtype: string): Value {
    if dtype == "ref" then
      match value
      case Objs(items) => List(seq(|items|, i requires 0 <= i < |items| => Unthing(items[i])))
      case ThingObj(k) => Str(k)
      case Plain(v) => v
    else Unthing(value)
  }

  /** A stored reference never holds a thing object: a list of things becomes the list of their keys. */
  lemma RefStoresKeys(keys: seq<string>)
    ensures StoredForm(Objs(seq(|keys|, i requires 0 <= i < |keys| => ThingObj(keys[i]))), "ref")
         == List(seq(|keys|, i requires 0 <= i < |keys| => Str(keys[i])))
  {
  }

  /** `to_json` on one `(datatype, value)`: a ref as `{'key': v}`, int/boolean/float/str/key bare,
      every other datatype as `{'type': datatype2type(datatype), 'value': v}`. */
  function ToJsonValue(dtype: string, v: Value): Value {
    if dtype == "ref" then Dict([("key", v)])
    else if dtype in ["int", "boolean", "float", "str", "key"] then v
    else Dict([("type", match Datatype2Type(dtype) case Some(t) => Str(t) case None => Null), ("value", v)])
  }

  /** `to_json` (before serialisation): the data as a dictionary. */
  function ToJson(data: seq<(string, (string, Value))>): (r: seq<(string, Value)>)
    ensures Keys(r) == Keys(data)
  {
    if data == [] then []
    else [(data[0].0, ToJsonValue(data[0].1.0, data[0].1.1))] + ToJson(data[1..])
  }

  /** `from_json` on one value: bool, int, float; a dict with 'key' is a ref, a dict with 'type'
      gets that type's datatype (KeyError without 'type' or 'value'); everything else, a `long`
      included, is 'str'. */
  function FromJsonValue(v: Value): (r: Result<(string, Value), string>)
    ensures v.Bool? ==> r == Ok(("boolean", v))
    ensures v.Int? ==> r == Ok((if IsShortInt(v.i) then "int" else "str", v))
    ensures v.Float? ==> r == Ok(("float", v))
    ensures !v.Bool? && !v.Int? && !v.Float? && !v.Dict? ==> r == Ok(("str", v))
  {
    match v
    case Bool(_) => Ok(("boolean", v))
    case Int(i) => if IsShortInt(i) then Ok(("int", v)) else Ok(("str", v))
    case Float(_) => Ok(("float", v))
    case Dict(entries) =>
      if HasKey(entries, "key") then Ok(("ref", Get(entries, "key").value))
      else
        var t := Get(entries, "type");
        var value := Get(entries, "value");
        if t.None? || value.None? then Err("KeyError")
        else Ok((Type2Datatype(TypeName(t.value)), value.value))
    case _ => Ok(("str", v))
  }

  /** The type named in a `{'type': ...}` dict; None and non-strings name no primitive type. */
  function TypeName(t: Value): string {
    if t.Str? then t.s else "ref"
  }

  /** `from_json`: every entry tagged, or the first KeyError. */
  function FromJson(d: seq<(string, Value)>): (r: Result<seq<(string, (string, Value))>, string>)
    ensures r.Ok? ==> Keys(r.value) == Keys(d)
  {
    if d == [] then Ok([])
    else
      match FromJsonValue(d[0].1)
      case Err(e) => Err(e)
      case Ok(tagged) =>
        match FromJson(d[1..])
        case Err(e) => Err(e)
        case Ok(rest) => Ok([(d[0].0, tagged)] + rest)
  }

  /** A `(datatype, value)` pair whose value has the shape its datatype promises. */
  predicate WellTyped(dtype: string, v: Value) {
    if dtype == "int" then v.Int?
    else if dtype == "boolean" then v.Bool?
    else if dtype == "float" then v.Float?
    else if dtype in ["str", "key"] then !v.Bool? && !v.Int? && !v.Float? && !v.Dict?
    else dtype == "ref" || dtype in Datatypes.Values
  }

  /** What a tagged value reads back as after a JSON round trip: 'key' comes back as 'str',
      and so does an 'int' too large for a Python 2 `int`. */
  function AfterRoundTrip(dtype: string, v: Value): string {
    if dtype == "key" || (dtype == "int" && v.Int? && !IsShortInt(v.i)) then "str" else dtype
  }

  /** One value survives `to_json` then `from_json`, except that a 'key' and a `long` 'int'
      become 'str'. */
  lemma RoundTripValue(dtype: string, v: Value)
    requires WellTyped(dtype, v)
    ensures FromJsonValue(ToJsonValue(dtype, v)) == Ok((AfterRoundTrip(dtype, v), v))
  {
    if dtype == "ref" {
      var d := [("key", v)];
      assert Keys(d) == ["key"];
      assert Get(d, "key") == Some(v);
    } else if dtype !in ["int", "boolean", "float", "str", "key"] {
      var t := Datatype2Type(dtype).value;
      var d := [("type", Str(t)), ("value", v)];
      assert Keys(d) == ["type", "value"];
      assert !HasKey(d, "key");
      assert Get(d, "type") == Some(Str(t));
      assert Get(d[1..], "value") == Some(v);
      assert Get(d, "value") == Some(v);
      assert Type2Datatype(t) == dtype;
    }
  }

  /** The data with every 'key' datatype, and every `long` 'int', read back as 'str'. */
  function Retagged(data: seq<(string, (string, Value))>): (r: seq<(string, (string, Value))>)
    ensures |r| == |data|
    ensures forall i :: 0 <= i < |data| ==> r[i] == (data[i].0, (AfterRoundTrip(data[i].1.0, data[i].1.1), data[i].1.1))
  {
    if data == [] then [] else [(data[0].0, (AfterRoundTrip(data[0].1.0, data[0].1.1), data[0].1.1))] + Retagged(data[1..])
  }

  /** `Thing.from_json(to_json(thing))` gives back the data of a well-typed thing, with the
      datatype 'key', and an 'int' that comes back as a `long`, read back as 'str'. */
  lemma {:induction false} RoundTrip(data: seq<(string, (string, Value))>)
    requires forall i :: 0 <= i < |data| ==> WellTyped(data[i].1.0, data[i].1.1)
    ensures FromJson(ToJson(data)) == Ok(Retagged(data))
  {
    if data != [] {
      RoundTripValue(data[0].1.0, data[0].1.1);
      RoundTrip(data[1..]);
      var j := ToJson(data);
      assert j[0] == (data[0].0, ToJsonValue(data[0].1.0, data[0].1.1));
      assert j[1..] == ToJson(data[1..]);
    }
  }

  /** A condition of a query: key, operator, datatype and value. */
  datatype Condition = Condition(key: string, op: string, dtype: string, value: Value)

  class Query {
    var conditions: seq<Condition>

    constructor (conditions: seq<Condition>)
      ensures this.conditions == conditions
    {
      this.conditions := conditions;
    }

    /** `add_condition`: appends, keeping the earlier conditions in order. */
    method AddCondition(key: string, op: string, dtype: string, value: Value)
      modifies this
      ensures conditions == old(conditions) + [Condition(key, op, dtype, value)]
    {
      conditions := conditions + [Condition(key, op, dtype, value)];
    }

    /** `get_type`: the value of the first condition on 'type', if any. */
    function GetType(): (r: Option<Value>)
      reads this
    {
      FirstType(conditions)
    }
  }

  function FirstType(cs: seq<Condition>): (r: Option<Value>)
    ensures r.None? <==> forall i :: 0 <= i < |cs| ==> cs[i].key != "type"
    ensures r.Some? ==> exists i :: 0 <= i < |cs| && cs[i].key == "type" && cs[i].value == r.value &&
                                    forall j :: 0 <= j < i ==> cs[j].key != "type"
  {
    if cs == [] then None
    else if cs[0].key == "type" then Some(cs[0].value)
    else
      var r := FirstType(cs[1..]);
      if r.Some? then
        var i :| 0 <= i < |cs[1..]| && cs[1..][i].key == "type" && cs[1..][i].value == r.value &&
          forall j :: 0 <= j < i ==> cs[1..][j].key != "type";
        assert cs[i + 1].key == "type" && forall j :: 0 <= j < i + 1 ==> cs[j].key != "type";
        r
      else r
  }

  /** Adding conditions never changes a type already found, and a first type condition sets it. */
  lemma GetTypeAfterAdd(cs: seq<Condition>, c: Condition)
    ensures FirstType(cs).Some? ==> FirstType(cs + [c]) == FirstType(cs)
    ensures FirstType(cs).None? && c.key == "type" ==> FirstType(cs + [c]) == Some(c.value)
  {
    if FirstType(cs).Some? {
      var i :| 0 <= i < |cs| && cs[i].key == "type" && cs[i].value == FirstType(cs).value &&
        forall j :: 0 <= j < i ==> cs[j].key != "type";
      FirstTypeAt(cs + [c], i);
      FirstTypeAt(cs, i);
    } else if c.key == "type" {
      FirstTypeAt(cs + [c], |cs|);
    }
  }

  lemma {:induction false} FirstTypeAt(cs: seq<Condition>, i: nat)
    requires i < |cs| && cs[i].key == "type" && forall j :: 0 <= j < i ==> cs[j].key != "type"
    ensures FirstType(cs) == Some(cs[i].value)
  {
    if i > 0 {
      FirstTypeAt(cs[1..], i - 1);
    }
  }

  // ---------------------------------------------------------------- repr of strings

  /** The quote Python's `repr` puts around a string: a double quote when the text holds a
      single quote and no double quote, a single quote otherwise. */
  function QuoteFor(s: string): (q: char)
    ensures q == '\'' || q == '"'
    ensures q == '"' <==> '\'' in s && '"' !in s
  {
    if '\'' in s && '"' !in s then '"' else '\''
  }

  predicate IsHexDigit(c: char) {
    '0' <= c <= '9' || 'a' <= c <= 'f'
  }

  function HexDigit(n: nat): (c: char)
    requires n < 16
    ensures IsHexDigit(c)
  {
    if n < 10 then ('0' as int + n) as char else ('a' as int + n - 10) as char
  }

  function HexValue(c: char): (n: nat)
    requires IsHexDigit(c)
    ensures n < 16
  {
    if c <= '9' then c as int - '0' as int else c as int - 'a' as int + 10
  }

  function Pow16(width: nat): (p: nat)
    ensures p >= 1
  {
    if width == 0 then 1 else 16 * Pow16(width - 1)
  }

  /** `'%0<width>x' % n`: `width` lower-case hex digits. */
  function Hex(n: nat, width: nat): (r: string)
    ensures |r| == width && forall i :: 0 <= i < |r| ==> IsHexDigit(r[i])
  {
    if width == 0 then [] else Hex(n / 16, width - 1) + [HexDigit(n % 16)]
  }

  function ParseHex(s: string): nat
    requires forall i :: 0 <= i < |s| ==> IsHexDigit(s[i])
  {
    if s == [] then 0 else ParseHex(s[..|s| - 1]) * 16 + HexValue(s[|s| - 1])
  }

  /** How `repr` writes one character inside the quote `q`: the quote and the backslash
      behind a backslash, tab, newline and carriage return by name, other control and
      non-ASCII characters by their code (`\\x`, `\\u` or `\\U` as it needs two, four or eight
      hex digits), and every other character as itself. */
  function EscapeChar(c: char, q: char): string {
    if c == q || c == '\\' then ['\\', c]
    else if c == '\t' then "\\t"
    else if c == '\n' then "\\n"
    else if c == '\r' then "\\r"
    else if c as int >= 0x10000 then "\\U" + Hex(c as int, 8)
    else if c as int >= 0x100 then "\\u" + Hex(c as int, 4)
    else if c < ' ' || c as int >= 0x7f then "\\x" + Hex(c as int, 2)
    else [c]
  }

  function Escaped(s: string, q: char): string {
    if s == [] then [] else EscapeChar(s[0], q) + Escaped(s[1..], q)
  }

  /** `repr` of a Python 2 string: a `unicode` string (`unicode` set) carries the `u` prefix,
      a byte string does not. */
  function StrRepr(s: string, unicode: bool): string {
    var q := QuoteFor(s);
    (if unicode then "u" else "") + [q] + Escaped(s, q) + [q]
  }

  /** Reading a `repr` body back: the reverse of `Escaped`; None for a bare quote, an
      unknown escape or a code that is not a character. */
  function Unescape(t: string, q: char): Option<string>
    decreases |t|
  {
    if t == [] then Some([])
    else if t[0] == q then None
    else if t[0] != '\\' then Cons(t[0], Unescape(t[1..], q))
    else if |t| < 2 then None
    else if t[1] == q || t[1] == '\\' then Cons(t[1], Unescape(t[2..], q))
    else if t[1] == 't' then Cons('\t', Unescape(t[2..], q))
    else if t[1] == 'n' then Cons('\n', Unescape(t[2..], q))
    else if t[1] == 'r' then Cons('\r', Unescape(t[2..], q))
    else if t[1] == 'x' then UnescapeCode(t, 2, q)
    else if t[1] == 'u' then UnescapeCode(t, 4, q)
    else if t[1] == 'U' then UnescapeCode(t, 8, q)
    else None
  }

  /** An escape of `width` hex digits after its two-character lead, then the rest. */
  function UnescapeCode(t: string, width: nat, q: char): Option<string>
    requires |t| >= 2
    decreases |t|, 0
  {
    if |t| < 2 + width then None else CodeChar(t[2..2 + width], Unescape(t[2 + width..], q))
  }

  /** The character whose code the hex digits `h` spell, before what the rest reads as. */
  function CodeChar(h: string, rest: Option<string>): Option<string> {
    if exists i :: 0 <= i < |h| && !IsHexDigit(h[i]) then None
    else
      var n := ParseHex(h);
      if n < 0xD800 || 0xE000 <= n < 0x11_0000 then Cons(n as char, rest) else None
  }

  function Cons(c: char, r: Option<string>): Option<string> {
    if r.None? then None else Some([c] + r.value)
  }

  lemma {:induction false} HexRoundTrip(n: nat, width: nat)
    requires n < Pow16(width)
    ensures ParseHex(Hex(n, width)) == n
  {
    if width > 0 {
      HexRoundTrip(n / 16, width - 1);
      var h := Hex(n, width);
      assert h[..|h| - 1] == Hex(n / 16, width - 1);
    }
  }

  /** The code of every character fits in eight hex digits. */
  lemma CharFits(c: char)
    ensures c as int < Pow16(8)
  {
    assert Pow16(8) == 0x1_0000_0000 by {
      assert Pow16(4) == 0x1_0000;
    }
  }

  /** A coded escape reads back as its character, followed by whatever the rest reads as. */
  lemma CodeStep(c: char, lead: char, width: nat, rest: string, q: char)
    requires c as int < Pow16(width) && (q == '\'' || q == '"')
    requires lead == 'x' || lead == 'u' || lead == 'U'
    requires width == (if lead == 'x' then 2 else if lead == 'u' then 4 else 8)
    ensures Unescape(['\\', lead] + Hex(c as int, width) + rest, q) == Cons(c, Unescape(rest, q))
  {
    var t := ['\\', lead] + Hex(c as int, width) + rest;
    UnescapeLead(t, lead, width, q);
    assert t[2..2 + width] == Hex(c as int, width);
    assert t[2 + width..] == rest;
    HexRoundTrip(c as int, width);
  }

  /** A backslash and a code letter start a coded escape. */
  lemma UnescapeLead(t: string, lead: char, width: nat, q: char)
    requires |t| >= 2 && t[0] == '\\' && t[1] == lead && (q == '\'' || q == '"')
    requires lead == 'x' || lead == 'u' || lead == 'U'
    requires width == (if lead == 'x' then 2 else if lead == 'u' then 4 else 8)
    ensures Unescape(t, q) == UnescapeCode(t, width, q)
  {
  }

  /** One escaped character reads back as itself, followed by whatever the rest reads as. */
  lemma EscapeStep(c: char, rest: string, q: char)
    requires q == '\'' || q == '"'
    ensures Unescape(EscapeChar(c, q) + rest, q) == Cons(c, Unescape(rest, q))
  {
    var t := EscapeChar(c, q) + rest;
    if c == q || c == '\\' || c == '\t' || c == '\n' || c == '\r' {
      assert t[2..] == rest;
    } else if c as int >= 0x10000 {
      CharFits(c);
      CodeStep(c, 'U', 8, rest, q);
    } else if c as int >= 0x100 {
      assert Pow16(4) == 0x1_0000;
      CodeStep(c, 'u', 4, rest, q);
    } else if c < ' ' || c as int >= 0x7f {
      assert Pow16(2) == 0x100;
      CodeStep(c, 'x', 2, rest, q);
    } else {
      assert t[1..] == rest;
    }
  }

  /** The body of a `repr` reads back as the string. */
  lemma {:induction false} EscapedRoundTrip(s: string, q: char)
    requires q == '\'' || q == '"'
    ensures Unescape(Escaped(s, q), q) == Some(s)
  {
    if s != [] {
      EscapedRoundTrip(s[1..], q);
      EscapeStep(s[0], Escaped(s[1..], q), q);
      assert [s[0]] + s[1..] == s;
    }
  }

  /** Text made only of printable ASCII characters, space to tilde. */
  predicate Printable(t: string) {
    forall i :: 0 <= i < |t| ==> ' ' <= t[i] && t[i] as int < 0x7f
  }

  lemma PrintableAppend(a: string, b: string)
    requires Printable(a) && Printable(b)
    ensures Printable(a + b)
  {
  }

  /** Every escape is printable ASCII, and a character stands for itself exactly when it is
      printable ASCII other than the quote and the backslash. */
  lemma EscapeCharPrintable(c: char, q: char)
    requires q == '\'' || q == '"'
    ensures Printable(EscapeChar(c, q))
    ensures EscapeChar(c, q) == [c] <==> ' ' <= c && c as int < 0x7f && c != q && c != '\\'
  {
  }

  /** The escaped body of a `repr` is printable ASCII. */
  lemma {:induction false} EscapedPrintable(s: string, q: char)
    requires q == '\'' || q == '"'
    ensures Printable(Escaped(s, q))
  {
    if s != [] {
      EscapedPrintable(s[1..], q);
      EscapeCharPrintable(s[0], q);
      PrintableAppend(EscapeChar(s[0], q), Escaped(s[1..], q));
    }
  }

  /** `repr` of a string is its quote, the escaped text that reads back as the string, and
      the same quote, behind a `u` for a unicode string; all of it is printable ASCII. */
  lemma ReprRoundTrip(s: string, unicode: bool)
    ensures var r, p := StrRepr(s, unicode), if unicode then 1 else 0;
      |r| >= p + 2 && r[..p] == (if unicode then "u" else "")
      && r[p] == r[|r| - 1] == QuoteFor(s)
      && Unescape(r[p + 1..|r| - 1], r[p]) == Some(s)
      && Printable(r)
  {
    var q := QuoteFor(s);
    var p := if unicode then 1 else 0;
    var r := StrRepr(s, unicode);
    assert r[p + 1..|r| - 1] == Escaped(s, q);
    EscapedRoundTrip(s, q);
    EscapedPrintable(s, q);
    PrintableAppend((if unicode then "u" else "") + [q], Escaped(s, q));
    PrintableAppend((if unicode then "u" else "") + [q] + Escaped(s, q), [q]);
  }

  /** Printable ASCII without quote or backslash is shown between single quotes as it is,
      as in the `pprint` doctests. */
  lemma {:induction false} ReprPlain(s: string)
    requires forall i :: 0 <= i < |s| ==> ' ' <= s[i] && s[i] as int < 0x7f && s[i] != '\'' && s[i] != '\\'
    ensures StrRepr(s, false) == "'" + s + "'" && StrRepr(s, true) == "u'" + s + "'"
  {
    PlainEscaped(s);
  }

  lemma {:induction false} PlainEscaped(s: string)
    requires forall i :: 0 <= i < |s| ==> ' ' <= s[i] && s[i] as int < 0x7f && s[i] != '\'' && s[i] != '\\'
    ensures Escaped(s, '\'') == s
  {
    if s != [] {
      PlainEscaped(s[1..]);
      assert [s[0]] + s[1..] == s;
    }
  }

  /** `repr` of an atom: the string forms as Python 2 writes them (`Text` and `Reference` are
      unicode, their own `__repr__` wraps the text's); a `long` ends in 'L'; floats are
      rendered by the given function. */
  function Repr(v: Value, floatRepr: real -> string): (r: string)
    ensures v.Str? ==> |r| >= 2 && r[0] == r[|r| - 1] == QuoteFor(v.s) && Unescape(r[1..|r| - 1], r[0]) == Some(v.s)
    ensures v.Int? && IsShortInt(v.i) ==> ParseInt(r) == Some(v.i)
    ensures v.Int? && !IsShortInt(v.i) ==> |r| >= 2 && r[|r| - 1] == 'L' && ParseInt(r[..|r| - 1]) == Some(v.i)
  {
    match v
    case Null => "None"
    case Bool(b) => if b then "True" else "False"
    case Int(i) =>
      ParseIntToString(i);
      var d := IntToString(i);
      if IsShortInt(i) then d else assert (d + "L")[..|d|] == d; d + "L"
    case Float(f) => floatRepr(f)
    case Str(s) => ReprRoundTrip(s, false); StrRepr(s, false)
    case Text(t) => "<text: " + StrRepr(t, true) + ">"
    case Ref(k) => "<ref: " + StrRepr(k, true) + ">"
    case List(_) => "[...]"
    case Dict(_) => "{...}"
  }

  /** `prepr`: lists inline, dicts one entry per line at a deeper indent, keys in sorted order. */
  function Prepr(v: Value, indent: string, floatRepr: real -> string): string
    decreases v, 1
  {
    match v
    case List(items) => "[" + Join(PreprAll(items, indent, floatRepr), ", ") + "]"
    case Dict(entries) =>
      var inner := indent + "    ";
      "{" + Join(PreprEntries(entries, SortStrings(Keys(entries)), inner, floatRepr), ",") + "\n" + inner[4..] + "}"
    case _ => Repr(v, floatRepr)
  }

  function PreprAll(items: seq<Value>, indent: string, floatRepr: real -> string): (r: seq<string>)
    ensures |r| == |items|
    decreases items, 0
  {
    if items == [] then [] else [Prepr(items[0], indent, floatRepr)] + PreprAll(items[1..], indent, floatRepr)
  }

  /** One line per key of `keys`, in that order: "\n" + indent + repr(key) + ": " + prepr(value). */
  function PreprEntries(entries: seq<(string, Value)>, keys: seq<string>, indent: string, floatRepr: real -> string): (r: seq<string>)
    ensures |r| == |keys|
    decreases Dict(entries), 0, |keys|
  {
    if keys == [] then []
    else
      var value := Get(entries, keys[0]);
      var shown := if value.Some? then
          assert value.value < Dict(entries) by { GetSmaller(entries, keys[0]); }
          Prepr(value.value, indent, floatRepr)
        else "";
      ["\n" + indent + StrRepr(keys[0], false) + ": " + shown] + PreprEntries(entries, keys[1..], indent, floatRepr)
  }

  lemma GetSmaller(entries: seq<(string, Value)>, k: string)
    requires Get(entries, k).Some?
    ensures Get(entries, k).value < Dict(entries)
  {
    var i := GetIndex(entries, k);
    assert entries[i] in entries;
  }

  /** Where a lookup found its value. */
  lemma {:induction false} GetIndex(entries: seq<(string, Value)>, k: string) returns (i: nat)
    requires Get(entries, k).Some?
    ensures i < |entries| && entries[i].1 == Get(entries, k).value
  {
    if entries[0].0 != k {
      var j := GetIndex(entries[1..], k);
      i := j + 1;
    } else {
      i := 0;
    }
  }

  /** Dictionaries with the same entries print the same, whatever their insertion order. */
  lemma PreprOrderFree(d1: seq<(string, Value)>, d2: seq<(string, Value)>, indent: string, floatRepr: real -> string)
    requires UniqueKeys(d1) && UniqueKeys(d2) && ToMap(d1) == ToMap(d2)
    ensures Prepr(Dict(d1), indent, floatRepr) == Prepr(Dict(d2), indent, floatRepr)
  {
    SameSortedKeys(d1, d2);
    SameGets(d1, d2);
    SameLookups(d1, d2, SortStrings(Keys(d1)), indent + "    ", floatRepr);
  }

  /** Dictionaries with the same entries answer every lookup alike. */
  lemma SameGets(d1: seq<(string, Value)>, d2: seq<(string, Value)>)
    requires UniqueKeys(d1) && UniqueKeys(d2) && ToMap(d1) == ToMap(d2)
    ensures forall k :: Get(d1, k) == Get(d2, k)
  {
    forall k ensures Get(d1, k) == Get(d2, k) {
      ToMapGet(d1, k);
      ToMapGet(d2, k);
    }
  }

  /** Dictionaries with the same entries have the same keys in sorted order. */
  lemma SameSortedKeys(d1: seq<(string, Value)>, d2: seq<(string, Value)>)
    requires UniqueKeys(d1) && UniqueKeys(d2) && ToMap(d1) == ToMap(d2)
    ensures SortStrings(Keys(d1)) == SortStrings(Keys(d2))
  {
    UniqueKeysMultiset(d1);
    UniqueKeysMultiset(d2);
    assert multiset(Keys(d1)) == multiset(Keys(d2)) by {
      assert ToMap(d1).Keys == ToMap(d2).Keys;
    }
    SortStringsCanonical(Keys(d1), Keys(d2));
  }

  lemma {:induction false} SameLookups(d1: seq<(string, Value)>, d2: seq<(string, Value)>, keys: seq<string>, indent: string, floatRepr: real -> string)
    requires forall k :: Get(d1, k) == Get(d2, k)
    ensures PreprEntries(d1, keys, indent, floatRepr) == PreprEntries(d2, keys, indent, floatRepr)
  {
    if keys != [] {
      SameLookups(d1, d2, keys[1..], indent, floatRepr);
    }
  }

  /** The keys of a dict with unique keys, as a multiset, are the key set. */
  lemma UniqueKeysMultiset(d: seq<(string, Value)>)
    requires UniqueKeys(d)
    ensures multiset(Keys(d)) == multiset(ToMap(d).Keys)
  {
    var ks := Keys(d);
    assert forall i, j :: 0 <= i < j < |ks| ==> ks[i] != ks[j];
    DistinctMultiset(ks);
    assert ToMap(d).Keys == set i | 0 <= i < |d| :: d[i].0;
    assert (set x | x in ks) == (set i | 0 <= i < |d| :: d[i].0) by {
      forall x | x in ks ensures x in set i | 0 <= i < |d| :: d[i].0 {
        var i :| 0 <= i < |ks| && ks[i] == x;
      }
    }
  }

  lemma {:induction false} DistinctMultiset(s: seq<string>)
    requires forall i, j :: 0 <= i < j < |s| ==> s[i] != s[j]
    ensures multiset(s) == multiset(set x | x in s)
  {
    if s != [] {
      DistinctMultiset(s[1..]);
      assert s == [s[0]] + s[1..];
      assert s[0] !in s[1..];
      assert (set x | x in s) == {s[0]} + (set x | x in s[1..]);
    }
  }
}
