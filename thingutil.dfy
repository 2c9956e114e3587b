/** Tidying a wiki thing before it is edited or shown (infogami/core/thingutil.py): the
    conversion of form values to the primitive type a property expects, the default a
    missing property gets, the shape (single value or list) each property is given, and the
    placeholder data of a thing that does not exist yet. */
module ThingUtil {
  import opened Wrappers
  import opened Strings

  /** A property value: the primitives, a list, a thing referred to by name, and the
      placeholder `DefaultThing` of a type. */
  datatype Val =
    | Int(i: int)
    | Str(s: string)
    | Bool(b: bool)
    | List(items: seq<Val>)
    | Ref(name: string)
    | Blank(typ: string)

  /** A property of a type: its name, the name of its expected type, whether that type is
      primitive, and whether the property holds one value rather than a list. */
  datatype Prop = Prop(name: string, typ: string, primitive: bool, unique: bool)

  /** `default_value(type)`: 0 for type/int, False for type/boolean, '' for any other name. */
  function DefaultValue(typeName: string): (v: Val)
    ensures typeName == "type/int" ==> v == Int(0)
    ensures typeName == "type/boolean" ==> v == Bool(false)
    ensures typeName != "type/int" && typeName != "type/boolean" ==> v == Str("")
  {
    if typeName == "type/int" then Int(0)
    else if typeName == "type/boolean" then Bool(false)
    else Str("")
  }

  /** `str(v)`; the text of a list or of a placeholder thing is Python's representation,
      given as `repr`. A thing's text is its name. */
  function ToStr(v: Val, repr: Val -> string): string {
    match v
    case Int(i) => IntToString(i)
    case Str(s) => s
    case Bool(b) => if b then "True" else "False"
    case Ref(name) => name
    case _ => repr(v)
  }

  /** `int(v)`: integers unchanged, booleans as 0 and 1, text as a signed decimal numeral
      with surrounding whitespace allowed (ValueError otherwise); anything else is a
      TypeError. */
  function ToInt(v: Val): (r: Result<Val, string>)
    ensures r.Ok? ==> r.value.Int?
    ensures v.Int? ==> r == Ok(v)
    ensures v.Str? ==> (r.Ok? <==> ParseInt(v.s).Some?)
    ensures v.Str? && r.Ok? ==> r.value.i == ParseInt(v.s).value
  {
    match v
    case Int(_) => Ok(v)
    case Bool(b) => Ok(Int(if b then 1 else 0))
    case Str(s) =>
      (match ParseInt(s)
       case Some(i) => Ok(Int(i))
       case None => Err("ValueError"))
    case _ => Err("TypeError")
  }

  /** `primitive_value(type, value)`: type/int through `int`, type/string and type/text
      through `str`, type/boolean true unless the text is "false" in any case; any other
      type leaves the value as it is. */
  function PrimitiveValue(typeName: string, v: Val, repr: Val -> string): (r: Result<Val, string>)
    ensures typeName == "type/int" ==> r == ToInt(v)
    ensures typeName == "type/string" || typeName == "type/text" ==> r == Ok(Str(ToStr(v, repr)))
    ensures typeName == "type/boolean" ==> r == Ok(Bool(Lower(ToStr(v, repr)) != "false"))
    ensures typeName !in {"type/int", "type/string", "type/text", "type/boolean"} ==> r == Ok(v)
  {
    if typeName == "type/int" then ToInt(v)
    else if typeName == "type/string" || typeName == "type/text" then Ok(Str(ToStr(v, repr)))
    else if typeName == "type/boolean" then Ok(Bool(Lower(ToStr(v, repr)) != "false"))
    else Ok(v)
  }

  /** Converting a converted value again changes nothing. */
  lemma PrimitiveValueIdempotent(typeName: string, v: Val, repr: Val -> string)
    requires PrimitiveValue(typeName, v, repr).Ok?
    ensures PrimitiveValue(typeName, PrimitiveValue(typeName, v, repr).value, repr) == PrimitiveValue(typeName, v, repr)
  {
    if typeName == "type/boolean" {
      var b := PrimitiveValue(typeName, v, repr).value.b;
      if b {
        assert Lower("True") == "true";
        assert "true" != "false";
      } else {
        assert Lower("False") == "false";
      }
    }
  }

  /** An integer's text converts back to the integer. */
  lemma IntTextRoundTrip(i: int, repr: Val -> string)
    ensures PrimitiveValue("type/int", Str(IntToString(i)), repr) == Ok(Int(i))
  {
    ParseIntToString(i);
  }

  /** The booleans' own texts come back as the same booleans, and only "false" in some case
      reads as false. */
  lemma BooleanText(v: Val, repr: Val -> string)
    ensures PrimitiveValue("type/boolean", Str("False"), repr) == Ok(Bool(false))
    ensures PrimitiveValue("type/boolean", Str("0"), repr) == Ok(Bool(true))
    ensures PrimitiveValue("type/boolean", Str(""), repr) == Ok(Bool(true))
  {
    assert Lower("False") == "false";
    assert Lower("0") == "0";
  }

  /** A value holding no list inside a list. */
  predicate Flat(v: Val) {
    v.List? ==> forall k :: 0 <= k < |v.items| ==> !v.items[k].List?
  }

  /** The value `fill_missing_properties` leaves for one property, given the value present
      (None when missing): a missing unique property gets its type's default and a missing
      list property []; a unique property holding a list keeps its first element (the
      default when the list is empty); a list property holding a single value gets it
      wrapped in a list. */
  function FilledValue(v: Option<Val>, p: Prop): (r: Val)
    ensures !p.unique ==> r.List?
    ensures v.None? && p.unique ==> r == DefaultValue(p.typ)
    ensures v.None? && !p.unique ==> r == List([])
    ensures v.Some? && p.unique && !v.value.List? ==> r == v.value
    ensures v.Some? && p.unique && v.value.List? ==>
      r == if v.value.items == [] then DefaultValue(p.typ) else v.value.items[0]
    ensures v.Some? && !p.unique ==> r == if v.value.List? then v.value else List([v.value])
  {
    match v
    case None => if p.unique then DefaultValue(p.typ) else List([])
    case Some(x) =>
      var x1 := if p.unique && x.List? then (if x.items == [] then DefaultValue(p.typ) else x.items[0]) else x;
      if !p.unique && !x1.List? then List([x1]) else x1
  }

  /** Filling a flat value a second time changes nothing. */
  lemma FilledValueIdempotent(v: Option<Val>, p: Prop)
    requires v.Some? ==> Flat(v.value)
    ensures FilledValue(Some(FilledValue(v, p)), p) == FilledValue(v, p)
  {
  }

  /** The value present for a name, if any. */
  function Lookup(d: map<string, Val>, name: string): Option<Val> {
    if name in d then Some(d[name]) else None
  }

  /** One step of `fill_missing_properties`. */
  function FillOne(d: map<string, Val>, p: Prop): map<string, Val> {
    d[p.name := FilledValue(Lookup(d, p.name), p)]
  }

  /** The step as written: a missing unique property gets `default_value(p)` of the
      property itself, which looks up the property's name rather than its type's. */
  function FillOneAsWritten(d: map<string, Val>, p: Prop): (r: map<string, Val>)
    ensures p.name !in d && p.unique ==> p.name in r && r[p.name] == DefaultValue(p.name)
    ensures p.name in d || !p.unique ==> r == FillOne(d, p)
  {
    if p.name !in d && p.unique then d[p.name := DefaultValue(p.name)] else FillOne(d, p)
  }

  /** A missing unique integer property is filled with '' rather than 0. */
  lemma FillOneAsWrittenDefaultsToText()
    ensures var p := Prop("age", "type/int", true, true);
      FillOneAsWritten(map[], p)["age"] == Str("") && FillOne(map[], p)["age"] == Int(0)
  {
  }

  /** `fill_missing_properties` over the type's properties in order. */
  function FillSpec(d: map<string, Val>, props: seq<Prop>): map<string, Val>
    decreases |props|
  {
    if props == [] then d else FillOne(FillSpec(d, props[..|props| - 1]), props[|props| - 1])
  }

  /** The names of the properties. */
  function Names(props: seq<Prop>): set<string> {
    set i | 0 <= i < |props| :: props[i].name
  }

  predicate DistinctNames(props: seq<Prop>) {
    forall i, j :: 0 <= i < j < |props| ==> props[i].name != props[j].name
  }

  /** When the property names are distinct, filling gives every property the value
      `FilledValue` gives it on its own, adds exactly the missing property names and leaves
      every other entry alone. */
  lemma {:induction false} FillSpecAt(d: map<string, Val>, props: seq<Prop>)
    requires DistinctNames(props)
    ensures FillSpec(d, props).Keys == d.Keys + Names(props)
    ensures forall i :: 0 <= i < |props| ==> FillSpec(d, props)[props[i].name] == FilledValue(Lookup(d, props[i].name), props[i])
    ensures forall k :: k in d && k !in Names(props) ==> FillSpec(d, props)[k] == d[k]
    decreases |props|
  {
    if props != [] {
      var init := props[..|props| - 1];
      var last := props[|props| - 1];
      FillSpecAt(d, init);
      NamesSnoc(props);
      forall i | 0 <= i < |props| - 1
        ensures FillSpec(d, props)[props[i].name] == FilledValue(Lookup(d, props[i].name), props[i])
      {
        assert init[i] == props[i];
      }
    }
  }

  /** The names of a non-empty list are those of all but its last element, plus the last
      one's, which (when the names are distinct) is not among the others. */
  lemma NamesSnoc(props: seq<Prop>)
    requires props != []
    ensures Names(props) == Names(props[..|props| - 1]) + {props[|props| - 1].name}
    ensures DistinctNames(props) ==> DistinctNames(props[..|props| - 1]) && props[|props| - 1].name !in Names(props[..|props| - 1])
  {
    var init := props[..|props| - 1];
    assert forall i :: 0 <= i < |init| ==> init[i] == props[i];
  }

  /** Tidying twice fills nothing more: with distinct property names and flat values, a
      second fill gives the same data. */
  lemma FillSpecIdempotent(d: map<string, Val>, props: seq<Prop>)
    requires DistinctNames(props)
    requires forall k :: k in d ==> Flat(d[k])
    ensures FillSpec(FillSpec(d, props), props) == FillSpec(d, props)
  {
    var once := FillSpec(d, props);
    FillSpecAt(d, props);
    FillSpecAt(once, props);
    var twice := FillSpec(once, props);
    forall k | k in twice
      ensures twice[k] == once[k]
    {
      if k in Names(props) {
        var i :| 0 <= i < |props| && props[i].name == k;
        FilledValueIdempotent(Lookup(d, k), props[i]);
      }
    }
  }

  /** `strip_underscore`: the entries whose names start with '_'. */
  function Stripped(d: map<string, Val>): (r: map<string, Val>)
    ensures forall k :: k in r <==> k in d && !StartsWith(k, "_")
    ensures forall k :: k in r ==> r[k] == d[k]
  {
    map k | k in d && !StartsWith(k, "_") :: d[k]
  }

  /** `process_property(value, type)`: a list is processed element by element; a value of a
      primitive type goes through `primitive_value`; a thing or a placeholder stays; a name
      where a thing is expected becomes the thing of that name; anything else is an error. */
  function ProcessProperty(v: Val, p: Prop, repr: Val -> string): (r: Result<Val, string>)
    ensures v.List? && r.Ok? ==> r.value.List? && |r.value.items| == |v.items|
    ensures !v.List? && p.primitive ==> r == PrimitiveValue(p.typ, v, repr)
    ensures !v.List? && !p.primitive && (v.Ref? || v.Blank?) ==> r == Ok(v)
    ensures !v.List? && !p.primitive && v.Str? ==> r == Ok(Ref(v.s))
    ensures !v.List? && !p.primitive && (v.Int? || v.Bool?) ==> r.Err?
    decreases v, 1
  {
    match v
    case List(items) =>
      (match ProcessItems(items, p, repr)
       case Ok(xs) => Ok(List(xs))
       case Err(e) => Err(e))
    case Str(name) => if p.primitive then PrimitiveValue(p.typ, v, repr) else Ok(Ref(name))
    case Ref(_) => if p.primitive then PrimitiveValue(p.typ, v, repr) else Ok(v)
    case Blank(_) => if p.primitive then PrimitiveValue(p.typ, v, repr) else Ok(v)
    case Int(_) => if p.primitive then PrimitiveValue(p.typ, v, repr) else Err("huh?")
    case Bool(_) => if p.primitive then PrimitiveValue(p.typ, v, repr) else Err("huh?")
  }

  /** The list comprehension in `process_property`: the first failing element's error. */
  function ProcessItems(items: seq<Val>, p: Prop, repr: Val -> string): (r: Result<seq<Val>, string>)
    ensures r.Ok? ==> |r.value| == |items|
    ensures r.Ok? <==> forall k :: 0 <= k < |items| ==> ProcessProperty(items[k], p, repr).Ok?
    ensures r.Ok? ==> forall k :: 0 <= k < |items| ==> r.value[k] == ProcessProperty(items[k], p, repr).value
    decreases items, 0
  {
    if items == [] then Ok([])
    else
      assert items[0] < List(items);
      match ProcessProperty(items[0], p, repr)
      case Err(e) => Err(e)
      case Ok(x) =>
        match ProcessItems(items[1..], p, repr)
        case Err(e) =>
          Err(e)
        case Ok(xs) =>
          assert forall k :: 1 <= k < |items| ==> items[k] == items[1..][k - 1];
          Ok([x] + xs)
  }

  /** A list of texts for a text property comes back unchanged. */
  lemma {:induction false} TextListUnchanged(items: seq<string>, p: Prop, repr: Val -> string)
    requires p.primitive && (p.typ == "type/string" || p.typ == "type/text")
    ensures ProcessProperty(List(seq(|items|, k requires 0 <= k < |items| => Str(items[k]))), p, repr)
      == Ok(List(seq(|items|, k requires 0 <= k < |items| => Str(items[k]))))
  {
    var vs := seq(|items|, k requires 0 <= k < |items| => Str(items[k]));
    forall k | 0 <= k < |vs| ensures ProcessProperty(vs[k], p, repr) == Ok(vs[k]) {
    }
    var r := ProcessItems(vs, p, repr);
    assert r.Ok?;
    assert r.value == vs;
  }

  /** One step of `process_all_properties`: a present property is replaced by its processed
      value; the error of a failing one stops the walk with the data as it stands. */
  function ProcessStep(d: map<string, Val>, p: Prop, repr: Val -> string): (map<string, Val>, Result<(), string>) {
    if p.name !in d then (d, Ok(()))
    else
      match ProcessProperty(d[p.name], p, repr)
      case Ok(v) => (d[p.name := v], Ok(()))
      case Err(e) => (d, Err(e))
  }

  /** `process_all_properties` over the type's properties in order. */
  function ProcessAllSpec(d: map<string, Val>, props: seq<Prop>, repr: Val -> string): (map<string, Val>, Result<(), string>)
    decreases |props|
  {
    if props == [] then (d, Ok(()))
    else
      var (d1, r1) := ProcessAllSpec(d, props[..|props| - 1], repr);
      if r1.Err? then (d1, r1) else ProcessStep(d1, props[|props| - 1], repr)
  }

  /** Once a property fails, the later ones change nothing. */
  lemma {:induction false} ProcessAllStops(d: map<string, Val>, props: seq<Prop>, n: nat, repr: Val -> string)
    requires n <= |props|
    requires ProcessAllSpec(d, props[..n], repr).1.Err?
    ensures ProcessAllSpec(d, props, repr) == ProcessAllSpec(d, props[..n], repr)
    decreases |props|
  {
    if n < |props| {
      var init := props[..|props| - 1];
      assert init[..n] == props[..n];
      ProcessAllStops(d, init, n, repr);
    } else {
      assert props[..n] == props;
    }
  }

  /** When every property is processed without error and the names are distinct, each
      present property holds its processed value and nothing else changes. */
  lemma ProcessAllAt(d: map<string, Val>, props: seq<Prop>, repr: Val -> string)
    requires DistinctNames(props)
    ensures var (r, res) := ProcessAllSpec(d, props, repr);
      r.Keys == d.Keys
      && (res.Ok? <==> forall i :: 0 <= i < |props| && props[i].name in d ==> ProcessProperty(d[props[i].name], props[i], repr).Ok?)
      && (res.Ok? ==> forall i :: 0 <= i < |props| && props[i].name in d ==> r[props[i].name] == ProcessProperty(d[props[i].name], props[i], repr).value)
      && (forall k :: k in d && k !in Names(props) ==> r[k] == d[k])
  {
    ProcessAllKeys(d, props, repr);
    ProcessAllValues(d, props, repr);
    ProcessAllOk(d, props, repr);
  }

  /** Processing keeps the keys and leaves the entries of other names alone. */
  lemma {:induction false} ProcessAllKeys(d: map<string, Val>, props: seq<Prop>, repr: Val -> string)
    ensures var r := ProcessAllSpec(d, props, repr).0;
      r.Keys == d.Keys && forall k :: k in d && k !in Names(props) ==> r[k] == d[k]
    decreases |props|
  {
    if props != [] {
      ProcessAllKeys(d, props[..|props| - 1], repr);
      NamesSnoc(props);
    }
  }

  /** Processing succeeds exactly when every present property processes without error. */
  lemma {:induction false} ProcessAllOk(d: map<string, Val>, props: seq<Prop>, repr: Val -> string)
    requires DistinctNames(props)
    ensures ProcessAllSpec(d, props, repr).1.Ok?
      <==> forall i :: 0 <= i < |props| && props[i].name in d ==> ProcessProperty(d[props[i].name], props[i], repr).Ok?
    decreases |props|
  {
    if props != [] {
      var init := props[..|props| - 1];
      ProcessAllOk(d, init, repr);
      ProcessAllKeys(d, init, repr);
      NamesSnoc(props);
      assert forall i :: 0 <= i < |init| ==> init[i] == props[i];
    }
  }

  /** After a successful walk each present property holds its processed value. */
  lemma {:induction false} ProcessAllValues(d: map<string, Val>, props: seq<Prop>, repr: Val -> string)
    requires DistinctNames(props)
    ensures var (r, res) := ProcessAllSpec(d, props, repr);
      res.Ok? ==> forall i :: 0 <= i < |props| && props[i].name in d ==>
        props[i].name in r && ProcessProperty(d[props[i].name], props[i], repr).Ok?
        && r[props[i].name] == ProcessProperty(d[props[i].name], props[i], repr).value
    decreases |props|
  {
    if props != [] {
      var init := props[..|props| - 1];
      ProcessAllValues(d, init, repr);
      ProcessAllKeys(d, init, repr);
      ProcessAllOk(d, init, repr);
      NamesSnoc(props);
      assert forall i :: 0 <= i < |init| ==> init[i] == props[i];
    }
  }

  /** A thing being tidied: its data and its type's properties. */
  class Thing {
    var d: map<string, Val>
    const props: seq<Prop>

    constructor (d: map<string, Val>, props: seq<Prop>)
      ensures this.d == d && this.props == props
    {
      this.d := d;
      this.props := props;
    }

    /** `strip_underscore(thing.d)`: every entry whose name starts with '_' is deleted. */
    method StripUnderscore()
      modifies this
      ensures d == Stripped(old(d))
    {
      var keys := d.Keys;
      while keys != {}
        invariant keys <= old(d).Keys
        invariant forall k :: k in d <==> k in old(d) && (k in keys || !StartsWith(k, "_"))
        invariant forall k :: k in d ==> d[k] == old(d)[k]
        decreases keys
      {
        var k :| k in keys;
        if StartsWith(k, "_") {
          d := d - {k};
        }
        keys := keys - {k};
      }
    }

    /** `fill_missing_properties()`. */
    method FillMissingProperties()
      modifies this
      ensures d == FillSpec(old(d), props)
    {
      for i := 0 to |props|
        invariant d == FillSpec(old(d), props[..i])
      {
        assert props[..i + 1][..i] == props[..i];
        var p := props[i];
        if p.name !in d {
          if p.unique {
            d := d[p.name := DefaultValue(p.typ)];
          } else {
            d := d[p.name := List([])];
          }
        } else {
          if p.unique && d[p.name].List? {
            var items := d[p.name].items;
            d := d[p.name := if items == [] then DefaultValue(p.typ) else items[0]];
          }
          if !p.unique && !d[p.name].List? {
            d := d[p.name := List([d[p.name]])];
          }
        }
      }
      assert props[..|props|] == props;
    }

    /** `process_all_properties(thing.d, thing.type)`. */
    method ProcessAllProperties(repr: Val -> string) returns (r: Result<(), string>)
      modifies this
      ensures (d, r) == ProcessAllSpec(old(d), props, repr)
    {
      for i := 0 to |props|
        invariant (d, Ok(())) == ProcessAllSpec(old(d), props[..i], repr)
      {
        assert props[..i + 1][..i] == props[..i];
        var p := props[i];
        if p.name in d {
          var v := ProcessProperty(d[p.name], p, repr);
          if v.Err? {
            r := Err(v.error);
            ProcessAllStops(old(d), props, i + 1, repr);
            return;
          }
          d := d[p.name := v.value];
        }
      }
      assert props[..|props|] == props;
      r := Ok(());
    }

    /** `thingtidy(thing, fill_missing)`, apart from the backreferences it fetches. */
    method Tidy(fillMissing: bool, repr: Val -> string) returns (r: Result<(), string>)
      modifies this
      ensures var filled := if fillMissing then FillSpec(Stripped(old(d)), props) else Stripped(old(d));
        (d, r) == ProcessAllSpec(filled, props, repr)
    {
      StripUnderscore();
      if fillMissing {
        FillMissingProperties();
      }
      r := ProcessAllProperties(repr);
    }
  }

  /** After a successful tidy with distinct property names, no entry starts with '_', every
      list property holds a list, and every property is present. */
  lemma TidyShape(d: map<string, Val>, props: seq<Prop>, repr: Val -> string)
    requires DistinctNames(props)
    requires ProcessAllSpec(FillSpec(Stripped(d), props), props, repr).1.Ok?
    ensures var r := ProcessAllSpec(FillSpec(Stripped(d), props), props, repr).0;
      (forall k :: k in r ==> !StartsWith(k, "_") || k in Names(props))
      && (forall i :: 0 <= i < |props| ==> props[i].name in r)
      && (forall i :: 0 <= i < |props| && !props[i].unique ==> r[props[i].name].List?)
  {
    var filled := FillSpec(Stripped(d), props);
    FillSpecAt(Stripped(d), props);
    ProcessAllAt(filled, props, repr);
  }

  /** `DefaultThingData.properties`: the type's properties by name, a later one replacing
      an earlier one of the same name. */
  function PropMap(props: seq<Prop>): (m: map<string, Prop>)
    ensures m.Keys == Names(props)
    ensures forall k :: k in m ==> m[k].name == k
    decreases |props|
  {
    if props == [] then map[]
    else
      NamesSnoc(props);
      PropMap(props[..|props| - 1])[props[|props| - 1].name := props[|props| - 1]]
  }

  /** With distinct names each property is found under its own name. */
  lemma {:induction false} PropMapDistinct(props: seq<Prop>)
    requires DistinctNames(props)
    ensures forall i :: 0 <= i < |props| ==> PropMap(props)[props[i].name] == props[i]
    decreases |props|
  {
    if props != [] {
      var init := props[..|props| - 1];
      NamesSnoc(props);
      PropMapDistinct(init);
      forall i | 0 <= i < |props| - 1 ensures PropMap(props)[props[i].name] == props[i] {
        assert init[i] == props[i];
      }
    }
  }

  /** `DefaultThingData.__getattr__(key)`: AttributeError for a name the type does not have;
      otherwise a unique primitive property's default, a unique thing property's
      placeholder, or [] for a list property. */
  function DataGetAttr(props: seq<Prop>, key: string): (r: Result<Val, string>)
    ensures r.Err? <==> key !in Names(props)
    ensures r.Err? ==> r.error == "AttributeError"
    ensures r.Ok? ==> var p := PropMap(props)[key];
      r.value == if !p.unique then List([]) else if p.primitive then DefaultValue(p.typ) else Blank(p.typ)
  {
    var m := PropMap(props);
    if key !in m then Err("AttributeError")
    else
      var p := m[key];
      if !p.unique then Ok(List([]))
      else if p.primitive then Ok(DefaultValue(p.typ))
      else Ok(Blank(p.typ))
  }

  /** `DefaultThingData.__getitem__(key)` as written: the attribute is computed but not
      returned, so a known key reads as None; an unknown one is a KeyError. */
  function DataGetItemAsWritten(props: seq<Prop>, key: string): (r: Result<Option<Val>, string>)
    ensures r.Err? <==> key !in Names(props)
    ensures r.Ok? ==> r.value.None?
  {
    match DataGetAttr(props, key)
    case Err(_) => Err("KeyError")
    case Ok(_) => Ok(None)
  }

  /** `DefaultThingData.__getitem__(key)` returning the attribute, as `get` evidently expects. */
  function DataGetItem(props: seq<Prop>, key: string): (r: Result<Val, string>)
    ensures r.Err? <==> key !in Names(props)
    ensures r.Err? ==> r.error == "KeyError"
    ensures r.Ok? ==> r == DataGetAttr(props, key)
  {
    match DataGetAttr(props, key)
    case Err(_) => Err("KeyError")
    case Ok(v) => Ok(v)
  }

  /** `DefaultThingData.get(key, default)` as written: the default for an unknown name and
      None for every known one. */
  function DataGetAsWritten(props: seq<Prop>, key: string, default: Option<Val>): (r: Option<Val>)
    ensures key !in Names(props) ==> r == default
    ensures key in Names(props) ==> r.None?
  {
    match DataGetItemAsWritten(props, key)
    case Err(_) => default
    case Ok(v) => v
  }

  /** `DefaultThingData.get(key, default)` with the corrected item lookup. */
  function DataGet(props: seq<Prop>, key: string, default: Val): (r: Val)
    ensures key !in Names(props) ==> r == default
    ensures key in Names(props) ==> Ok(r) == DataGetAttr(props, key)
  {
    match DataGetItem(props, key)
    case Err(_) => default
    case Ok(v) => v
  }

  /** The placeholder for a list property reads as [] through attribute access, but as
      None through `get`, although the property exists. */
  lemma DataGetAsWrittenLosesValue(props: seq<Prop>, i: nat)
    requires i < |props| && !props[i].unique && DistinctNames(props)
    ensures DataGetAttr(props, props[i].name) == Ok(List([]))
    ensures DataGetAsWritten(props, props[i].name, Some(Str("x"))) == None
    ensures DataGet(props, props[i].name, Str("x")) == List([])
  {
    PropMapDistinct(props);
    assert props[i].name in Names(props);
  }
}
