/** Database upgrades when the code changes (infogami/core/dbupgrade.py): the registered
    upgrades that have not run yet run in order, inside one transaction, and the stored
    version is meant to become the number of upgrades; and the `upgrade_types` upgrade, which turns the
    old one-line property descriptors of a type into properties and backreferences. What an
    upgrade does to the database is represented by its name being recorded. */
module DbUpgrade {
  import opened Wrappers
  import opened Strings

  /** A registered upgrade, and whether it completes without raising. */
  datatype Upgrade = Upgrade(name: string, succeeds: bool)

  /** `upgrades[v:]` with Python's slicing: a negative start counts from the end, a start
      past the end gives nothing. */
  function Pending(upgrades: seq<Upgrade>, v: int): (r: seq<Upgrade>)
    ensures 0 <= v <= |upgrades| ==> r == upgrades[v..]
    ensures v >= |upgrades| ==> r == []
    ensures |r| <= |upgrades|
  {
    var start := if v < 0 then (if |upgrades| + v < 0 then 0 else |upgrades| + v) else if v > |upgrades| then |upgrades| else v;
    upgrades[start..]
  }

  function Names(us: seq<Upgrade>): (r: seq<string>)
    ensures |r| == |us| && forall k :: 0 <= k < |us| ==> r[k] == us[k].name
  {
    if us == [] then [] else [us[0].name] + Names(us[1..])
  }

  predicate AllSucceed(us: seq<Upgrade>) {
    forall k :: 0 <= k < |us| ==> us[k].succeeds
  }

  /** The database root: its `__version__` (None when never set, read as 0) and the
      upgrades whose effects it holds. */
  class Root {
    var version: Option<int>
    var applied: seq<string>

    constructor (version: Option<int>, applied: seq<string>)
      ensures this.version == version && this.applied == applied
    {
      this.version := version;
      this.applied := applied;
    }

    /** `get_db_version()`. */
    function DbVersion(): int
      reads this
    {
      if version.Some? then version.value else 0
    }

    /** The loop of `apply_upgrades()`: every pending upgrade runs in order; an upgrade that
        raises rolls the whole transaction back. The version is not touched. */
    method RunPending(upgrades: seq<Upgrade>) returns (ok: bool)
      modifies this
      ensures var pending := Pending(upgrades, old(DbVersion()));
        (ok <==> AllSucceed(pending)) && version == old(version) &&
        applied == if ok then old(applied) + Names(pending) else old(applied)
    {
      var v := DbVersion();
      var pending := Pending(upgrades, v);
      var saved := applied;
      var failed := false;
      var i := 0;
      while i < |pending| && !failed
        invariant 0 <= i <= |pending|
        invariant saved == old(applied) && version == old(version)
        invariant !failed ==> AllSucceed(pending[..i]) && applied == saved + Names(pending[..i])
        invariant failed ==> !AllSucceed(pending)
        decreases |pending| - i, if failed then 0 else 1
      {
        if pending[i].succeeds {
          assert pending[..i + 1] == pending[..i] + [pending[i]];
          NamesAppend(pending[..i], pending[i]);
          applied := applied + [pending[i].name];
          i := i + 1;
        } else {
          failed := true;
        }
      }
      if failed {
        applied := saved;
      } else {
        assert pending[..i] == pending;
      }
      ok := !failed;
    }

    /** `apply_upgrades()` as written. `mark_upgrades` sets `__version__` on the lazy root,
        whose `__setattr__` only reads the attribute, and saves a root that is not dirty, which
        writes nothing: the stored version never changes. */
    method ApplyUpgrades(upgrades: seq<Upgrade>)
      modifies this
      ensures var pending := Pending(upgrades, old(DbVersion()));
        version == old(version) &&
        applied == if AllSucceed(pending) then old(applied) + Names(pending) else old(applied)
    {
      var _ := RunPending(upgrades);
    }

    /** As written, a second start runs every upgrade that the first one ran once more. */
    method ReappliedAsWritten(upgrades: seq<Upgrade>)
      modifies this
      ensures var pending := Pending(upgrades, old(DbVersion()));
        AllSucceed(pending) ==> applied == old(applied) + Names(pending) + Names(pending)
      ensures version == old(version)
    {
      ApplyUpgrades(upgrades);
      ApplyUpgrades(upgrades);
    }

    /** `apply_upgrades()` as intended: in one transaction, every pending upgrade runs in
        order and the version is set to the number of upgrades; an upgrade that raises rolls
        the whole transaction back. */
    method ApplyUpgradesIntended(upgrades: seq<Upgrade>)
      modifies this
      ensures var pending := Pending(upgrades, old(DbVersion()));
        if AllSucceed(pending) then
          applied == old(applied) + Names(pending) && version == Some(|upgrades|)
        else
          applied == old(applied) && version == old(version)
    {
      var ok := RunPending(upgrades);
      if ok {
        version := Some(|upgrades|);
      }
    }

    /** As intended, a second start runs nothing once the first one succeeded. */
    method ReappliedIntended(upgrades: seq<Upgrade>)
      modifies this
      ensures var pending := Pending(upgrades, old(DbVersion()));
        AllSucceed(pending) ==> applied == old(applied) + Names(pending) && version == Some(|upgrades|)
    {
      ApplyUpgradesIntended(upgrades);
      NothingPendingAfter(upgrades);
      ApplyUpgradesIntended(upgrades);
    }
  }

  lemma NamesAppend(us: seq<Upgrade>, u: Upgrade)
    ensures Names(us + [u]) == Names(us) + [u.name]
  {
  }

  /** After a successful run nothing is pending: applying the upgrades again runs none. */
  lemma NothingPendingAfter(upgrades: seq<Upgrade>)
    ensures Pending(upgrades, |upgrades|) == []
  {
  }

  /** Upgrades registered later are the only ones pending at the old version. */
  lemma {:induction false} OnlyNewPending(old_: seq<Upgrade>, added: seq<Upgrade>)
    ensures Pending(old_ + added, |old_|) == added
  {
    assert (old_ + added)[|old_|..] == added;
  }

  // ---------------------------------------------------------------- upgrade_types

  /** A property parsed from a descriptor: its name, its type, whether it holds one value. */
  datatype Property = Property(name: string, typ: string, unique: bool)

  /** A backreference parsed from "#type.property". */
  datatype Backreference = Backreference(name: string, typ: string, propertyName: string)

  datatype Parsed = Prop(p: Property) | Backref(b: Backreference)

  /** The primitive aliases. */
  function Alias(t: string): (r: string)
    ensures t == "int" || t == "integer" ==> r == "type/int"
    ensures t == "string" ==> r == "type/string"
    ensures t == "text" ==> r == "type/text"
    ensures t !in {"int", "integer", "string", "text"} ==> r == t
  {
    if t == "int" || t == "integer" then "type/int"
    else if t == "string" then "type/string"
    else if t == "text" then "type/text"
    else t
  }

  /** `s.lstrip('#')`. */
  function LStripHash(s: string): (r: string)
    ensures r == [] || r[0] != '#'
    ensures |r| <= |s| && r == s[|s| - |r|..]
  {
    if s != [] && s[0] == '#' then LStripHash(s[1..]) else s
  }

  /** One descriptor of `upgrade_types`: after an optional "thing " prefix, "#type.prop"
      is a backreference (anything but exactly one '.' raises ValueError); otherwise a
      trailing '*' marks a property with many values, and the primitive aliases are
      expanded. */
  function ParseDescriptor(name: string, value: string): (r: Result<Parsed, string>)
    ensures r.Ok? && r.value.Prop? ==>
      r.value.p.name == name && (r.value.p.unique <==> !EndsWith(LStrips(value, "thing "), "*"))
    ensures r.Ok? && r.value.Backref? ==> r.value.b.name == name && '.' !in r.value.b.typ && '.' !in r.value.b.propertyName
    ensures r.Err? <==> StartsWith(LStrips(value, "thing "), "#") && |Split(LStripHash(LStrips(value, "thing ")), '.')| != 2
    ensures r.Ok? ==> (r.value.Backref? <==> StartsWith(LStrips(value, "thing "), "#"))
  {
    var typename := LStrips(value, "thing ");
    if StartsWith(typename, "#") then
      var parts := Split(LStripHash(typename), '.');
      if |parts| != 2 then Err("ValueError")
      else Ok(Backref(Backreference(name, parts[0], parts[1])))
    else
      var unique := !EndsWith(typename, "*");
      var t := if unique then typename else typename[..|typename| - 1];
      Ok(Prop(Property(name, Alias(t), unique)))
  }

  /** The descriptor of a property as the old types wrote it. */
  function Describe(p: Property): string {
    p.typ + (if p.unique then "" else "*")
  }

  /** Parsing the descriptor of a property gives it back, when its type is written in full
      (not an alias, not starting with "thing " or '#', no trailing '*'). */
  lemma ParseDescribe(p: Property)
    requires p.typ !in {"int", "integer", "string", "text"}
    requires !StartsWith(p.typ, "thing ") && !StartsWith(p.typ, "#") && !EndsWith(p.typ, "*")
    ensures ParseDescriptor(p.name, Describe(p)) == Ok(Prop(p))
  {
    var d := Describe(p);
    if p.unique {
      assert d == p.typ;
    } else {
      assert d[..|p.typ|] == p.typ;
      assert !StartsWith(d, "#") by {
        if |p.typ| > 0 {
          assert d[..1] == p.typ[..1];
        } else {
          assert d[..1][0] == d[0] == '*';
        }
      }
      assert EndsWith(d, "*");
    }
  }

  /** "#type.prop", with or without "thing ", parses as a backreference to that type's
      property. */
  lemma ParseBackref(name: string, typ: string, prop: string)
    requires '.' !in typ && '.' !in prop && (typ == [] || typ[0] != '#')
    ensures ParseDescriptor(name, "#" + typ + "." + prop) == Ok(Backref(Backreference(name, typ, prop)))
    ensures ParseDescriptor(name, "thing " + ("#" + typ + "." + prop)) == Ok(Backref(Backreference(name, typ, prop)))
  {
    var d := "#" + typ + "." + prop;
    BackrefParts(typ, prop);
    assert d[0] == '#';
    ParseHashed(name, d, typ, prop);
  }

  /** A descriptor starting with '#' parses the same with or without "thing " in front. */
  lemma ParseHashed(name: string, d: string, typ: string, prop: string)
    requires d != [] && d[0] == '#' && Split(LStripHash(d), '.') == [typ, prop]
    ensures ParseDescriptor(name, d) == Ok(Backref(Backreference(name, typ, prop)))
    ensures ParseDescriptor(name, "thing " + d) == Ok(Backref(Backreference(name, typ, prop)))
  {
    assert !StartsWith(d, "thing ") by {
      assert d[0] != "thing "[0];
    }
    assert LStrips(d, "thing ") == d;
    assert ("thing " + d)[..|"thing "|] == "thing ";
    assert ("thing " + d)[|"thing "|..] == d;
    assert LStrips("thing " + d, "thing ") == d;
    assert StartsWith(d, "#") by {
      assert d[..1] == "#";
    }
  }

  /** The type and property of "#type.prop", split at its one '.'. */
  lemma BackrefParts(typ: string, prop: string)
    requires '.' !in typ && '.' !in prop && (typ == [] || typ[0] != '#')
    ensures Split(LStripHash("#" + typ + "." + prop), '.') == [typ, prop]
  {
    var body := typ + "." + prop;
    var d := "#" + typ + "." + prop;
    assert d == "#" + body && d[1..] == body;
    assert LStripHash(body) == body by {
      if typ == [] {
        assert body[0] == '.';
      } else {
        assert body[0] == typ[0];
      }
    }
    assert LStripHash(d) == body;
    assert [typ, prop][1..] == [prop];
    assert Join([typ, prop], ['.']) == body;
    JoinSplit([typ, prop], '.');
  }

  /** A type of the old kind, as it is stored: its name and its descriptors by property. */
  datatype OldType = OldType(name: string, d: seq<(string, string)>)

  /** A type the upgrade creates. */
  datatype NewType = NewType(name: string, properties: seq<Property>, backreferences: seq<Backreference>)

  /** Which types the upgrade converts: those without "properties" and "is_primitive". */
  predicate Legacy(t: OldType) {
    forall k :: 0 <= k < |t.d| ==> t.d[k].0 != "properties" && t.d[k].0 != "is_primitive"
  }

  /** The properties and backreferences of one type, in the order of its descriptors. */
  function ConvertOf(d: seq<(string, string)>): (r: Result<(seq<Property>, seq<Backreference>), string>)
    ensures r.Ok? ==> |r.value.0| + |r.value.1| == |d|
  {
    Collect(Parses(d))
  }

  /** Each descriptor parsed on its own. */
  function Parses(d: seq<(string, string)>): (r: seq<Result<Parsed, string>>)
    ensures |r| == |d|
  {
    seq(|d|, i requires 0 <= i < |d| => ParseDescriptor(d[i].0, d[i].1))
  }

  /** The parsed descriptors gathered in order: the first error, or the properties and the
      backreferences. */
  function Collect(ps: seq<Result<Parsed, string>>): (r: Result<(seq<Property>, seq<Backreference>), string>)
    ensures r.Ok? ==> |r.value.0| + |r.value.1| == |ps|
  {
    if ps == [] then Ok(([], []))
    else
      match Collect(ps[..|ps| - 1])
      case Err(e) => Err(e)
      case Ok(acc) => Extend(acc, ps[|ps| - 1])
  }

  /** One parsed descriptor added to those before it: a property or a backreference joins its
      list; an error ends the conversion. */
  function Extend(acc: (seq<Property>, seq<Backreference>), parsed: Result<Parsed, string>): (r: Result<(seq<Property>, seq<Backreference>), string>)
    ensures r.Ok? ==> |r.value.0| + |r.value.1| == |acc.0| + |acc.1| + 1
  {
    match parsed
    case Err(e) => Err(e)
    case Ok(Prop(p)) => Ok((acc.0 + [p], acc.1))
    case Ok(Backref(b)) => Ok((acc.0, acc.1 + [b]))
  }

  /** The loop of `upgrade_types` over one type's descriptors. */
  method Convert(t: OldType) returns (r: Result<NewType, string>)
    ensures match ConvertOf(t.d)
      case Err(e) => r == Err(e)
      case Ok(pb) => r == Ok(NewType(t.name, pb.0, pb.1))
  {
    ghost var ps := Parses(t.d);
    var properties: seq<Property> := [];
    var backreferences: seq<Backreference> := [];
    for i := 0 to |t.d|
      invariant Collect(ps[..i]) == Ok((properties, backreferences))
    {
      CollectStep(ps, i);
      var parsed := ParseDescriptor(t.d[i].0, t.d[i].1);
      assert parsed == ps[i];
      if parsed.Err? {
        ConvertErrSticks(ps, i + 1);
        return Err(parsed.error);
      }
      if parsed.value.Prop? {
        properties := properties + [parsed.value.p];
      } else {
        backreferences := backreferences + [parsed.value.b];
      }
    }
    assert ps[..|ps|] == ps;
    r := Ok(NewType(t.name, properties, backreferences));
  }

  /** One more descriptor: its property or backreference joins the others, or its error is
      the conversion's. */
  lemma CollectStep(ps: seq<Result<Parsed, string>>, i: nat)
    requires i < |ps| && Collect(ps[..i]).Ok?
    ensures Collect(ps[..i + 1]) == Extend(Collect(ps[..i]).value, ps[i])
  {
    assert ps[..i + 1][..i] == ps[..i];
  }

  /** Once a prefix of the descriptors raises, so does the whole conversion, with that error. */
  lemma {:induction false} ConvertErrSticks(ps: seq<Result<Parsed, string>>, i: nat)
    requires i <= |ps| && Collect(ps[..i]).Err?
    ensures Collect(ps) == Collect(ps[..i])
    decreases |ps| - i
  {
    if i < |ps| {
      assert ps[..i + 1][..i] == ps[..i];
      ConvertErrSticks(ps, i + 1);
    } else {
      assert ps[..i] == ps;
    }
  }

  /** What `upgrade_types` creates: every legacy type except "type/site", converted. */
  function UpgradeTypesOf(types: seq<OldType>): (r: Result<seq<NewType>, string>)
    ensures r.Ok? ==> forall k :: 0 <= k < |r.value| ==> r.value[k].name != "type/site"
    ensures r.Ok? ==> |r.value| <= |types|
  {
    if types == [] then Ok([])
    else
      match UpgradeTypesOf(types[..|types| - 1])
      case Err(e) => Err(e)
      case Ok(acc) =>
        var t := types[|types| - 1];
        if !Legacy(t) || t.name == "type/site" then Ok(acc)
        else
          match ConvertOf(t.d)
          case Err(e) => Err(e)
          case Ok(pb) => Ok(acc + [NewType(t.name, pb.0, pb.1)])
  }

  /** A type that already has properties, or is primitive, or is the site type, is left
      alone. */
  lemma {:induction false} SkippedTypes(types: seq<OldType>, t: OldType)
    requires !Legacy(t) || t.name == "type/site"
    ensures UpgradeTypesOf(types + [t]) == UpgradeTypesOf(types)
  {
    assert (types + [t])[..|types|] == types;
  }
}
