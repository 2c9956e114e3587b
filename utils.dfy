/** Generic helpers of Infobase (infogami/infobase/utils.py): date parsing, boolean parsing,
    dictionary comparison, flattening of nested lists and dictionaries, and lenient integer
    conversion. */
module InfobaseUtils {
  import opened Wrappers
  import opened Json
  import opened Strings
  import opened Dates

  /** What `parse_datetime` is given: a datetime already, or text. */
  datatype DateInput = AlreadyDateTime(t: DateTime) | DateText(s: string)

  /** The separators of `re.split(r'-|T|:|\.| ', value)`. */
  const DateSeparators: set<char> := {'-', 'T', ':', '.', ' '}

  /** `map(int, tokens)`: None at the first token `int` rejects. */
  function ParseInts(tokens: seq<string>): (r: Option<seq<int>>)
    ensures r.Some? ==> |r.value| == |tokens| && forall i :: 0 <= i < |tokens| ==> ParseInt(tokens[i]) == Some(r.value[i])
    ensures r.None? ==> exists i :: 0 <= i < |tokens| && ParseInt(tokens[i]).None?
  {
    if tokens == [] then Some([])
    else
      match ParseInt(tokens[0])
      case None => None
      case Some(n) =>
        match ParseInts(tokens[1..])
        case None => None
        case Some(rest) => Some([n] + rest)
  }

  /** The seven numbers of a datetime, as `datetime(...)` takes them. */
  function Fields(t: DateTime): (f: seq<int>)
    ensures |f| == 7
  {
    [t.date.year, t.date.month, t.date.day, t.hour, t.minute, t.second, t.micro]
  }

  /** `datetime.datetime(*ns)`: three to seven integer arguments (fewer or more is TypeError),
      the omitted ones 0, each in its range (otherwise ValueError). */
  function MakeDateTime(ns: seq<int>): (r: Result<DateTime, string>)
    ensures |ns| < 3 || |ns| > 7 ==> r == Err("TypeError")
    ensures r.Ok? ==> ValidDateTime(r.value) && Fields(r.value) == ns + seq(7 - |ns|, _ => 0)
    ensures 3 <= |ns| <= 7 && r.Err? ==>
      r == Err("ValueError") && forall t :: ValidDateTime(t) ==> Fields(t) != ns + seq(7 - |ns|, _ => 0)
  {
    if |ns| < 3 || |ns| > 7 then Err("TypeError")
    else
      var f := ns + seq(7 - |ns|, _ => 0);
      var t := DateTime(Date(f[0], f[1], f[2]), f[3], f[4], f[5], f[6]);
      assert Fields(t) == f;
      if ValidDateTime(t) then Ok(t)
      else
        assert forall t' :: Fields(t') == f ==> t' == t by {
          forall t' | Fields(t') == f ensures t' == t {
            assert Fields(t')[0] == f[0] && Fields(t')[1] == f[1] && Fields(t')[2] == f[2];
            assert Fields(t')[3] == f[3] && Fields(t')[4] == f[4] && Fields(t')[5] == f[5] && Fields(t')[6] == f[6];
          }
        }
        Err("ValueError")
  }

  /** `parse_datetime`: a datetime passes through; text is split at - T : . and space and the
      integers are handed to `datetime`. */
  function ParseDatetime(value: DateInput): (r: Result<DateTime, string>)
    ensures value.AlreadyDateTime? ==> r == Ok(value.t)
    ensures value.DateText? && r.Ok? ==> ValidDateTime(r.value)
  {
    match value
    case AlreadyDateTime(t) => Ok(t)
    case DateText(s) =>
      match ParseInts(SplitAny(s, DateSeparators))
      case None => Err("ValueError")
      case Some(ns) => MakeDateTime(ns)
  }

  lemma ParsePadded(n: nat, width: nat)
    requires width >= 1
    ensures ParseInt(PadNat(n, width)) == Some(n)
  {
    ParsePadNat(n, width);
    ParseIntUnspaced(PadNat(n, width));
  }

  /** The seconds field of `isoformat()` and the optional fraction after it. */
  function SecondsText(t: DateTime): string
    requires ValidDateTime(t)
  {
    PadNat(t.second, 2) + (if t.micro != 0 then "." + PadNat(t.micro, 6) else "")
  }

  /** The numbers `isoformat()` writes, in order. */
  function IsoFields(t: DateTime): seq<int> {
    [t.date.year, t.date.month, t.date.day, t.hour, t.minute, t.second] + (if t.micro != 0 then [t.micro] else [])
  }

  lemma IsoShape(t: DateTime)
    requires ValidDateTime(t)
    ensures IsoFormat(t) == PadNat(t.date.year, 4) + ['-'] + (PadNat(t.date.month, 2) + ['-'] + (PadNat(t.date.day, 2) + ['T']
      + (PadNat(t.hour, 2) + [':'] + (PadNat(t.minute, 2) + [':'] + SecondsText(t)))))
  {
  }

  lemma SecondsTokens(t: DateTime)
    requires ValidDateTime(t)
    ensures SplitAny(SecondsText(t), DateSeparators)
      == [PadNat(t.second, 2)] + (if t.micro != 0 then [PadNat(t.micro, 6)] else [])
  {
    var s := PadNat(t.second, 2);
    if t.micro != 0 {
      var u := PadNat(t.micro, 6);
      assert SecondsText(t) == s + ['.'] + u;
      SplitAnyConcat(s, '.', u, DateSeparators);
      SplitAnyNone(u, DateSeparators);
    } else {
      assert SecondsText(t) == s;
      SplitAnyNone(s, DateSeparators);
    }
  }

  /** Splitting five separator-free fields joined by - - T : : from what follows them. */
  lemma SplitFive(a: string, b: string, c: string, d: string, e: string, rest: string)
    requires forall k :: 0 <= k < |a| ==> a[k] !in DateSeparators
    requires forall k :: 0 <= k < |b| ==> b[k] !in DateSeparators
    requires forall k :: 0 <= k < |c| ==> c[k] !in DateSeparators
    requires forall k :: 0 <= k < |d| ==> d[k] !in DateSeparators
    requires forall k :: 0 <= k < |e| ==> e[k] !in DateSeparators
    ensures SplitAny(a + ['-'] + (b + ['-'] + (c + ['T'] + (d + [':'] + (e + [':'] + rest)))), DateSeparators)
      == [a, b, c, d, e] + SplitAny(rest, DateSeparators)
  {
    var r5 := e + [':'] + rest;
    SplitAnyConcat(e, ':', rest, DateSeparators);
    var r4 := d + [':'] + r5;
    SplitAnyConcat(d, ':', r5, DateSeparators);
    var r3 := c + ['T'] + r4;
    SplitAnyConcat(c, 'T', r4, DateSeparators);
    var r2 := b + ['-'] + r3;
    SplitAnyConcat(b, '-', r3, DateSeparators);
    SplitAnyConcat(a, '-', r2, DateSeparators);
  }

  /** A zero-padded number holds none of the separators. */
  lemma PaddedHasNoSeparator(n: nat, width: nat)
    ensures forall k :: 0 <= k < |PadNat(n, width)| ==> PadNat(n, width)[k] !in DateSeparators
  {
  }

  lemma IsoTokens(t: DateTime)
    requires ValidDateTime(t)
    ensures SplitAny(IsoFormat(t), DateSeparators)
      == [PadNat(t.date.year, 4), PadNat(t.date.month, 2), PadNat(t.date.day, 2), PadNat(t.hour, 2), PadNat(t.minute, 2)]
         + SplitAny(SecondsText(t), DateSeparators)
  {
    IsoShape(t);
    PaddedHasNoSeparator(t.date.year, 4);
    PaddedHasNoSeparator(t.date.month, 2);
    PaddedHasNoSeparator(t.date.day, 2);
    PaddedHasNoSeparator(t.hour, 2);
    PaddedHasNoSeparator(t.minute, 2);
    SplitFive(PadNat(t.date.year, 4), PadNat(t.date.month, 2), PadNat(t.date.day, 2), PadNat(t.hour, 2), PadNat(t.minute, 2), SecondsText(t));
  }

  /** `parse_datetime(t.isoformat()) == t` for every valid datetime, with or without microseconds. */
  lemma ParseIsoFormat(t: DateTime)
    requires ValidDateTime(t)
    ensures ParseDatetime(DateText(IsoFormat(t))) == Ok(t)
  {
    IsoNumbers(t);
  }

  /** The numbers `isoformat()` writes are the datetime's fields. */
  lemma IsoNumbers(t: DateTime)
    requires ValidDateTime(t)
    ensures ParseInts(SplitAny(IsoFormat(t), DateSeparators)) == Some(IsoFields(t))
  {
    IsoTokens(t);
    SecondsTokens(t);
    assert SplitAny(IsoFormat(t), DateSeparators) == IsoTexts(t);
    IsoTextsParse(t);
  }

  /** The fields of `isoformat()` as it writes them. */
  function IsoTexts(t: DateTime): seq<string>
    requires ValidDateTime(t)
  {
    [PadNat(t.date.year, 4), PadNat(t.date.month, 2), PadNat(t.date.day, 2), PadNat(t.hour, 2), PadNat(t.minute, 2), PadNat(t.second, 2)]
    + (if t.micro != 0 then [PadNat(t.micro, 6)] else [])
  }

  lemma IsoTextsParse(t: DateTime)
    requires ValidDateTime(t)
    ensures ParseInts(IsoTexts(t)) == Some(IsoFields(t))
  {
    var ts, fs := IsoTexts(t), IsoFields(t);
    forall i | 0 <= i < |ts| ensures ParseInt(ts[i]) == Some(fs[i]) {
      if i == 0 { ParsePadded(t.date.year, 4); }
      else if i == 1 { ParsePadded(t.date.month, 2); }
      else if i == 2 { ParsePadded(t.date.day, 2); }
      else if i == 3 { ParsePadded(t.hour, 2); }
      else if i == 4 { ParsePadded(t.minute, 2); }
      else if i == 5 { ParsePadded(t.second, 2); }
      else { ParsePadded(t.micro, 6); }
    }
    ParseIntsAll(ts, fs);
  }

  lemma {:induction false} ParseIntsAll(tokens: seq<string>, ns: seq<int>)
    requires |tokens| == |ns| && forall i :: 0 <= i < |tokens| ==> ParseInt(tokens[i]) == Some(ns[i])
    ensures ParseInts(tokens) == Some(ns)
  {
    if tokens != [] {
      ParseIntsAll(tokens[1..], ns[1..]);
      assert [ns[0]] + ns[1..] == ns;
    }
  }

  /** `parse_boolean`: true exactly for "1" and "true" in any letter case. */
  function ParseBoolean(value: string): (b: bool)
    ensures b ==> |value| == 1 || |value| == 4
    ensures value == "1" || value == "true" || value == "True" || value == "TRUE" ==> b
  {
    var l := Lower(value);
    l == "1" || l == "true"
  }

  /** Letter case does not matter. */
  lemma ParseBooleanCaseless(value: string)
    ensures ParseBoolean(Lower(value)) == ParseBoolean(value)
  {
    assert Lower(Lower(value)) == Lower(value);
  }

  /** `d2.get(k)`: None (here `Null`) for an absent key. */
  function GetOrNull(d: map<string, Value>, k: string): Value {
    if k in d then d[k] else Null
  }

  /** `dict_diff(d1, d2)`: (keys of d1 whose value changed, keys whose value is the same,
      keys of d2 whose value changed). */
  function DictDiff(d1: map<string, Value>, d2: map<string, Value>): (r: (set<string>, set<string>, set<string>))
    ensures r.1 <= d1.Keys
    ensures r.0 == d1.Keys - r.1 && r.2 == d2.Keys - r.1
    ensures forall k :: k in d1 && k in d2 ==> (k in r.1 <==> d1[k] == d2[k])
    ensures forall k :: k in d1 && k !in d2 ==> (k in r.1 <==> d1[k] == Null)
  {
    var same := set k | k in d1 && d1[k] == GetOrNull(d2, k);
    (d1.Keys - same, same, d2.Keys - same)
  }

  /** Comparing a dictionary with itself finds no change. */
  lemma DictDiffSelf(d: map<string, Value>)
    ensures DictDiff(d, d) == ({}, d.Keys, {})
  {
    var r := DictDiff(d, d);
    assert r.1 == d.Keys by {
      forall k | k in d ensures k in r.1 { }
    }
    assert r.0 == {} && r.2 == {};
  }

  /** Without None values the comparison is symmetric: the same keys, left and right swapped. */
  lemma DictDiffSwap(d1: map<string, Value>, d2: map<string, Value>)
    requires forall k :: k in d1 ==> d1[k] != Null
    requires forall k :: k in d2 ==> d2[k] != Null
    ensures DictDiff(d1, d2).1 == DictDiff(d2, d1).1
    ensures DictDiff(d1, d2).0 == DictDiff(d2, d1).2
    ensures DictDiff(d1, d2).2 == DictDiff(d2, d1).0
  {
    var a, b := DictDiff(d1, d2), DictDiff(d2, d1);
    assert a.1 == b.1 by {
      forall k | k in a.1 ensures k in b.1 { }
      forall k | k in b.1 ensures k in a.1 { }
    }
  }

  /** The leaves of nested lists, left to right: what `flatten` returns. */
  function Leaves(items: seq<Value>): (r: seq<Value>)
    ensures forall i :: 0 <= i < |r| ==> !r[i].List?
    decreases items, 1
  {
    if items == [] then [] else LeavesOf(items[0]) + Leaves(items[1..])
  }

  function LeavesOf(v: Value): (r: seq<Value>)
    ensures forall i :: 0 <= i < |r| ==> !r[i].List?
    decreases v, 0
  {
    if v.List? then Leaves(v.items) else [v]
  }

  lemma {:induction false} LeavesAppend(a: seq<Value>, b: seq<Value>)
    ensures Leaves(a + b) == Leaves(a) + Leaves(b)
  {
    if a != [] {
      LeavesAppend(a[1..], b);
      assert (a + b)[1..] == a[1..] + b;
    } else {
      assert a + b == b;
    }
  }

  /** A list without nested lists is its own flattening, so flattening is idempotent. */
  lemma {:induction false} LeavesFlat(items: seq<Value>)
    requires forall i :: 0 <= i < |items| ==> !items[i].List?
    ensures Leaves(items) == items
  {
    if items != [] {
      LeavesFlat(items[1..]);
      assert items == [items[0]] + items[1..];
    }
  }

  lemma FlattenIdempotent(items: seq<Value>)
    ensures Leaves(Leaves(items)) == Leaves(items)
  {
    LeavesFlat(Leaves(items));
  }

  /** `flatten(nested_list, result)`: appends the leaves of `items` to `result`, recursing into
      nested lists. */
  method Flatten(items: seq<Value>, result: seq<Value>) returns (r: seq<Value>)
    ensures r == result + Leaves(items)
    decreases items
  {
    r := result;
    var i := 0;
    while i < |items|
      invariant i <= |items|
      invariant r == result + Leaves(items[..i])
    {
      assert items[i] in items;
      if items[i].List? {
        r := Flatten(items[i].items, r);
      } else {
        r := r + [items[i]];
      }
      LeavesAppend(items[..i], [items[i]]);
      assert items[..i + 1] == items[..i] + [items[i]];
      i := i + 1;
    }
    assert items[..i] == items;
  }

  /** `web.lstrips(key, ".")`: one leading '.' removed. */
  function LStripDot(key: string): string {
    if StartsWith(key, ".") then key[1..] else key
  }

  /** The items `flatten_dict`'s inner `f(key, value)` appends: dict entries under
      key + "." + k, list elements under the parent's key, leaves with the leading '.' stripped. */
  function FlatItems(key: string, value: Value): (r: seq<(string, Value)>)
    ensures forall i :: 0 <= i < |r| ==> !r[i].1.List? && !r[i].1.Dict?
    decreases value, 1
  {
    match value
    case Dict(entries) => FlatEntries(key, entries)
    case List(items) => FlatList(key, items)
    case _ => [(LStripDot(key), value)]
  }

  function FlatEntries(key: string, entries: seq<(string, Value)>): (r: seq<(string, Value)>)
    ensures forall i :: 0 <= i < |r| ==> !r[i].1.List? && !r[i].1.Dict?
    decreases entries, 0
  {
    if entries == [] then []
    else
      var e := entries[0];
      assert e in entries && e.1 < e;
      FlatItems(key + "." + e.0, e.1) + FlatEntries(key, entries[1..])
  }

  function FlatList(key: string, items: seq<Value>): (r: seq<(string, Value)>)
    ensures forall i :: 0 <= i < |r| ==> !r[i].1.List? && !r[i].1.Dict?
    decreases items, 0
  {
    if items == [] then []
    else
      assert items[0] in items;
      FlatItems(key, items[0]) + FlatList(key, items[1..])
  }

  /** Below a key "." + p every item is named p or p-followed-by-more: paths are joined with '.'
      and exactly one leading '.' is stripped, so each item of `flatten_dict` starts with the
      top-level key it came from. */
  lemma {:induction false} FlatItemsUnder(key: string, value: Value)
    requires key != [] && key[0] == '.'
    ensures forall i :: 0 <= i < |FlatItems(key, value)| ==> StartsWith(FlatItems(key, value)[i].0, key[1..])
    decreases value, 1
  {
    match value
    case Dict(entries) => FlatEntriesUnder(key, entries);
    case List(items) => FlatListUnder(key, items);
    case _ =>
  }

  lemma {:induction false} FlatEntriesUnder(key: string, entries: seq<(string, Value)>)
    requires key != [] && key[0] == '.'
    ensures forall i :: 0 <= i < |FlatEntries(key, entries)| ==> StartsWith(FlatEntries(key, entries)[i].0, key[1..])
    decreases entries, 0
  {
    if entries != [] {
      var e := entries[0];
      assert e in entries && e.1 < e;
      var k2 := key + "." + e.0;
      assert k2[1..] == key[1..] + "." + entries[0].0;
      FlatItemsUnder(k2, entries[0].1);
      FlatEntriesUnder(key, entries[1..]);
      forall i | 0 <= i < |FlatEntries(key, entries)| ensures StartsWith(FlatEntries(key, entries)[i].0, key[1..]) {
        var a := FlatItems(k2, entries[0].1);
        if i < |a| {
          assert StartsWith(a[i].0, k2[1..]);
          assert a[i].0[..|key[1..]|] == k2[1..][..|key[1..]|];
        }
      }
    }
  }

  lemma {:induction false} FlatListUnder(key: string, items: seq<Value>)
    requires key != [] && key[0] == '.'
    ensures forall i :: 0 <= i < |FlatList(key, items)| ==> StartsWith(FlatList(key, items)[i].0, key[1..])
    decreases items, 0
  {
    if items != [] {
      assert items[0] in items;
      FlatItemsUnder(key, items[0]);
      FlatListUnder(key, items[1..]);
    }
  }

  /** `flatten_dict(d)` with the inner walk as a recursive method over an accumulator. */
  method FlattenDict(key: string, value: Value, items: seq<(string, Value)>) returns (r: seq<(string, Value)>)
    ensures r == items + FlatItems(key, value)
    decreases value
  {
    match value
    case Dict(entries) =>
      r := items;
      var i := 0;
      while i < |entries|
        invariant i <= |entries|
        invariant r == items + FlatEntries(key, entries[..i])
      {
        assert entries[i] in entries;
        r := FlattenDict(key + "." + entries[i].0, entries[i].1, r);
        FlatEntriesAppend(key, entries[..i], entries[i]);
        assert entries[..i + 1] == entries[..i] + [entries[i]];
        i := i + 1;
      }
      assert entries[..i] == entries;
    case List(vs) =>
      r := items;
      var i := 0;
      while i < |vs|
        invariant i <= |vs|
        invariant r == items + FlatList(key, vs[..i])
      {
        assert vs[i] in vs;
        r := FlattenDict(key, vs[i], r);
        FlatListAppend(key, vs[..i], vs[i]);
        assert vs[..i + 1] == vs[..i] + [vs[i]];
        i := i + 1;
      }
      assert vs[..i] == vs;
    case _ =>
      r := items + [(LStripDot(key), value)];
  }

  lemma {:induction false} FlatEntriesAppend(key: string, entries: seq<(string, Value)>, e: (string, Value))
    ensures FlatEntries(key, entries + [e]) == FlatEntries(key, entries) + FlatItems(key + "." + e.0, e.1)
  {
    if entries == [] {
      assert entries + [e] == [e];
      assert [e][1..] == [];
    } else {
      FlatEntriesAppend(key, entries[1..], e);
      assert (entries + [e])[1..] == entries[1..] + [e];
    }
  }

  lemma {:induction false} FlatListAppend(key: string, items: seq<Value>, v: Value)
    ensures FlatList(key, items + [v]) == FlatList(key, items) + FlatItems(key, v)
  {
    if items == [] {
      assert items + [v] == [v];
      assert [v][1..] == [];
    } else {
      FlatListAppend(key, items[1..], v);
      assert (items + [v])[1..] == items[1..] + [v];
    }
  }

  /** Python's `int(f)` on a float: truncation toward zero. */
  function Truncate(f: real): (r: int)
    ensures 0.0 <= f ==> 0 <= r && r as real <= f < r as real + 1.0
    ensures f < 0.0 ==> r <= 0 && r as real - 1.0 < f <= r as real
  {
    if f >= 0.0 then f.Floor else -((-f).Floor)
  }

  /** `safeint(value, default)`: `int(value)`, or the default where `int` raises ValueError or
      TypeError (None, containers, unparsable text). */
  function SafeInt(value: Value, default: int): (r: int)
    ensures value.Int? ==> r == value.i
    ensures value.Null? || value.List? || value.Dict? ==> r == default
    ensures value.Str? && ParseInt(value.s).None? ==> r == default
    ensures value.Str? && ParseInt(value.s).Some? ==> r == ParseInt(value.s).value
  {
    match value
    case Int(i) => i
    case Bool(b) => if b then 1 else 0
    case Float(f) => Truncate(f)
    case Str(s) => ParseInt(s).GetOr(default)
    case Text(s) => ParseInt(s).GetOr(default)
    case Ref(s) => ParseInt(s).GetOr(default)
    case _ => default
  }

  /** `safeint(str(n), d) == n`: the default only stands in for text that is not a number. */
  lemma SafeIntOfString(n: int, default: int)
    ensures SafeInt(Str(IntToString(n)), default) == n
  {
    ParseIntToString(n);
  }

  /** `safeint(" 42\n", d) == 42`: whitespace around the number does not make it text. */
  lemma SafeIntPadded(pre: string, n: int, post: string, default: int)
    requires IsBlank(pre) && IsBlank(post)
    ensures SafeInt(Str(pre + IntToString(n) + post), default) == n
  {
    ParseIntToString(n);
    ParseIntSurrounded(pre, IntToString(n), post);
  }
}
