/** The request helpers of the core wiki pages (infogami/core/code.py): trimming submitted
    form data, choosing the edit action, the revisions a diff compares, the query behind
    the title autocompletion, and the RFC 822 date of the recent-changes feed. The web
    handlers themselves (rendering, redirects, saving) are not part of this model. */
module CoreCode {
  import opened Wrappers
  import opened Strings
  import opened Json
  import Dates

  // ---------------------------------------------------------------- edit.trim

  /** A value `trim` removes from a dictionary: None, '' or []. */
  predicate Empty(v: Value) {
    v == Null || v == Str("") || v == List([])
  }

  /** `edit.trim(d)`: None stays None; text is stripped; a list keeps its trimmed elements
      that are truthy; a dictionary loses the entries whose trimmed value is None, '' or [],
      and becomes None when no key is left or only "unique" is. Numbers and booleans have no
      `strip` (AttributeError). */
  function EditTrim(x: Value): (r: Result<Value, string>)
    ensures x.Null? ==> r == Ok(Null)
    ensures x.Str? ==> r == Ok(Str(Strip(x.s)))
    ensures x.Bool? || x.Int? || x.Float? ==> r == Err("AttributeError")
    ensures r.Ok? && x.List? ==> r.value.List?
    ensures r.Ok? && x.Dict? ==> r.value.Null? || r.value.Dict?
    decreases x, 1
  {
    match x
    case Null => Ok(Null)
    case Str(s) => Ok(Str(Strip(s)))
    case Text(t) => Ok(Str(Strip(t)))
    case Ref(k) => Ok(Str(Strip(k)))
    case List(items) =>
      (match TrimList(items)
       case Ok(kept) => Ok(List(kept))
       case Err(e) => Err(e))
    case Dict(es) =>
      (match TrimDict(es)
       case Ok(kept) => Ok(if kept == [] || Keys(kept) == ["unique"] then Null else Dict(kept))
       case Err(e) => Err(e))
    case Bool(_) => Err("AttributeError")
    case Int(_) => Err("AttributeError")
    case Float(_) => Err("AttributeError")
  }

  /** The list branch: every element trimmed (the first error stops it), the falsy ones dropped. */
  function TrimList(items: seq<Value>): (r: Result<seq<Value>, string>)
    ensures r.Ok? ==> |r.value| <= |items|
    ensures r.Ok? ==> forall k :: 0 <= k < |r.value| ==> Truthy(r.value[k])
    decreases items, 0
  {
    if items == [] then Ok([])
    else
      assert items[0] in items;
      match EditTrim(items[0])
      case Err(e) => Err(e)
      case Ok(v) =>
        match TrimList(items[1..])
        case Err(e) => Err(e)
        case Ok(rest) => Ok((if Truthy(v) then [v] else []) + rest)
  }

  /** The dictionary branch: every value trimmed in order, the entries left empty deleted. */
  function TrimDict(es: seq<(string, Value)>): (r: Result<seq<(string, Value)>, string>)
    ensures r.Ok? ==> |r.value| <= |es|
    ensures r.Ok? ==> forall k :: 0 <= k < |r.value| ==> !Empty(r.value[k].1)
    ensures r.Ok? ==> forall k :: k in Keys(r.value) ==> k in Keys(es)
    decreases es, 0
  {
    if es == [] then Ok([])
    else
      assert es[0] in es && es[0].1 < es[0];
      match EditTrim(es[0].1)
      case Err(e) => Err(e)
      case Ok(v) =>
        match TrimDict(es[1..])
        case Err(e) => Err(e)
        case Ok(rest) =>
          var r := (if Empty(v) then [] else [(es[0].0, v)]) + rest;
          assert forall k :: k in Keys(rest) ==> k in Keys(es[1..]);
          assert Keys(es) == [es[0].0] + Keys(es[1..]);
          assert Keys(r) == (if Empty(v) then [] else [es[0].0]) + Keys(rest);
          Ok(r)
  }

  /** What `trim` returns: text without surrounding whitespace, lists of truthy trimmed
      values, dictionaries of non-empty trimmed values with some key other than "unique". */
  predicate Trimmed(x: Value)
    decreases x, 1
  {
    match x
    case Null => true
    case Str(s) => Strip(s) == s
    case List(items) => TrimmedItems(items)
    case Dict(es) => es != [] && Keys(es) != ["unique"] && TrimmedEntries(es)
    case _ => false
  }

  predicate TrimmedItems(items: seq<Value>)
    decreases items, 0
  {
    items != [] ==>
      assert items[0] in items;
      Truthy(items[0]) && Trimmed(items[0]) && TrimmedItems(items[1..])
  }

  predicate TrimmedEntries(es: seq<(string, Value)>)
    decreases es, 0
  {
    es != [] ==>
      assert es[0] in es && es[0].1 < es[0];
      !Empty(es[0].1) && Trimmed(es[0].1) && TrimmedEntries(es[1..])
  }

  /** Whatever `trim` returns is trimmed. */
  lemma {:induction false} EditTrimTrimmed(x: Value)
    requires EditTrim(x).Ok?
    ensures Trimmed(EditTrim(x).value)
    decreases x, 1
  {
    match x
    case Str(s) => StripIdempotent(s);
    case Text(t) => StripIdempotent(t);
    case Ref(k) => StripIdempotent(k);
    case List(items) => TrimListTrimmed(items);
    case Dict(es) => TrimDictTrimmed(es);
    case Null =>
  }

  lemma {:induction false} TrimListTrimmed(items: seq<Value>)
    requires TrimList(items).Ok?
    ensures TrimmedItems(TrimList(items).value)
    decreases items, 0
  {
    if items != [] {
      assert items[0] in items;
      EditTrimTrimmed(items[0]);
      TrimListTrimmed(items[1..]);
      var v := EditTrim(items[0]).value;
      var rest := TrimList(items[1..]).value;
      if Truthy(v) {
        assert ([v] + rest)[1..] == rest;
      } else {
        assert [] + rest == rest;
      }
    }
  }

  lemma {:induction false} TrimDictTrimmed(es: seq<(string, Value)>)
    requires TrimDict(es).Ok?
    ensures TrimmedEntries(TrimDict(es).value)
    decreases es, 0
  {
    if es != [] {
      assert es[0] in es && es[0].1 < es[0];
      EditTrimTrimmed(es[0].1);
      TrimDictTrimmed(es[1..]);
      var v := EditTrim(es[0].1).value;
      var rest := TrimDict(es[1..]).value;
      if !Empty(v) {
        assert ([(es[0].0, v)] + rest)[1..] == rest;
      } else {
        assert [] + rest == rest;
      }
    }
  }

  /** `trim` leaves a trimmed value as it is. */
  lemma {:induction false} EditTrimFixed(x: Value)
    requires Trimmed(x)
    ensures EditTrim(x) == Ok(x)
    decreases x, 1
  {
    match x
    case List(items) => TrimListFixed(items);
    case Dict(es) => TrimDictFixed(es);
    case Null =>
    case Str(_) =>
  }

  lemma {:induction false} TrimListFixed(items: seq<Value>)
    requires TrimmedItems(items)
    ensures TrimList(items) == Ok(items)
    decreases items, 0
  {
    if items != [] {
      assert items[0] in items;
      EditTrimFixed(items[0]);
      TrimListFixed(items[1..]);
      assert items == [items[0]] + items[1..];
    }
  }

  lemma {:induction false} TrimDictFixed(es: seq<(string, Value)>)
    requires TrimmedEntries(es)
    ensures TrimDict(es) == Ok(es)
    decreases es, 0
  {
    if es != [] {
      assert es[0] in es && es[0].1 < es[0];
      EditTrimFixed(es[0].1);
      TrimDictFixed(es[1..]);
      assert es == [es[0]] + es[1..];
    }
  }

  /** Trimming twice is trimming once. */
  lemma EditTrimIdempotent(x: Value)
    requires EditTrim(x).Ok?
    ensures EditTrim(EditTrim(x).value) == EditTrim(x)
  {
    EditTrimTrimmed(x);
    EditTrimFixed(EditTrim(x).value);
  }

  /** One element in front of a list. */
  lemma TrimListCons(x: Value, rest: seq<Value>)
    requires EditTrim(x).Ok? && TrimList(rest).Ok?
    ensures var v := EditTrim(x).value;
      TrimList([x] + rest) == Ok((if Truthy(v) then [v] else []) + TrimList(rest).value)
  {
    assert ([x] + rest)[0] == x && ([x] + rest)[1..] == rest;
  }

  /** A one-element list whose element trims to a truthy value. */
  lemma TrimListOne(z: Value)
    requires EditTrim(z).Ok? && Truthy(EditTrim(z).value)
    ensures TrimList([z]) == Ok([EditTrim(z).value])
  {
    var v := EditTrim(z).value;
    assert [z][0] == z && [z][1..] == [];
    assert TrimList([z]) == Ok([v] + []);
    assert [v] + [] == [v];
  }

  /** An element that trims to a falsy value is dropped. */
  lemma TrimListDrop(y: Value, rest: seq<Value>)
    requires EditTrim(y).Ok? && !Truthy(EditTrim(y).value) && TrimList(rest).Ok?
    ensures TrimList([y] + rest) == TrimList(rest)
  {
    TrimListCons(y, rest);
    assert [] + TrimList(rest).value == TrimList(rest).value;
  }

  /** One entry in front of a dictionary. */
  lemma TrimDictCons(e: (string, Value), rest: seq<(string, Value)>)
    requires EditTrim(e.1).Ok? && TrimDict(rest).Ok?
    ensures var v := EditTrim(e.1).value;
      TrimDict([e] + rest) == Ok((if Empty(v) then [] else [(e.0, v)]) + TrimDict(rest).value)
  {
    assert ([e] + rest)[0] == e && ([e] + rest)[1..] == rest;
  }

  /** The list and dictionary cases of `trim` on trimmed contents. */
  lemma EditTrimContainers(items: seq<Value>, es: seq<(string, Value)>)
    ensures TrimList(items).Ok? ==> EditTrim(List(items)) == Ok(List(TrimList(items).value))
    ensures TrimDict(es).Ok? ==> var kept := TrimDict(es).value;
      EditTrim(Dict(es)) == Ok(if kept == [] || Keys(kept) == ["unique"] then Null else Dict(kept))
  {
  }

  /** A list loses its empty strings and keeps its other strings stripped. */
  lemma TrimListDropsEmpty(a: string, b: string)
    requires !IsBlank(a) && !IsBlank(b)
    ensures EditTrim(List([Str(a), Str(""), Str(b)])) == Ok(List([Str(Strip(a)), Str(Strip(b))]))
  {
    assert Truthy(Str(Strip(a))) && Truthy(Str(Strip(b)));
    EmptyStrTrim();
    TrimThree(Str(a), Str(""), Str(b));
  }

  /** The empty string trims to itself and is falsy. */
  lemma EmptyStrTrim()
    ensures EditTrim(Str("")) == Ok(Str("")) && !Truthy(Str(""))
  {
    assert Strip("") == "";
  }

  /** A list of three whose middle element trims to a falsy value. */
  lemma TrimThree(x: Value, y: Value, z: Value)
    requires EditTrim(x).Ok? && Truthy(EditTrim(x).value)
    requires EditTrim(y).Ok? && !Truthy(EditTrim(y).value)
    requires EditTrim(z).Ok? && Truthy(EditTrim(z).value)
    ensures EditTrim(List([x, y, z])) == Ok(List([EditTrim(x).value, EditTrim(z).value]))
  {
    var vx, vz := EditTrim(x).value, EditTrim(z).value;
    TrimListOne(z);
    TrimListDrop(y, [z]);
    assert [y] + [z] == [y, z];
    TrimListCons(x, [y, z]);
    assert [x] + [y, z] == [x, y, z];
    assert [vx] + [vz] == [vx, vz];
    EditTrimContainers([x, y, z], []);
  }

  /** A dictionary whose only non-empty entry is "unique" becomes None. */
  lemma TrimDictUniqueOnly(k: string, v: string)
    requires !IsBlank(v)
    ensures EditTrim(Dict([(k, Str("")), ("unique", Str(v))])) == Ok(Null)
  {
    TrimDictOfTwo(k, "unique", v);
    assert Keys([("unique", Str(Strip(v)))]) == ["unique"];
  }

  /** A dictionary with another non-empty entry keeps it and loses its empty ones. */
  lemma TrimDictDropsEmpty(k: string, k2: string, v: string)
    requires !IsBlank(v) && k2 != "unique"
    ensures EditTrim(Dict([(k, Str("")), (k2, Str(v))])) == Ok(Dict([(k2, Str(Strip(v)))]))
  {
    TrimDictOfTwo(k, k2, v);
    assert Keys([(k2, Str(Strip(v)))]) == [k2];
    assert [k2] != ["unique"] by {
      assert [k2][0] == k2;
    }
  }

  lemma TrimDictOfTwo(k: string, k2: string, v: string)
    requires !IsBlank(v)
    ensures var es := [(k, Str("")), (k2, Str(v))];
      TrimDict(es) == Ok([(k2, Str(Strip(v)))])
      && EditTrim(Dict(es)) == Ok(if Keys([(k2, Str(Strip(v)))]) == ["unique"] then Null else Dict([(k2, Str(Strip(v)))]))
  {
    var sv := Strip(v);
    assert !Empty(Str(sv));
    var empty: seq<(string, Value)> := [];
    var l1 := [(k2, Str(v))];
    TrimDictCons((k2, Str(v)), empty);
    assert [(k2, Str(v))] + empty == l1;
    var r1 := TrimDict(l1).value;
    assert r1 == [(k2, Str(sv))];
    assert EditTrim(Str("")) == Ok(Str("")) && Empty(Str(""));
    var l2 := [(k, Str(""))] + l1;
    TrimDictCons((k, Str("")), l1);
    assert TrimDict(l2) == Ok(empty + r1);
    assert empty + r1 == r1;
    assert l2 == [(k, Str("")), (k2, Str(v))];
    EditTrimContainers([], l2);
  }

  // ---------------------------------------------------------------- edit.get_action

  /** `edit.get_action(i)`: "save" when "_save" was submitted, else "preview" for
      "_preview", else "delete" for "_delete", else none. */
  function GetAction(submitted: set<string>): (r: Option<string>)
    ensures r.None? <==> "_save" !in submitted && "_preview" !in submitted && "_delete" !in submitted
    ensures r.Some? ==> "_" + r.value in submitted
    ensures r == Some("preview") ==> "_save" !in submitted
    ensures r == Some("delete") ==> "_save" !in submitted && "_preview" !in submitted
    ensures "_save" in submitted ==> r == Some("save")
  {
    assert "_" + "save" == "_save" && "_" + "preview" == "_preview" && "_" + "delete" == "_delete";
    if "_save" in submitted then Some("save")
    else if "_preview" in submitted then Some("preview")
    else if "_delete" in submitted then Some("delete")
    else None
  }

  // ---------------------------------------------------------------- diff revisions

  /** `safeint(s, None)` on a request parameter: the integer the text spells, surrounding
      whitespace allowed; None for a missing or unparsable parameter. */
  function ParamInt(s: Option<string>): (r: Option<int>)
    ensures s.None? ==> r.None?
    ensures s.Some? ==> r == ParseInt(s.value)
  {
    if s.None? then None else ParseInt(s.value)
  }

  /** Where the diff page goes: back to itself without parameters, to the view page, or to
      the comparison of revisions `a` and `b`. */
  datatype DiffOutcome = RedirectLatest | ToView | Compare(a: int, b: int)

  /** `diff.GET`: a parameter that is present but not an integer redirects to the plain diff
      page. The newer side `b` is the latest revision when not given, an empty revision 0
      when 0, and otherwise that revision if it exists (`latest` is the page's latest
      revision, None when there is no page; `exists` says whether a revision exists); no
      page goes to the view page. The older side is `a`, defaulting to `b - 1`, and never
      below 1. */
  function DiffRevisions(a: Option<string>, b: Option<string>, latest: Option<int>, exists_: int -> bool): (r: DiffOutcome)
    ensures (a.Some? && ParamInt(a).None?) || (b.Some? && ParamInt(b).None?) <==> r == RedirectLatest
    ensures r.Compare? ==> r.a >= 1
    ensures r.Compare? && a.None? ==> r.a == if r.b - 1 < 1 then 1 else r.b - 1
    ensures r.Compare? && a.Some? ==> r.a == if ParamInt(a).value < 1 then 1 else ParamInt(a).value
    ensures r.Compare? && b.None? ==> latest == Some(r.b)
    ensures r.Compare? && b.Some? ==> r.b == ParamInt(b).value
    ensures b.None? && latest.None? && r != RedirectLatest ==> r == ToView
  {
    var isInt := (n: Option<string>) => n.None? || ParamInt(n).Some?;
    if !isInt(b) || !isInt(a) then RedirectLatest
    else
      var bRev: Option<int> :=
        match ParamInt(b)
        case None => latest
        case Some(n) => if n == 0 || exists_(n) then Some(n) else None;
      if bRev.None? then ToView
      else
        var aRev := match ParamInt(a) case None => bRev.value - 1 case Some(n) => n;
        Compare(if aRev < 1 then 1 else aRev, bRev.value)
  }

  /** Asking for revision 0 always compares against the empty page, from revision 1. */
  lemma DiffFromNothing(a: Option<string>, latest: Option<int>, exists_: int -> bool)
    requires a.None?
    ensures DiffRevisions(a, Some("0"), latest, exists_) == Compare(1, 0)
  {
    StripUnspaced("0");
    assert ParseNat("0") == Some(0);
  }

  // ---------------------------------------------------------------- getthings

  /** `getthings.GET`: the things query for the autocompletion of property values — the
      property (default "key") starting with the typed text, of the given type, at most
      `limit` of them. A missing "type" is a bad request, a missing `q` or `limit` an
      AttributeError, and a limit that is not an integer a ValueError. */
  function GetThingsQuery(typ: Option<string>, prop: Option<string>, q: Option<string>, limit: Option<string>): (r: Result<seq<(string, Value)>, string>)
    ensures typ.None? ==> r == Err("BadRequest")
    ensures typ.Some? && (q.None? || limit.None?) ==> r == Err("AttributeError")
    ensures typ.Some? && q.Some? && limit.Some? ==> (r.Ok? <==> ParamInt(limit).Some?)
    ensures r.Ok? ==> UniqueKeys(r.value) && |r.value| == 3
    ensures r.Ok? ==> var p := if prop.Some? then prop.value else "key";
      r.value[0] == (p + "~", Str(q.value + "*"))
      && r.value[1] == ("type", Str(typ.value))
      && r.value[2] == ("limit", Int(ParamInt(limit).value))
  {
    if typ.None? then Err("BadRequest")
    else if q.None? || limit.None? then Err("AttributeError")
    else
      match ParamInt(limit)
      case None => Err("ValueError")
      case Some(n) =>
        var p := if prop.Some? then prop.value else "key";
        var key := p + "~";
        assert key[|key| - 1] == '~';
        assert key != "type" && key != "limit" by {
          assert "type"[3] != '~' && "limit"[4] != '~';
        }
        Ok([(key, Str(q.value + "*")), ("type", Str(typ.value)), ("limit", Int(n))])
  }

  // ---------------------------------------------------------------- feed._format_date

  const DayNames: seq<string> := ["Mon", "Tue", "Wed", "Thu", "Fri", "Sat", "Sun"]
  const MonthNames: seq<string> := ["Jan", "Feb", "Mar", "Apr", "May", "Jun", "Jul", "Aug", "Sep", "Oct", "Nov", "Dec"]

  /** Every day and month name has three letters. */
  lemma NamesWidth()
    ensures forall i :: 0 <= i < |DayNames| ==> |DayNames[i]| == 3
    ensures forall i :: 0 <= i < |MonthNames| ==> |MonthNames[i]| == 3
  {
  }

  /** `date.weekday()`: Monday is 0; 0001-01-01 was a Monday. */
  function Weekday(d: Dates.Date): (w: nat)
    requires Dates.ValidDate(d)
    ensures w < 7
  {
    (Dates.Ordinal(d) + 6) % 7
  }

  /** The day after has the next weekday. */
  lemma WeekdayNext(d: Dates.Date)
    requires Dates.ValidDate(d) && d != Dates.MaxDate
    ensures Weekday(Dates.NextDay(d)) == (Weekday(d) + 1) % 7
  {
    var n := Dates.Ordinal(d) + 6;
    assert Dates.Ordinal(Dates.NextDay(d)) + 6 == n + 1;
    ModSevenNext(n);
  }

  lemma ModSevenNext(n: int)
    ensures (n + 1) % 7 == (n % 7 + 1) % 7
  {
  }

  /** `feed._format_date(dt)`: the date format of section 5 of RFC 822, as in
      "Sat, 07 Sep 2002 00:00:01 GMT", from a time in GMT. */
  function FormatDate(t: Dates.DateTime): string
    requires Dates.ValidDateTime(t)
  {
    (DayNames[Weekday(t.date)] + ", " + PadNat(t.date.day, 2) + " " + MonthNames[t.date.month - 1] + " ")
    + (PadNat(t.date.year, 4) + " " + PadNat(t.hour, 2) + ":" + PadNat(t.minute, 2) + ":" + PadNat(t.second, 2)
       + " GMT")
  }

  function Pow10(w: nat): nat {
    if w == 0 then 1 else 10 * Pow10(w - 1)
  }

  /** A number below 10^w has at most w digits. */
  lemma {:induction false} NatToStringWidth(n: nat, w: nat)
    requires 1 <= w && n < Pow10(w)
    ensures |NatToString(n)| <= w
    decreases w
  {
    if n >= 10 {
      assert w > 1;
      NatToStringWidth(n / 10, w - 1);
    }
  }

  /** Zero-padding a number below 10^w gives exactly w digits. */
  lemma PadNatWidth(n: nat, w: nat)
    requires 1 <= w && n < Pow10(w)
    ensures |PadNat(n, w)| == w
  {
    NatToStringWidth(n, w);
  }

  /** The first twelve columns: day name, ", ", day, " ", month name, " ". */
  lemma FrontColumns(day: string, dd: string, mon: string)
    requires |day| == 3 && |dd| == 2 && |mon| == 3
    ensures var f := day + ", " + dd + " " + mon + " ";
      |f| == 12 && f[..3] == day && f[5..7] == dd && f[8..11] == mon
  {
  }

  /** The last seventeen columns: year, " ", hours, ":", minutes, ":", seconds, " GMT". */
  lemma BackColumns(yyyy: string, hh: string, mi: string, ss: string)
    requires |yyyy| == 4 && |hh| == 2 && |mi| == 2 && |ss| == 2
    ensures var b := yyyy + " " + hh + ":" + mi + ":" + ss + " GMT";
      |b| == 17 && b[..4] == yyyy && b[5..7] == hh && b[8..10] == mi && b[11..13] == ss && b[13..] == " GMT"
  {
  }

  /** Columns of a concatenation of a 12-character and a 17-character part. */
  lemma SplitColumns(f: string, b: string)
    requires |f| == 12 && |b| == 17
    ensures var s := f + b;
      |s| == 29 && s[..3] == f[..3] && s[5..7] == f[5..7] && s[8..11] == f[8..11]
      && s[12..16] == b[..4] && s[17..19] == b[5..7] && s[20..22] == b[8..10]
      && s[23..25] == b[11..13] && s[25..] == b[13..]
  {
  }

  /** Every field of the formatted date sits at its fixed column and reads back as the value
      it came from: 29 characters, the day name, the day of the month, the month name, the
      year and the time. */
  lemma FormatDateFields(t: Dates.DateTime)
    requires Dates.ValidDateTime(t)
    ensures var s := FormatDate(t);
      |s| == 29
      && s[..3] == DayNames[Weekday(t.date)]
      && ParseNat(s[5..7]) == Some(t.date.day)
      && s[8..11] == MonthNames[t.date.month - 1]
      && ParseNat(s[12..16]) == Some(t.date.year)
      && ParseNat(s[17..19]) == Some(t.hour)
      && ParseNat(s[20..22]) == Some(t.minute)
      && ParseNat(s[23..25]) == Some(t.second)
      && s[25..] == " GMT"
  {
    assert Pow10(2) == 100 && Pow10(4) == 10000;
    var dd, yyyy := PadNat(t.date.day, 2), PadNat(t.date.year, 4);
    var hh, mi, ss := PadNat(t.hour, 2), PadNat(t.minute, 2), PadNat(t.second, 2);
    PadNatWidth(t.date.day, 2);
    PadNatWidth(t.date.year, 4);
    PadNatWidth(t.hour, 2);
    PadNatWidth(t.minute, 2);
    PadNatWidth(t.second, 2);
    ParsePadNat(t.date.day, 2);
    ParsePadNat(t.date.year, 4);
    ParsePadNat(t.hour, 2);
    ParsePadNat(t.minute, 2);
    ParsePadNat(t.second, 2);
    var day, mon := DayNames[Weekday(t.date)], MonthNames[t.date.month - 1];
    NamesWidth();
    FrontColumns(day, dd, mon);
    BackColumns(yyyy, hh, mi, ss);
    var front := day + ", " + dd + " " + mon + " ";
    var back := yyyy + " " + hh + ":" + mi + ":" + ss + " GMT";
    SplitColumns(front, back);
  }
}
