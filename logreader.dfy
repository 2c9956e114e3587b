/** Reading the Infobase logs back (infogami/infobase/logreader.py): day arithmetic, the
    range of days a reader walks, the file of each day, and the "YYYY-MM-DD:offset" positions
    `LogFile.tell` hands out and `LogFile.seek` returns to. The log directory is a set of file
    names; the clock's date is a parameter. */
module LogReader {
  import opened Wrappers
  import opened Strings
  import opened Dates
  import InfobaseUtils
  import InfobaseLogger

  /** `nextday(date)`: the following day; past 9999-12-31 Python raises OverflowError. */
  function NextDay(d: Date): (r: Result<Date, string>)
    requires ValidDate(d)
    ensures r.Err? <==> d == MaxDate
    ensures r.Err? ==> r.error == "OverflowError"
    ensures r.Ok? ==> ValidDate(r.value) && Ordinal(r.value) == Ordinal(d) + 1
  {
    if d == MaxDate then Err("OverflowError") else Ok(Dates.NextDay(d))
  }

  /** The day after is the only valid date one ordinal later. */
  lemma NextDayUnique(d: Date, e: Date)
    requires ValidDate(d) && ValidDate(e) && Ordinal(e) == Ordinal(d) + 1
    ensures NextDay(d) == Ok(e)
  {
    if d == MaxDate {
      OrdinalOrder(d, e);
      assert false;
    }
    OrdinalOrder(e, Dates.NextDay(d));
  }

  /** The two days the tests step from: within a month and across a month's end. */
  lemma NextDayExamples()
    ensures NextDay(Date(2010, 10, 20)) == Ok(Date(2010, 10, 21))
    ensures NextDay(Date(2010, 10, 31)) == Ok(Date(2010, 11, 1))
  {
  }

  /** What `daterange` accepts for its bounds: a date, or a datetime whose date is taken. */
  datatype When = OnDate(day: Date) | AtTime(time: DateTime)

  predicate ValidWhen(w: When) {
    match w
    case OnDate(d) => ValidDate(d)
    case AtTime(t) => ValidDateTime(t)
  }

  function DayOf(w: When): Date {
    match w
    case OnDate(d) => d
    case AtTime(t) => t.date
  }

  /** The days `daterange(b, e)` yields, and whether it then raised OverflowError (when it
      reaches 9999-12-31 and steps past it): every day from `b` through `e`, none when `b` is
      after `e`. */
  function DateRange(b: Date, e: Date): (r: (seq<Date>, bool))
    requires ValidDate(b) && ValidDate(e)
    ensures Before(e, b) ==> r == ([], false)
    ensures NotAfter(b, e) ==> |r.0| == Ordinal(e) - Ordinal(b) + 1 && r.1 == (e == MaxDate)
    ensures forall i :: 0 <= i < |r.0| ==> ValidDate(r.0[i]) && Ordinal(r.0[i]) == Ordinal(b) + i
    decreases Ordinal(e) - Ordinal(b) + 1
  {
    OrdinalOrder(b, e);
    if !NotAfter(b, e) then ([], false)
    else if b == MaxDate then ([b], true)
    else
      var n := Dates.NextDay(b);
      OrdinalOrder(n, e);
      OrdinalOrder(e, n);
      var rest := DateRange(n, e);
      ([b] + rest.0, rest.1)
  }

  /** A day lies in the range exactly when it is between the bounds, and then it sits at
      the index its distance from `b` gives. */
  lemma DateRangeMembers(b: Date, e: Date, d: Date)
    requires ValidDate(b) && ValidDate(e) && ValidDate(d)
    ensures d in DateRange(b, e).0 <==> NotAfter(b, d) && NotAfter(d, e)
    ensures NotAfter(b, d) && NotAfter(d, e) ==> DateRange(b, e).0[Ordinal(d) - Ordinal(b)] == d
  {
    var ds := DateRange(b, e).0;
    OrdinalOrder(b, d);
    OrdinalOrder(d, e);
    OrdinalOrder(b, e);
    if d in ds {
      var i :| 0 <= i < |ds| && ds[i] == d;
    }
    if NotAfter(b, d) && NotAfter(d, e) {
      var i := Ordinal(d) - Ordinal(b);
      OrdinalOrder(ds[i], d);
    }
  }

  /** One step of `daterange`: the first day, then the range from the next day. */
  lemma DateRangeStep(b: Date, e: Date)
    requires ValidDate(b) && ValidDate(e) && NotAfter(b, e)
    ensures b == MaxDate ==> DateRange(b, e) == ([b], true)
    ensures b != MaxDate ==> DateRange(b, e) == ([b] + DateRange(Dates.NextDay(b), e).0, DateRange(Dates.NextDay(b), e).1)
  {
  }

  /** A range of one day, and of a day and the next. */
  lemma DateRangeShort(b: Date)
    requires ValidDate(b) && b != MaxDate
    ensures DateRange(b, b) == ([b], false)
    ensures Dates.NextDay(b) != MaxDate ==> DateRange(b, Dates.NextDay(b)) == ([b, Dates.NextDay(b)], false)
  {
    var n := Dates.NextDay(b);
    OrdinalOrder(b, n);
    OrdinalOrder(n, b);
    DateRangeStep(b, b);
    assert DateRange(n, b) == ([], false);
    assert [b] + [] == [b];
    if n != MaxDate {
      DateRangeStep(b, n);
      DateRangeStep(n, n);
      OrdinalOrder(n, Dates.NextDay(n));
      assert DateRange(Dates.NextDay(n), n) == ([], false);
      assert [n] + [] == [n];
      assert DateRange(n, n) == ([n], false);
      assert [b] + [n] == [b, n];
    }
  }

  /** The tests' ranges: one day, two days, and none when the bounds are swapped. */
  lemma DateRangeExamples()
    ensures DateRange(Date(2010, 10, 10), Date(2010, 10, 10)) == ([Date(2010, 10, 10)], false)
    ensures DateRange(Date(2010, 10, 10), Date(2010, 10, 11)) == ([Date(2010, 10, 10), Date(2010, 10, 11)], false)
    ensures DateRange(Date(2010, 10, 11), Date(2010, 10, 10)) == ([], false)
  {
    var oct10 := Date(2010, 10, 10);
    assert Dates.NextDay(oct10) == Date(2010, 10, 11);
    DateRangeShort(oct10);
  }

  /** The end `daterange` uses: the given one's date, today's when none is given. */
  function EndDay(end: Option<When>, today: Date): Date {
    if end.Some? then DayOf(end.value) else today
  }

  /** `list(daterange(begin, end))`: `end` defaults to today's date, datetimes are cut to their
      date, and the loop steps one day at a time while `begin <= end`. */
  method CollectDateRange(begin: When, end: Option<When>, today: Date) returns (days: seq<Date>, overflow: bool)
    requires ValidWhen(begin) && ValidDate(today)
    requires end.Some? ==> ValidWhen(end.value)
    ensures (days, overflow) == DateRange(DayOf(begin), EndDay(end, today))
  {
    var e := EndDay(end, today);
    var b := DayOf(begin);
    days, overflow := CollectDays(b, e);
  }

  method CollectDays(begin: Date, e: Date) returns (days: seq<Date>, overflow: bool)
    requires ValidDate(begin) && ValidDate(e)
    ensures (days, overflow) == DateRange(begin, e)
  {
    var b := begin;
    days := [];
    CollectStart(begin, e);
    while NotAfter(b, e)
      invariant ValidDate(b)
      invariant DateRange(begin, e) == (days + DateRange(b, e).0, DateRange(b, e).1)
      decreases Ordinal(e) - Ordinal(b)
    {
      if b == MaxDate {
        CollectLast(begin, e, days, b);
        return days + [b], true;
      }
      CollectNext(begin, e, days, b);
      days := days + [b];
      b := Dates.NextDay(b);
    }
    CollectEnd(begin, e, days, b);
    return days, false;
  }

  lemma CollectStart(b: Date, e: Date)
    requires ValidDate(b) && ValidDate(e)
    ensures DateRange(b, e) == ([] + DateRange(b, e).0, DateRange(b, e).1)
  {
    assert [] + DateRange(b, e).0 == DateRange(b, e).0;
  }

  /** The last representable day collected: the range ends there, with the overflow flag. */
  lemma CollectLast(begin: Date, e: Date, days: seq<Date>, b: Date)
    requires ValidDate(begin) && ValidDate(e) && b == MaxDate && NotAfter(b, e)
    requires DateRange(begin, e) == (days + DateRange(b, e).0, DateRange(b, e).1)
    ensures DateRange(begin, e) == (days + [b], true)
  {
    DateRangeStep(b, e);
  }

  /** One day collected: the range so far grows by that day. */
  lemma CollectNext(begin: Date, e: Date, days: seq<Date>, b: Date)
    requires ValidDate(begin) && ValidDate(e) && ValidDate(b) && b != MaxDate && NotAfter(b, e)
    requires DateRange(begin, e) == (days + DateRange(b, e).0, DateRange(b, e).1)
    ensures DateRange(begin, e) == ((days + [b]) + DateRange(Dates.NextDay(b), e).0, DateRange(Dates.NextDay(b), e).1)
  {
    DateRangeStep(b, e);
    AppendAssoc(days, b, DateRange(Dates.NextDay(b), e).0);
  }

  lemma AppendAssoc<T>(a: seq<T>, x: T, c: seq<T>)
    ensures a + ([x] + c) == (a + [x]) + c
  {
  }

  lemma CollectEnd(begin: Date, e: Date, days: seq<Date>, b: Date)
    requires ValidDate(begin) && ValidDate(e) && ValidDate(b) && !NotAfter(b, e)
    requires DateRange(begin, e) == (days + DateRange(b, e).0, DateRange(b, e).1)
    ensures DateRange(begin, e) == (days, false)
  {
    assert days + [] == days;
  }

  /** `ijoin(iters)`: the items of each iterable in turn. */
  function IJoin<T>(iters: seq<seq<T>>): seq<T> {
    if iters == [] then [] else iters[0] + IJoin(iters[1..])
  }

  /** An item is joined exactly when one of the iterables holds it. */
  lemma {:induction false} IJoinMember<T>(iters: seq<seq<T>>, x: T)
    ensures x in IJoin(iters) <==> exists i :: 0 <= i < |iters| && x in iters[i]
  {
    if iters != [] {
      IJoinMember(iters[1..], x);
      if x in IJoin(iters[1..]) {
        var i :| 0 <= i < |iters[1..]| && x in iters[1..][i];
        assert x in iters[i + 1];
      }
      if exists i :: 0 <= i < |iters| && x in iters[i] {
        var i :| 0 <= i < |iters| && x in iters[i];
        if i > 0 { assert x in iters[1..][i - 1]; }
      }
    }
  }

  /** Joining two lists of iterables is joining each and concatenating. */
  lemma {:induction false} IJoinAppend<T>(a: seq<seq<T>>, b: seq<seq<T>>)
    ensures IJoin(a + b) == IJoin(a) + IJoin(b)
  {
    if a != [] {
      assert (a + b)[0] == a[0] && (a + b)[1..] == a[1..] + b;
      IJoinAppend(a[1..], b);
    } else {
      assert a + b == b;
    }
  }

  /** The docstring's example. */
  lemma IJoinExample()
    ensures IJoin([[0, 1, 2, 3, 4], [10, 11, 12, 13, 14]]) == [0, 1, 2, 3, 4, 10, 11, 12, 13, 14]
  {
    var a, b := [0, 1, 2, 3, 4], [10, 11, 12, 13, 14];
    var none: seq<seq<int>> := [];
    assert [a, b][1..] == [b];
    assert [b][1..] == none;
  }

  predicate AllDots(s: string) {
    forall i :: 0 <= i < |s| ==> s[i] == '.'
  }

  /** `os.path.splitext(p)`: the extension is the last '.' of the last path component and what
      follows it, unless only dots precede it in that component. */
  function SplitExt(p: string): (r: (string, string))
    ensures r.0 + r.1 == p
    ensures r.1 == [] || (r.1[0] == '.' && '/' !in r.1 && '.' !in r.1[1..])
  {
    var start := match LastIndexOf(p, '/') case None => 0 case Some(i) => i + 1;
    match LastIndexOf(p, '.')
    case None => (p, [])
    case Some(dot) =>
      if dot >= start && !AllDots(p[start..dot]) then
        assert p == p[..dot] + p[dot..];
        assert '.' !in p[dot..][1..] by { assert p[dot..][1..] == p[dot + 1..]; }
        (p[..dot], p[dot..])
      else (p, [])
  }

  /** `file2date(file)`: the last three components of the name without its extension are the
      year, month and day; too few components, a non-number or an impossible date is ValueError. */
  function File2Date(file: string): (r: Result<Date, string>)
    ensures r.Ok? ==> ValidDate(r.value)
    ensures r.Err? ==> r.error == "ValueError"
  {
    var parts := RSplit(SplitExt(file).0, '/', 3);
    if |parts| != 4 then Err("ValueError")
    else
      match InfobaseUtils.ParseInts(parts[1..])
      case None => Err("ValueError")
      case Some(ns) =>
        var d := Date(ns[0], ns[1], ns[2]);
        if ValidDate(d) then Ok(d) else Err("ValueError")
  }

  /** `date2file(date)`: "root/%04d/%02d/%02d.log". */
  function Date2File(root: string, d: Date): string
    requires ValidDate(d)
  {
    root + "/" + PadNat(d.year, 4) + "/" + PadNat(d.month, 2) + "/" + PadNat(d.day, 2) + ".log"
  }

  /** A name ending in neither '.' nor '/', followed by an extension, splits into the two. */
  lemma SplitExtOf(name: string, ext: string)
    requires |name| >= 1 && name[|name| - 1] != '.' && name[|name| - 1] != '/'
    requires |ext| >= 1 && ext[0] == '.' && '.' !in ext[1..] && '/' !in ext
    ensures SplitExt(name + ext) == (name, ext)
  {
    var p := name + ext;
    assert p[|name| - 1] == name[|name| - 1];
    assert p[..|name|] == name && p[|name|..] == ext;
    LastDot(name, ext);
    var start := match LastIndexOf(p, '/') case None => 0 case Some(i) => i + 1;
    assert forall k :: |name| <= k < |p| ==> p[k] == ext[k - |name|];
    assert p[start..|name|][|name| - 1 - start] == p[|name| - 1];
  }

  lemma LastDot(name: string, ext: string)
    requires |ext| >= 1 && ext[0] == '.' && '.' !in ext[1..]
    ensures LastIndexOf(name + ext, '.') == Some(|name|)
  {
    assert ext == [ext[0]] + ext[1..];
    assert name + ['.'] + ext[1..] == name + ext;
    LastIndexOfConcat(name, '.', ext[1..]);
  }

  /** The last three '/'-separated components split off from the right. */
  lemma RSplitThree(root: string, y: string, m: string, dd: string)
    requires '/' !in y && '/' !in m && '/' !in dd
    ensures RSplit(root + "/" + y + "/" + m + "/" + dd, '/', 3) == [root, y, m, dd]
  {
    assert root + "/" + y + "/" + m + "/" + dd == (root + "/" + y + "/" + m) + ['/'] + dd;
    RSplitConcat(root + "/" + y + "/" + m, '/', dd, 3);
    assert root + "/" + y + "/" + m == (root + "/" + y) + ['/'] + m;
    RSplitConcat(root + "/" + y, '/', m, 2);
    assert root + "/" + y == root + ['/'] + y;
    RSplitConcat(root, '/', y, 1);
  }

  /** `file2date(date2file(d)) == d` for every root and every date. */
  lemma File2DateRoundTrip(root: string, d: Date)
    requires ValidDate(d)
    ensures File2Date(Date2File(root, d)) == Ok(d)
  {
    LogFileParts(root, d);
    DateFields(d);
    var parts := [root, PadNat(d.year, 4), PadNat(d.month, 2), PadNat(d.day, 2)];
    assert parts[1..] == [PadNat(d.year, 4), PadNat(d.month, 2), PadNat(d.day, 2)];
  }

  /** The name of a day's file, without its extension, split into root, year, month and day. */
  lemma LogFileParts(root: string, d: Date)
    requires ValidDate(d)
    ensures RSplit(SplitExt(Date2File(root, d)).0, '/', 3) == [root, PadNat(d.year, 4), PadNat(d.month, 2), PadNat(d.day, 2)]
  {
    var y, m, dd := PadNat(d.year, 4), PadNat(d.month, 2), PadNat(d.day, 2);
    var stem := root + "/" + y + "/" + m + "/" + dd;
    assert Date2File(root, d) == stem + ".log";
    assert '.' !in ".log"[1..] && '/' !in ".log";
    assert stem[|stem| - 1] == dd[|dd| - 1] && IsDigit(dd[|dd| - 1]);
    DigitsHaveNo(y, '/'); DigitsHaveNo(m, '/'); DigitsHaveNo(dd, '/');
    SplitExtOf(stem, ".log");
    RSplitThree(root, y, m, dd);
  }

  lemma DateFields(d: Date)
    requires ValidDate(d)
    ensures InfobaseUtils.ParseInts([PadNat(d.year, 4), PadNat(d.month, 2), PadNat(d.day, 2)]) == Some([d.year, d.month, d.day])
  {
    InfobaseUtils.ParsePadded(d.year, 4); InfobaseUtils.ParsePadded(d.month, 2); InfobaseUtils.ParsePadded(d.day, 2);
    InfobaseUtils.ParseIntsAll([PadNat(d.year, 4), PadNat(d.month, 2), PadNat(d.day, 2)], [d.year, d.month, d.day]);
  }

  /** A name `date2file` produces under `root`. */
  predicate IsLogFile(root: string, f: string) {
    File2Date(f).Ok? && ValidDate(File2Date(f).value) && Date2File(root, File2Date(f).value) == f
  }

  /** The existing files among the files of the given days, in the days' order. */
  function ExistingFiles(root: string, days: seq<Date>, fs: set<string>): (r: seq<string>)
    requires forall i :: 0 <= i < |days| ==> ValidDate(days[i])
    ensures forall i :: 0 <= i < |r| ==> r[i] in fs
  {
    if days == [] then []
    else
      var f := Date2File(root, days[0]);
      var rest := ExistingFiles(root, days[1..], fs);
      if f in fs then [f] + rest else rest
  }

  /** Every file found is the file of one of the days. */
  lemma {:induction false} ExistingFilesAreLogFiles(root: string, days: seq<Date>, fs: set<string>)
    requires forall i :: 0 <= i < |days| ==> ValidDate(days[i])
    ensures forall i :: 0 <= i < |ExistingFiles(root, days, fs)| ==> IsLogFile(root, ExistingFiles(root, days, fs)[i])
  {
    if days != [] {
      ExistingFilesAreLogFiles(root, days[1..], fs);
      var f := Date2File(root, days[0]);
      var rest := ExistingFiles(root, days[1..], fs);
      if f in fs {
        File2DateRoundTrip(root, days[0]);
        assert ExistingFiles(root, days, fs) == [f] + rest;
      }
    }
  }

  /** The first existing file is that of the first day whose file exists; none exists when
      the list is empty. */
  lemma {:induction false} ExistingFilesHead(root: string, days: seq<Date>, fs: set<string>) returns (k: nat)
    requires forall i :: 0 <= i < |days| ==> ValidDate(days[i])
    ensures ExistingFiles(root, days, fs) == [] ==> forall i :: 0 <= i < |days| ==> Date2File(root, days[i]) !in fs
    ensures ExistingFiles(root, days, fs) != [] ==>
      && k < |days| && ExistingFiles(root, days, fs)[0] == Date2File(root, days[k])
      && forall i :: 0 <= i < k ==> Date2File(root, days[i]) !in fs
  {
    if days == [] {
      k := 0;
    } else if Date2File(root, days[0]) in fs {
      k := 0;
    } else {
      var j := ExistingFilesHead(root, days[1..], fs);
      k := j + 1;
      forall i | 0 <= i < |days| && (ExistingFiles(root, days, fs) == [] || i < k)
        ensures Date2File(root, days[i]) !in fs
      {
        if i > 0 { assert days[i] == days[1..][i - 1]; }
      }
    }
  }

  /** `find_filelist(from_date)`: the files of the days from `from_date` through today that
      exist; reaching 9999-12-31 makes `daterange` raise OverflowError. */
  function FindFilelist(root: string, from: Date, today: Date, fs: set<string>): (r: Result<seq<string>, string>)
    requires ValidDate(from) && ValidDate(today)
    ensures r.Err? <==> NotAfter(from, today) && today == MaxDate
    ensures r.Err? ==> r.error == "OverflowError"
    ensures r.Ok? ==> forall i :: 0 <= i < |r.value| ==> r.value[i] in fs
  {
    OrdinalOrder(from, today);
    var (days, overflow) := DateRange(from, today);
    if overflow then Err("OverflowError") else Ok(ExistingFiles(root, days, fs))
  }

  /** Every file `find_filelist` lists is the file `date2file` gives for its day. */
  lemma FindFilelistLogFiles(root: string, from: Date, today: Date, fs: set<string>)
    requires ValidDate(from) && ValidDate(today)
    ensures FindFilelist(root, from, today, fs).Ok? ==>
      forall i :: 0 <= i < |FindFilelist(root, from, today, fs).value| ==> IsLogFile(root, FindFilelist(root, from, today, fs).value[i])
  {
    ExistingFilesAreLogFiles(root, DateRange(from, today).0, fs);
  }

  /** The list starts with the file of the earliest day from `from` on whose file exists,
      through today; it is empty when no such file exists. */
  lemma FindFilelistHead(root: string, from: Date, today: Date, fs: set<string>, d: Date)
    requires ValidDate(from) && ValidDate(today) && ValidDate(d)
    requires FindFilelist(root, from, today, fs).Ok?
    requires NotAfter(from, d) && NotAfter(d, today)
    ensures var files := FindFilelist(root, from, today, fs).value;
      && (files == [] ==> Date2File(root, d) !in fs)
      && (files != [] && Date2File(root, d) in fs ==> File2Date(files[0]).Ok? && NotAfter(File2Date(files[0]).value, d))
      && (d == from && Date2File(root, d) in fs ==> files != [] && files[0] == Date2File(root, d))
  {
    OrdinalOrder(from, today);
    var days := DateRange(from, today).0;
    var files := ExistingFiles(root, days, fs);
    var k := ExistingFilesHead(root, days, fs);
    DateRangeMembers(from, today, d);
    var j := Ordinal(d) - Ordinal(from);
    if files != [] && Date2File(root, d) in fs {
      File2DateRoundTrip(root, days[k]);
      OrdinalOrder(days[k], d);
    }
  }

  /** The date `date.fromtimestamp(0)` gives. That is local time; the model takes a server
      running on UTC, where it is 1 January 1970. */
  const Epoch := Date(1970, 1, 1)

  /** What a `LogFile` is at: the files still to read, the current file and the offset in it. */
  datatype Cursor = Cursor(filelist: seq<string>, current: Option<string>, position: nat)

  predicate ValidCursor(root: string, c: Cursor) {
    && (forall i :: 0 <= i < |c.filelist| ==> IsLogFile(root, c.filelist[i]))
    && (c.current.Some? ==> IsLogFile(root, c.current.value))
  }

  /** `parse` half of `seek(offset)`: "YYYY-MM-DD:offset" into a date and an integer; the
      wrong number of ':' or '-' parts, a non-number or an impossible date is ValueError. */
  function ParseOffset(s: string): (r: Result<(Date, int), string>)
    ensures r.Ok? ==> ValidDate(r.value.0)
    ensures r.Err? ==> r.error == "ValueError"
  {
    var parts := Split(s, ':');
    if |parts| != 2 then Err("ValueError")
    else
      var ymd := Split(parts[0], '-');
      if |ymd| != 3 then Err("ValueError")
      else
        match InfobaseUtils.ParseInts(ymd + [parts[1]])
        case None => Err("ValueError")
        case Some(ns) =>
          var d := Date(ns[0], ns[1], ns[2]);
          if ValidDate(d) then Ok((d, ns[3])) else Err("ValueError")
  }

  /** The text of a position: "%04d-%02d-%02d:%d". */
  function OffsetText(d: Date, n: nat): string
    requires ValidDate(d)
  {
    IsoDate(d) + ":" + NatToString(n)
  }

  /** A position read back is the position written. */
  lemma ParseOffsetText(d: Date, n: nat)
    requires ValidDate(d)
    ensures ParseOffset(OffsetText(d, n)) == Ok((d, n as int))
  {
    var date, num := IsoDate(d), NatToString(n);
    InfobaseLogger.DigitsLack(d.year, 4, ':'); InfobaseLogger.DigitsLack(d.month, 2, ':'); InfobaseLogger.DigitsLack(d.day, 2, ':');
    assert ':' !in date;
    DigitsHaveNo(num, ':');
    assert [date, num][1..] == [num];
    assert Join([date, num], ":") == OffsetText(d, n);
    JoinSplit([date, num], ':');
    InfobaseLogger.DateSplit(d);
    var tokens := Split(date, '-') + [num];
    var ns := [d.year, d.month, d.day, n];
    forall i | 0 <= i < 4 ensures ParseInt(tokens[i]) == Some(ns[i]) {
      if i == 0 { InfobaseUtils.ParsePadded(d.year, 4); }
      else if i == 1 { InfobaseUtils.ParsePadded(d.month, 2); }
      else if i == 2 { InfobaseUtils.ParsePadded(d.day, 2); }
      else { InfobaseUtils.ParsePadded(n, 1); }
    }
    InfobaseUtils.ParseIntsAll(tokens, ns);
  }

  /** `tell()`: the epoch's date and offset 0 before any file is open, otherwise the current
      file's date and the offset in it. */
  function TellOf(root: string, c: Cursor): (r: string)
    requires ValidCursor(root, c)
    ensures c.current.None? ==> ParseOffset(r) == Ok((Epoch, 0))
    ensures c.current.Some? ==> ParseOffset(r) == Ok((File2Date(c.current.value).value, c.position as int))
  {
    if c.current.None? then
      ParseOffsetText(Epoch, 0);
      assert OffsetText(Epoch, 0) == IsoDate(Epoch) + ":0" by { assert NatToString(0) == "0"; }
      IsoDate(Epoch) + ":0"
    else
      var d := File2Date(c.current.value).value;
      ParseOffsetText(d, c.position);
      OffsetText(d, c.position)
  }

  /** `advance()`: the next file of the list becomes current, read from its start. */
  function AdvanceOf(c: Cursor): Cursor {
    if c.filelist != [] then Cursor(c.filelist[1..], Some(c.filelist[0]), 0) else c
  }

  /** The second half of `seek(offset)`, once the offset is parsed: the files from its date on
      become the list and the first is opened; the offset applies only when that file is the
      one of the offset's date, and a negative one makes the file's seek fail with IOError.
      The new state and the error, if any. */
  function SeekTo(root: string, c: Cursor, target: Result<(Date, int), string>, today: Date, fs: set<string>): (r: (Cursor, Option<string>))
    requires ValidCursor(root, c) && ValidDate(today)
    requires target.Ok? ==> ValidDate(target.value.0)
    ensures ValidCursor(root, r.0)
    ensures target.Err? ==> r == (c, Some(target.error))
  {
    match target
    case Err(e) => (c, Some(e))
    case Ok((d, n)) =>
      match FindFilelist(root, d, today, fs)
      case Err(e) => (c, Some(e))
      case Ok(files) =>
        FindFilelistLogFiles(root, d, today, fs);
        var c1 := AdvanceOf(c.(filelist := files));
        if c1.current.Some? && File2Date(c1.current.value) == Ok(d) then
          if n < 0 then (c1, Some("IOError")) else (c1.(position := n), None)
        else (c1, None)
  }

  /** `seek(tell())` returns to the same file and offset, whenever that file still exists and
      its day is not after today (and today is not the last day `date` can represent). */
  lemma SeekTell(root: string, c: Cursor, today: Date, fs: set<string>)
    requires ValidCursor(root, c) && ValidDate(today) && today != MaxDate
    requires c.current.Some? && c.current.value in fs
    requires NotAfter(File2Date(c.current.value).value, today)
    ensures var r := SeekTo(root, c, ParseOffset(TellOf(root, c)), today, fs);
      r.1 == None && r.0.current == c.current && r.0.position == c.position
  {
    var d := File2Date(c.current.value).value;
    FindFilelistHead(root, d, today, fs, d);
    SeekToOwnFile(root, c, d, c.position, today, fs);
  }

  /** Seeking to a day whose file exists opens that file at the offset. */
  lemma SeekToOwnFile(root: string, c: Cursor, d: Date, n: int, today: Date, fs: set<string>)
    requires ValidCursor(root, c) && ValidDate(today) && ValidDate(d) && n >= 0
    requires FindFilelist(root, d, today, fs).Ok?
    requires FindFilelist(root, d, today, fs).value != [] && FindFilelist(root, d, today, fs).value[0] == Date2File(root, d)
    ensures SeekTo(root, c, Ok((d, n)), today, fs) == (Cursor(FindFilelist(root, d, today, fs).value[1..], Some(Date2File(root, d)), n), None)
  {
    File2DateRoundTrip(root, d);
  }

  /** Seeking to a day without a file starts the first later file at offset 0; that file is
      the earliest one on or after the day. */
  lemma SeekToLaterFile(root: string, c: Cursor, d: Date, n: int, today: Date, fs: set<string>, e: Date)
    requires ValidCursor(root, c) && ValidDate(today) && ValidDate(d) && ValidDate(e)
    requires Date2File(root, d) !in fs && FindFilelist(root, d, today, fs).Ok?
    requires NotAfter(d, e) && NotAfter(e, today) && Date2File(root, e) in fs
    ensures var r := SeekTo(root, c, Ok((d, n)), today, fs);
      && r.1 == None && r.0.current.Some? && r.0.position == 0
      && File2Date(r.0.current.value).Ok? && NotAfter(File2Date(r.0.current.value).value, e)
  {
    var files := FindFilelist(root, d, today, fs).value;
    FindFilelistHead(root, d, today, fs, e);
    FindFilelistLogFiles(root, d, today, fs);
    File2DateRoundTrip(root, d);
    assert files[0] != Date2File(root, d);
  }

  /** With no file open and no log file to open, seeking changes neither `tell()` nor the
      current file. */
  lemma SeekWithoutFiles(root: string, c: Cursor, target: Result<(Date, int), string>, today: Date, fs: set<string>)
    requires ValidCursor(root, c) && ValidDate(today) && c.current.None?
    requires target.Ok? ==> ValidDate(target.value.0)
    requires forall d :: ValidDate(d) ==> Date2File(root, d) !in fs
    ensures var r := SeekTo(root, c, target, today, fs);
      && r.0.current.None? && TellOf(root, r.0) == TellOf(root, c)
  {
    if target.Ok? {
      var found := FindFilelist(root, target.value.0, today, fs);
      if found.Ok? {
        FindFilelistLogFiles(root, target.value.0, today, fs);
        NoLogFiles(root, found.value, fs);
      }
    }
  }

  lemma NoLogFiles(root: string, files: seq<string>, fs: set<string>)
    requires forall i :: 0 <= i < |files| ==> IsLogFile(root, files[i])
    requires forall d :: ValidDate(d) ==> Date2File(root, d) !in fs
    ensures forall i :: 0 <= i < |files| ==> files[i] !in fs
  {
  }

  /** A `LogFile` over the log directory `root`: the files still to read, the current file and
      the offset in it (the open file itself is its name and offset). */
  class LogFile {
    const root: string
    const extn: string
    var filelist: seq<string>
    var current: Option<string>
    var position: nat

    function State(): Cursor
      reads this
    {
      Cursor(filelist, current, position)
    }

    predicate Valid()
      reads this
    {
      ValidCursor(root, State())
    }

    /** `LogFile(root)`: no file list and no current file yet. */
    constructor (root: string)
      ensures this.root == root && extn == ".log"
      ensures State() == Cursor([], None, 0) && Valid()
    {
      this.root := root;
      extn := ".log";
      filelist := [];
      current := None;
      position := 0;
    }

    /** `advance()`: moves to the next file when there is one, and says whether it did. */
    method Advance() returns (moved: bool)
      requires Valid()
      modifies this
      ensures Valid()
      ensures moved <==> old(filelist) != []
      ensures State() == AdvanceOf(old(State()))
    {
      if filelist != [] {
        current := Some(filelist[0]);
        filelist := filelist[1..];
        position := 0;
        return true;
      }
      return false;
    }

    function Tell(): string
      reads this
      requires Valid()
    {
      TellOf(root, State())
    }

    /** `seek(offset)`, given today's date and the files that exist. */
    method Seek(offset: string, today: Date, fs: set<string>) returns (err: Option<string>)
      requires Valid() && ValidDate(today)
      modifies this
      ensures Valid()
      ensures (State(), err) == SeekTo(root, old(State()), ParseOffset(offset), today, fs)
    {
      var parsed := ParseOffset(offset);
      if parsed.Err? {
        return Some(parsed.error);
      }
      var (d, n) := parsed.value;
      var files := FindFilelist(root, d, today, fs);
      if files.Err? {
        return Some(files.error);
      }
      FindFilelistLogFiles(root, d, today, fs);
      filelist := files.value;
      var _ := Advance();
      if current.Some? && File2Date(current.value) == Ok(d) {
        if n < 0 {
          return Some("IOError");
        }
        position := n;
      }
      return None;
    }
  }

  /** The logger's file of a day is the reader's, for four-digit years under a root that does
      not end in '/' and uncompressed logs. */
  lemma LoggerPathIsReaderPath(root: string, d: Date)
    requires ValidDate(d) && d.year >= 1000 && root != [] && !EndsWith(root, "/")
    ensures InfobaseLogger.LogPath(root, ".log", d) == Date2File(root, d)
  {
    FourDigits(d.year);
    var y, m, dd := PadNat(d.year, 4), PadNat(d.month, 2), PadNat(d.day, 2);
    assert PadNat(d.year, 2) == y;
    var a := root + "/" + y;
    assert !EndsWith(a, "/") by { assert a[|a| - 1] == y[|y| - 1]; assert IsDigit(y[|y| - 1]); }
    var b := a + "/" + m;
    assert !EndsWith(b, "/") by { assert b[|b| - 1] == m[|m| - 1]; assert IsDigit(m[|m| - 1]); }
  }

  lemma FourDigits(n: nat)
    requires n >= 1000
    ensures |NatToString(n)| >= 4
  {
    assert n / 10 >= 100 && n / 100 >= 10 && n / 1000 >= 1;
    assert |NatToString(n)| == |NatToString(n / 10)| + 1;
    assert |NatToString(n / 10)| == |NatToString(n / 10 / 10)| + 1;
    assert |NatToString(n / 10 / 10)| == |NatToString(n / 10 / 10 / 10)| + 1;
  }
}
