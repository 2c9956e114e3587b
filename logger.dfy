/** The Infobase event logger (infogami/infobase/logger.py): site events become log records
    (action, site, timestamp, data) appended to one file per day under the log root, and
    `to_timestamp` reads a record's timestamp back. The files are a list of written records;
    the clock is a parameter. */
module InfobaseLogger {
  import opened Wrappers
  import opened Json
  import opened Strings
  import opened Dates
  import InfobaseUtils

  /** `datetime(*map(int, tokens))` on the seven or six fields found. */
  function MakeTimestamp(tokens: seq<string>): (r: Result<DateTime, string>)
    ensures r.Ok? ==> ValidDateTime(r.value)
  {
    match InfobaseUtils.ParseInts(tokens)
    case None => Err("ValueError")
    case Some(ns) => InfobaseUtils.MakeDateTime(ns)
  }

  /** `to_timestamp(s)` as written: "Y-M-D", 'T', "H:M:S", '.', microseconds, each unpacking
      demanding exactly that many parts (ValueError otherwise). */
  function ToTimestampAsWritten(s: string): (r: Result<DateTime, string>)
    ensures r.Ok? ==> ValidDateTime(r.value)
  {
    match SplitOnce(s, 'T')
    case None => Err("ValueError")
    case Some((date, time)) =>
      var ymd := Split(date, '-');
      var hms := Split(time, ':');
      if |ymd| != 3 || |hms| != 3 then Err("ValueError")
      else
        var sec := Split(hms[2], '.');
        if |sec| != 2 then Err("ValueError")
        else MakeTimestamp(ymd + hms[..2] + sec)
  }

  /** `to_timestamp` as `isoformat()` needs it: the fraction is optional, as `isoformat()`
      leaves it out when the microseconds are zero. */
  function ToTimestamp(s: string): (r: Result<DateTime, string>)
    ensures r.Ok? ==> ValidDateTime(r.value)
    ensures ToTimestampAsWritten(s).Ok? ==> r == ToTimestampAsWritten(s)
  {
    match SplitOnce(s, 'T')
    case None => Err("ValueError")
    case Some((date, time)) =>
      var ymd := Split(date, '-');
      var hms := Split(time, ':');
      if |ymd| != 3 || |hms| != 3 then Err("ValueError")
      else
        var sec := Split(hms[2], '.');
        if |sec| > 2 then Err("ValueError")
        else MakeTimestamp(ymd + hms[..2] + sec)
  }

  /** The date and time parts of `isoformat()`. */
  function TimeText(t: DateTime): string
    requires ValidDateTime(t)
  {
    PadNat(t.hour, 2) + ":" + PadNat(t.minute, 2) + ":" + InfobaseUtils.SecondsText(t)
  }

  lemma DigitsLack(n: nat, width: nat, c: char)
    requires !IsDigit(c)
    ensures c !in PadNat(n, width)
  {
    DigitsHaveNo(PadNat(n, width), c);
  }

  /** How `isoformat()` splits: at the first 'T', at '-', at ':' and at '.'. */
  lemma IsoPieces(t: DateTime)
    requires ValidDateTime(t)
    ensures SplitOnce(IsoFormat(t), 'T') == Some((IsoDate(t.date), TimeText(t)))
    ensures Split(IsoDate(t.date), '-') == [PadNat(t.date.year, 4), PadNat(t.date.month, 2), PadNat(t.date.day, 2)]
    ensures Split(TimeText(t), ':') == [PadNat(t.hour, 2), PadNat(t.minute, 2), InfobaseUtils.SecondsText(t)]
    ensures Split(InfobaseUtils.SecondsText(t), '.') == [PadNat(t.second, 2)] + (if t.micro != 0 then [PadNat(t.micro, 6)] else [])
  {
    IsoSplitT(t);
    DateSplit(t.date);
    TimeSplit(t);
    SecondsSplit(t);
  }

  lemma IsoSplitT(t: DateTime)
    requires ValidDateTime(t)
    ensures SplitOnce(IsoFormat(t), 'T') == Some((IsoDate(t.date), TimeText(t)))
  {
    DigitsLack(t.date.year, 4, 'T'); DigitsLack(t.date.month, 2, 'T'); DigitsLack(t.date.day, 2, 'T');
    var date := IsoDate(t.date);
    assert IsoFormat(t) == date + ['T'] + TimeText(t);
    assert 'T' !in date;
    SplitOnceConcat(date, 'T', TimeText(t));
  }

  lemma DateSplit(d: Date)
    requires ValidDate(d)
    ensures Split(IsoDate(d), '-') == [PadNat(d.year, 4), PadNat(d.month, 2), PadNat(d.day, 2)]
  {
    var y, m, dd := PadNat(d.year, 4), PadNat(d.month, 2), PadNat(d.day, 2);
    DigitsLack(d.year, 4, '-'); DigitsLack(d.month, 2, '-'); DigitsLack(d.day, 2, '-');
    assert [y, m, dd][1..] == [m, dd] && [m, dd][1..] == [dd];
    assert Join([m, dd], "-") == m + "-" + dd;
    assert Join([y, m, dd], "-") == y + "-" + (m + "-" + dd);
    assert Join([y, m, dd], "-") == IsoDate(d);
    JoinSplit([y, m, dd], '-');
  }

  lemma TimeSplit(t: DateTime)
    requires ValidDateTime(t)
    ensures Split(TimeText(t), ':') == [PadNat(t.hour, 2), PadNat(t.minute, 2), InfobaseUtils.SecondsText(t)]
  {
    var hh, mm, sec := PadNat(t.hour, 2), PadNat(t.minute, 2), InfobaseUtils.SecondsText(t);
    DigitsLack(t.hour, 2, ':'); DigitsLack(t.minute, 2, ':'); DigitsLack(t.second, 2, ':'); DigitsLack(t.micro, 6, ':');
    assert ':' !in sec;
    assert [hh, mm, sec][1..] == [mm, sec] && [mm, sec][1..] == [sec];
    assert Join([mm, sec], ":") == mm + ":" + sec;
    assert Join([hh, mm, sec], ":") == hh + ":" + (mm + ":" + sec);
    assert Join([hh, mm, sec], ":") == TimeText(t);
    JoinSplit([hh, mm, sec], ':');
  }

  lemma SecondsSplit(t: DateTime)
    requires ValidDateTime(t)
    ensures Split(InfobaseUtils.SecondsText(t), '.') == [PadNat(t.second, 2)] + (if t.micro != 0 then [PadNat(t.micro, 6)] else [])
  {
    var ss, sec := PadNat(t.second, 2), InfobaseUtils.SecondsText(t);
    DigitsLack(t.second, 2, '.'); DigitsLack(t.micro, 6, '.');
    if t.micro != 0 {
      var f := PadNat(t.micro, 6);
      assert [ss, f][1..] == [f];
      assert Join([ss, f], ".") == sec;
      JoinSplit([ss, f], '.');
    } else {
      assert Join([ss], ".") == sec;
      JoinSplit([ss], '.');
    }
  }

  /** The pieces `to_timestamp` cuts `isoformat()` into are its numerals. */
  lemma IsoPiecesTokens(t: DateTime)
    requires ValidDateTime(t)
    ensures |Split(TimeText(t), ':')| == 3
    ensures Split(IsoDate(t.date), '-') + Split(TimeText(t), ':')[..2] + Split(InfobaseUtils.SecondsText(t), '.') == InfobaseUtils.IsoTexts(t)
  {
    IsoPieces(t);
  }

  /** The numbers read back are the numbers written. */
  lemma IsoNumbersParse(t: DateTime)
    requires ValidDateTime(t)
    ensures MakeTimestamp(InfobaseUtils.IsoTexts(t)) == Ok(t)
  {
    var tokens := InfobaseUtils.IsoTexts(t);
    var ns := InfobaseUtils.IsoFields(t);
    InfobaseUtils.IsoTextsParse(t);
    assert ns + seq(7 - |ns|, _ => 0) == InfobaseUtils.Fields(t);
    var r := InfobaseUtils.MakeDateTime(ns);
    assert r.Ok?;
    assert InfobaseUtils.Fields(r.value) == InfobaseUtils.Fields(t);
  }

  /** `to_timestamp(t.isoformat()) == t` as written holds when there are microseconds ... */
  lemma ToTimestampAsWrittenRoundTrip(t: DateTime)
    requires ValidDateTime(t) && t.micro != 0
    ensures ToTimestampAsWritten(IsoFormat(t)) == Ok(t)
  {
    IsoPieces(t);
    IsoPiecesTokens(t);
    IsoNumbersParse(t);
  }

  /** ... and fails with ValueError on every timestamp whose microseconds are zero. */
  lemma ToTimestampAsWrittenRejectsWholeSeconds(t: DateTime)
    requires ValidDateTime(t) && t.micro == 0
    ensures ToTimestampAsWritten(IsoFormat(t)) == Err("ValueError")
  {
    IsoPieces(t);
  }

  /** The corrected reading inverts `isoformat()` for every valid datetime. */
  lemma ToTimestampRoundTrip(t: DateTime)
    requires ValidDateTime(t)
    ensures ToTimestamp(IsoFormat(t)) == Ok(t)
  {
    IsoPieces(t);
    IsoPiecesTokens(t);
    IsoNumbersParse(t);
  }

  /** A document: the event's data dictionary. */
  type Doc = seq<(string, Value)>

  /** A record the logger writes: the file it goes to and the four fields. */
  datatype Record = Record(path: string, action: string, site: string, timestamp: DateTime, data: Doc)

  /** What a site event carries; the logger fills in a missing timestamp. */
  class Event {
    const name: string
    const sitename: string
    const ip: Option<string>
    const username: Option<string>
    var timestamp: Option<DateTime>
    var data: Doc

    constructor (name: string, sitename: string, ip: Option<string>, username: Option<string>, timestamp: Option<DateTime>, data: Doc)
      ensures this.name == name && this.sitename == sitename && this.ip == ip && this.username == username
      ensures this.timestamp == timestamp && this.data == data
    {
      this.name := name;
      this.sitename := sitename;
      this.ip := ip;
      this.username := username;
      this.timestamp := timestamp;
      this.data := data;
    }
  }

  function OptStr(s: Option<string>): Value {
    if s.None? then Null else Str(s.value)
  }

  /** The actions of writes and saves, logged under their own name. */
  const WriteActions: seq<string> := ["write", "save", "save_many"]

  /** The action and data `__call__` logs for an event, or nothing: writes and saves keep their
      name and get the ip and author; "register" becomes "new_account" and "update_user"
      "update_account", both with the ip; "store." events pass through as they are. */
  function LogEntry(name: string, ip: Option<string>, username: Option<string>, data: Doc): (r: Option<(string, Doc)>)
    ensures r.Some? <==> name in WriteActions || name == "register" || name == "update_user" || StartsWith(name, "store.")
    ensures r.Some? && name == "register" ==> r.value.0 == "new_account"
    ensures r.Some? && name == "update_user" ==> r.value.0 == "update_account"
    ensures r.Some? && name != "register" && name != "update_user" ==> r.value.0 == name
  {
    if name in WriteActions then Some((name, Put(Put(data, "ip", OptStr(ip)), "author", OptStr(username))))
    else if name == "register" then Some(("new_account", Put(data, "ip", OptStr(ip))))
    else if name == "update_user" then Some(("update_account", Put(data, "ip", OptStr(ip))))
    else if StartsWith(name, "store.") then Some((name, data))
    else None
  }

  /** The logged data is the event's data with `ip` set (and `author` for writes and saves,
      but not for store events); everything else is kept. */
  lemma LogEntryData(name: string, ip: Option<string>, username: Option<string>, data: Doc, k: string)
    requires LogEntry(name, ip, username, data).Some?
    ensures var d := LogEntry(name, ip, username, data).value.1;
      && (name !in WriteActions && name != "register" && name != "update_user" ==> d == data)
      && (name in WriteActions || name == "register" || name == "update_user" ==> Get(d, "ip") == Some(OptStr(ip)))
      && (name in WriteActions ==> Get(d, "author") == Some(OptStr(username)))
      && (k != "ip" && k != "author" ==> Get(d, k) == Get(data, k))
      && (name !in WriteActions && k == "author" ==> Get(d, k) == Get(data, k))
  {
    var withIp := Put(data, "ip", OptStr(ip));
    GetPut(data, "ip", OptStr(ip), k);
    GetPut(data, "ip", OptStr(ip), "ip");
    if name in WriteActions {
      GetPut(withIp, "author", OptStr(username), k);
      GetPut(withIp, "author", OptStr(username), "ip");
      GetPut(withIp, "author", OptStr(username), "author");
    }
  }

  /** `os.path.join(a, b)` for a relative `b`. */
  function PathJoin(a: string, b: string): (r: string)
    ensures a == "" || EndsWith(a, "/") ==> r == a + b
    ensures a != "" && !EndsWith(a, "/") ==> r == a + "/" + b
  {
    if a == "" || EndsWith(a, "/") then a + b else a + "/" + b
  }

  /** The file of a day: root, then "%02d" year, month and day, then the extension. */
  function LogPath(root: string, extn: string, d: Date): (p: string)
    requires ValidDate(d)
    ensures EndsWith(p, extn)
  {
    var p := PathJoin(PathJoin(PathJoin(root, PadNat(d.year, 2)), PadNat(d.month, 2)), PadNat(d.day, 2)) + extn;
    assert p[|p| - |extn|..] == extn;
    p
  }

  /** `Logger(root, compress)`: ".log.gz" files when compressing, ".log" otherwise. */
  function Extension(compress: bool): string {
    if compress then ".log.gz" else ".log"
  }

  class Logger {
    const root: string
    const extn: string
    /** The records written so far, in order. */
    var written: seq<Record>

    constructor (root: string, compress: bool)
      ensures this.root == root && extn == Extension(compress) && written == []
      ensures compress ==> extn == ".log.gz"
      ensures !compress ==> extn == ".log"
    {
      this.root := root;
      extn := if compress then ".log.gz" else ".log";
      written := [];
    }

    /** `get_path(timestamp)`: the file of the timestamp's day, today's when none is given. */
    function GetPath(timestamp: Option<DateTime>, now: DateTime): (p: string)
      requires timestamp.Some? ==> ValidDateTime(timestamp.value)
      requires ValidDateTime(now)
      ensures timestamp.Some? ==> p == LogPath(root, extn, timestamp.value.date)
      ensures timestamp.None? ==> p == LogPath(root, extn, now.date)
      ensures EndsWith(p, extn)
    {
      LogPath(root, extn, if timestamp.Some? then timestamp.value.date else now.date)
    }

    /** `write(action, sitename, timestamp, data)`: one record appended to the day's file. */
    method Write(action: string, sitename: string, timestamp: DateTime, data: Doc)
      requires ValidDateTime(timestamp)
      modifies this
      ensures written == old(written) + [Record(GetPath(Some(timestamp), timestamp), action, sitename, timestamp, data)]
    {
      written := written + [Record(GetPath(Some(timestamp), timestamp), action, sitename, timestamp, data)];
    }

    /** `__call__(event)`: the event gets a timestamp if it had none; its data is copied, never
        changed; the record `LogEntry` chooses, if any, is written to the timestamp's file. */
    method Call(event: Event, now: DateTime)
      requires ValidDateTime(now)
      requires event.timestamp.Some? ==> ValidDateTime(event.timestamp.value)
      modifies this, event
      ensures event.timestamp == if old(event.timestamp).Some? then old(event.timestamp) else Some(now)
      ensures event.data == old(event.data)
      ensures match LogEntry(event.name, event.ip, event.username, event.data)
        case None => written == old(written)
        case Some((action, d)) =>
          written == old(written) + [Record(LogPath(root, extn, event.timestamp.value.date), action, event.sitename, event.timestamp.value, d)]
    {
      var data := event.data;
      if event.timestamp.None? {
        event.timestamp := Some(now);
      }
      var entry := LogEntry(event.name, event.ip, event.username, data);
      if entry.Some? {
        Write(entry.value.0, event.sitename, event.timestamp.value, entry.value.1);
      }
    }
  }
}
