/** The parts of the Infobase HTTP server (infogami/infobase/server.py) that shape its
    inputs: database parameters from the configuration, request arguments with defaults,
    integer and JSON arguments, the status an exception is reported with, and the page size
    of the log reader. Routing and the web.py request cycle are not part of this model. */
module InfobaseServer {
  import opened Wrappers
  import opened Json
  import opened Strings
  import InfobaseUtils

  /** The database parameters `web.database` is called with. */
  datatype DbParams = DbParams(dbn: string, db: string, user: Option<string>, pw: string, host: Option<string>)

  /** `d.get(k) or default` on a configuration dictionary of strings. */
  function GetOr(d: map<string, string>, k: string, default: string): (r: string)
    ensures k in d && d[k] != "" ==> r == d[k]
    ensures k !in d || d[k] == "" ==> r == default
  {
    if k in d && d[k] != "" then d[k] else default
  }

  /** `parse_db_parameters(d)`: both the engine/database/username/password and the
      dbn/db/user/pw spellings are read; the engine defaults to postgres, the password to
      '', the user to `$USER` (`envUser`); the host is copied only when present. A missing
      database name is a KeyError. */
  function ParseDbParameters(d: Option<map<string, string>>, envUser: Option<string>): (r: Result<Option<DbParams>, string>)
    ensures d.None? ==> r == Ok(None)
    ensures d.Some? && "database" in d.value ==>
      (r.Ok? && r.value.Some? &&
       var p := r.value.value;
       p.db == d.value["database"] &&
       p.dbn == (if "engine" in d.value then d.value["engine"] else "postgres") &&
       p.pw == GetOr(d.value, "password", "") &&
       p.user == (if "username" in d.value then Some(d.value["username"]) else envUser))
    ensures d.Some? && "database" !in d.value ==> (r.Ok? <==> "db" in d.value)
    ensures d.Some? && "database" !in d.value && "db" in d.value ==>
      (r.Ok? && r.value.Some? &&
       var p := r.value.value;
       p.db == d.value["db"] &&
       p.dbn == (if "dbn" in d.value then d.value["dbn"] else "postgres") &&
       p.pw == GetOr(d.value, "pw", "") &&
       p.user == (if "user" in d.value then Some(d.value["user"]) else envUser))
    ensures r.Ok? && r.value.Some? ==> (r.value.value.host.Some? <==> "host" in d.value)
    ensures r.Ok? && r.value.Some? && "host" in d.value ==> r.value.value.host == Some(d.value["host"])
  {
    match d
    case None => Ok(None)
    case Some(m) =>
      var names := if "database" in m then ("engine", "database", "username", "password") else ("dbn", "db", "user", "pw");
      if names.1 !in m then Err("KeyError: " + names.1)
      else
        var dbn := if names.0 in m then m[names.0] else "postgres";
        var user := if names.2 in m then Some(m[names.2]) else envUser;
        var host := if "host" in m then Some(m["host"]) else None;
        Ok(Some(DbParams(dbn, m[names.1], user, GetOr(m, names.3, ""), host)))
  }

  /** Python's `repr` of a string argument name or value, for text with no quote, backslash or
      unprintable character: the text between single quotes. */
  function Repr(s: string): string {
    "'" + s + "'"
  }

  /** `result.update(d)`: every entry of `d` written over `result`, in order. */
  function Update(result: seq<(string, Value)>, d: seq<(string, Value)>): (r: seq<(string, Value)>)
    decreases |d|
  {
    if d == [] then result else Update(Put(result, d[0].0, d[0].1), d[1..])
  }

  /** After an update a key reads as in `d` when `d` has it, and as before otherwise. */
  lemma {:induction false} UpdateGet(result: seq<(string, Value)>, d: seq<(string, Value)>, k: string)
    ensures Get(Update(result, d), k) == if HasKey(d, k) then LastGet(d, k) else Get(result, k)
    decreases |d|
  {
    if d != [] {
      UpdateGet(Put(result, d[0].0, d[0].1), d[1..], k);
      GetPut(result, d[0].0, d[0].1, k);
      assert Keys(d) == [d[0].0] + Keys(d[1..]);
    }
  }

  /** The value the last entry with key `k` gives (a later entry overrides an earlier one). */
  function LastGet(d: seq<(string, Value)>, k: string): (r: Option<Value>)
    ensures r.None? <==> !HasKey(d, k)
  {
    if d == [] then None
    else
      assert Keys(d) == [d[0].0] + Keys(d[1..]);
      if HasKey(d[1..], k) then LastGet(d[1..], k) else if d[0].0 == k then Some(d[0].1) else None
  }

  /** `input(*required, **defaults)`: a missing required argument is BadData; otherwise the
      defaults with the request's arguments written over them. */
  function Input(required: seq<string>, defaults: seq<(string, Value)>, d: seq<(string, Value)>): (r: Result<seq<(string, Value)>, string>)
    ensures r.Err? <==> exists k :: k in required && !HasKey(d, k)
    ensures r.Err? ==> exists k :: k in required && !HasKey(d, k) && r.error == "BadData: Missing argument: " + Repr(k)
    ensures r.Ok? ==> forall k :: Get(r.value, k) == if HasKey(d, k) then LastGet(d, k) else Get(defaults, k)
  {
    match Missing(required, d)
    case Some(k) => Err("BadData: Missing argument: " + Repr(k))
    case None =>
      var r := Update(defaults, d);
      assert forall k :: Get(r, k) == if HasKey(d, k) then LastGet(d, k) else Get(defaults, k) by {
        forall k {
          UpdateGet(defaults, d, k);
        }
      }
      Ok(r)
  }

  /** The first required argument missing from the request. */
  function Missing(required: seq<string>, d: seq<(string, Value)>): (r: Option<string>)
    ensures r.None? <==> forall k :: k in required ==> HasKey(d, k)
    ensures r.Some? ==> r.value in required && !HasKey(d, r.value)
  {
    if required == [] then None
    else if !HasKey(d, required[0]) then Some(required[0])
    else Missing(required[1..], d)
  }

  /** `to_int(value, key)`: the integer the text spells, or BadData naming the argument. */
  function ToInt(value: string, key: string): (r: Result<int, string>)
    ensures r.Ok? <==> ParseInt(value).Some?
    ensures r.Err? ==> r.error == "BadData: Bad integer value for " + Repr(key) + ": " + Repr(value)
  {
    match ParseInt(value)
    case Some(i) => Ok(i)
    case None => Err("BadData: Bad integer value for " + Repr(key) + ": " + Repr(value))
  }

  /** The text of a number is read back as that number. */
  lemma ToIntOfString(i: int, key: string)
    ensures ToInt(IntToString(i), key) == Ok(i)
  {
    ParseIntToString(i);
  }

  /** `from_json(s)`: the decoded value, or BadData carrying the decoder's message. The
      decoder is a parameter. */
  function FromJson(s: string, loads: string -> Result<Value, string>): (r: Result<Value, string>)
    ensures loads(s).Ok? ==> r == loads(s)
    ensures loads(s).Err? ==> r == Err("BadData: Bad JSON: " + loads(s).error)
  {
    match loads(s)
    case Ok(v) => Ok(v)
    case Err(e) => Err("BadData: Bad JSON: " + e)
  }

  /** An exception raised while serving a request. */
  datatype Exception = InfobaseException(status: string, message: string) | OtherException(message: string)

  /** The HTTP error a request ends with. */
  datatype HttpError = HttpError(status: string, body: string)

  /** `process_exception(e)`: Infobase exceptions keep their status; anything else is a
      500; the body is the exception's text. */
  function ProcessException(e: Exception): (r: HttpError)
    ensures e.InfobaseException? ==> r.status == e.status
    ensures e.OtherException? ==> r.status == "500 Internal Server Error"
    ensures r.body == e.message
  {
    match e
    case InfobaseException(status, message) => HttpError(status, message)
    case OtherException(message) => HttpError("500 Internal Server Error", message)
  }

  /** The page size of `readlog`: the requested limit, at most 1000, and 1000 when the
      limit is not a number. */
  function ReadlogLimit(limit: Value): (n: int)
    ensures n <= 1000
    ensures n == InfobaseUtils.SafeInt(limit, 1000) || n == 1000
    ensures limit.Str? && ParseInt(limit.s).None? ==> n == 1000
  {
    var v := InfobaseUtils.SafeInt(limit, 1000);
    if v < 1000 then v else 1000
  }

  /** Asking for more than 1000 entries gives 1000; asking for fewer gives that many. */
  lemma ReadlogLimitOf(k: int)
    ensures ReadlogLimit(Str(IntToString(k))) == if k < 1000 then k else 1000
  {
    InfobaseUtils.SafeIntOfString(k, 1000);
  }
}
