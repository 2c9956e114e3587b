/** The Infobase client (infogami/infobase/client.py): connections to the server, the
    per-request cache of a site's things, the `Nothing` placeholder for missing values and
    the client-side `Thing`. HTTP, JSON encoding, URL encoding and cookies are library
    behaviour: the server's answers and the encoders are parameters. */
module InfobaseClient {
  import opened Wrappers
  import opened Json
  import opened Strings

  /** `storify(d)`: dictionaries become `web.storage` objects (in place) and lists are
      rebuilt, recursively. A storage is a dictionary with attribute access, so the content
      of the value does not change. */
  function Storify(v: Value): (r: Value)
    ensures r == v
    decreases v, 1
  {
    match v
    case Dict(es) => Dict(StorifyEntries(es))
    case List(items) => List(StorifyItems(items))
    case Null => v
    case Bool(_) => v
    case Int(_) => v
    case Float(_) => v
    case Str(_) => v
    case Text(_) => v
    case Ref(_) => v
  }

  function StorifyEntries(es: seq<(string, Value)>): (r: seq<(string, Value)>)
    ensures r == es
    decreases es, 0
  {
    if es == [] then []
    else
      assert es[0] in es && es[0].1 < es[0];
      [(es[0].0, Storify(es[0].1))] + StorifyEntries(es[1..])
  }

  function StorifyItems(items: seq<Value>): (r: seq<Value>)
    ensures r == items
    decreases items, 0
  {
    if items == [] then []
    else
      assert items[0] in items;
      [Storify(items[0])] + StorifyItems(items[1..])
  }

  /** The connection classes. */
  datatype ConnectionKind = Local | Remote(baseUrl: string)

  /** `connect(type, **params)`: "local" and "remote" are the known types. A local connection
      ignores its keyword arguments; `RemoteConnection(base_url)` takes exactly `base_url`, so a
      missing one or any other keyword is Python's TypeError. */
  function Connect(kind: string, params: map<string, string>): (r: Result<ConnectionKind, string>)
    ensures r.Ok? <==> kind == "local" || (kind == "remote" && params.Keys == {"base_url"})
    ensures kind == "local" ==> r == Ok(Local)
    ensures r.Ok? && kind == "remote" ==> r == Ok(Remote(params["base_url"]))
    ensures kind == "remote" && params.Keys != {"base_url"} ==> r == Err("TypeError")
    ensures kind != "local" && kind != "remote" ==> r == Err("Invalid connection type: " + kind)
  {
    if kind == "local" then Ok(Local)
    else if kind == "remote" then
      if params.Keys == {"base_url"} then Ok(Remote(params["base_url"])) else Err("TypeError")
    else Err("Invalid connection type: " + kind)
  }

  /** The parameters with a value: `None` values are deleted. */
  function DropNone(data: seq<(string, Option<string>)>): (r: seq<(string, string)>)
    ensures |r| <= |data|
    ensures forall e :: e in r ==> (e.0, Some(e.1)) in data
    ensures forall k, v :: (k, Some(v)) in data ==> (k, v) in r
  {
    if data == [] then []
    else if data[0].1.None? then DropNone(data[1..])
    else [(data[0].0, data[0].1.value)] + DropNone(data[1..])
  }

  /** What `RemoteConnection.request` sends: the path on the server and the body. */
  datatype Outgoing = Outgoing(url: string, path: string, body: Option<string>)

  /** Parameter shaping of `RemoteConnection.request`: `None` parameters are dropped and
      the rest URL-encoded; a GET request carries them in its query string and has no
      body. `urlencode` is a parameter. */
  function Shape(baseUrl: string, sitename: string, path: string, verb: string, data: Option<seq<(string, Option<string>)>>,
                 urlencode: seq<(string, string)> -> string): (o: Outgoing)
    ensures o.url == baseUrl + "/" + sitename + path
    ensures data.None? || DropNone(data.value) == [] ==> o.path == "/" + sitename + path && o.body.None?
    ensures data.Some? && DropNone(data.value) != [] && urlencode(DropNone(data.value)) != "" && verb == "GET" ==>
      o.path == "/" + sitename + path + "?" + urlencode(DropNone(data.value)) && o.body.None?
    ensures data.Some? && DropNone(data.value) != [] && verb != "GET" ==>
      o.path == "/" + sitename + path && o.body == Some(urlencode(DropNone(data.value)))
  {
    var url := baseUrl + "/" + sitename + path;
    var p := "/" + sitename + path;
    var encoded := if data.None? || DropNone(data.value) == [] then None else Some(urlencode(DropNone(data.value)));
    if encoded.Some? && encoded.value != "" && verb == "GET" then Outgoing(url, p + "?" + encoded.value, None)
    else Outgoing(url, p, encoded)
  }

  /** The server's answer to a request. */
  datatype Answer = Unreachable | Answer(status: int, reason: string, body: string, setCookieToken: Option<string>)

  /** The answer body `request` returns; failures are reported as a JSON failure document
      (its encoding is a parameter). */
  function Returned(a: Answer, fail: string -> string): (r: string)
    ensures a.Answer? && a.status == 200 ==> r == a.body
    ensures a.Unreachable? ==> r == fail("unable to connect to the infobase server")
    ensures a.Answer? && a.status != 200 ==> r == fail("HTTP Error: " + IntToString(a.status) + " - " + a.reason)
  {
    match a
    case Unreachable => fail("unable to connect to the infobase server")
    case Answer(status, reason, body, _) =>
      if status == 200 then body else fail("HTTP Error: " + IntToString(status) + " - " + reason)
  }

  /** A connection's authentication token, sent as a cookie and renewed from the answer. */
  class RemoteConnection {
    const baseUrl: string
    var authToken: Option<string>

    constructor (baseUrl: string)
      ensures this.baseUrl == baseUrl && authToken.None?
    {
      this.baseUrl := baseUrl;
      authToken := None;
    }

    /** The request headers: the token cookie when there is a token, and the client's IP. */
    function Headers(ip: string): (h: seq<(string, string)>)
      reads this
      ensures HasKey(h, "X-REMOTE-IP") && Get(h, "X-REMOTE-IP") == Some(ip)
      ensures HasKey(h, "Cookie") <==> authToken.Some? && authToken.value != ""
    {
      if authToken.Some? && authToken.value != "" then
        var h := [("Cookie", "infobase_auth_token=" + authToken.value), ("X-REMOTE-IP", ip)];
        assert |"Cookie"| != |"X-REMOTE-IP"|;
        GetAt(h, 1, "X-REMOTE-IP");
        assert Keys(h) == ["Cookie", "X-REMOTE-IP"];
        h
      else
        var h := [("X-REMOTE-IP", ip)];
        assert |"Cookie"| != |"X-REMOTE-IP"|;
        assert Keys(h) == ["X-REMOTE-IP"];
        h
    }

    /** `request(sitename, path, method, data)`: the token is replaced by the one the answer
        sets, if any, and the answer's body (or a failure document) is returned. */
    method Request(sitename: string, path: string, verb: string, data: Option<seq<(string, Option<string>)>>,
                   urlencode: seq<(string, string)> -> string, answer: Answer, fail: string -> string)
        returns (sent: Outgoing, out: string)
      modifies this
      ensures sent == Shape(baseUrl, sitename, path, verb, data, urlencode)
      ensures out == Returned(answer, fail)
      ensures authToken == if answer.Answer? && answer.setCookieToken.Some? then answer.setCookieToken else old(authToken)
    {
      sent := Shape(baseUrl, sitename, path, verb, data, urlencode);
      if answer.Answer? && answer.setCookieToken.Some? {
        authToken := answer.setCookieToken;
      }
      out := Returned(answer, fail);
    }
  }

  /** A cache key: a thing's key and its revision (None for the latest). */
  type CacheKey = (string, Option<int>)

  /** `Site`: the cache of things fetched during this request. */
  class Site {
    var cache: map<CacheKey, Value>

    constructor ()
      ensures cache == map[]
    {
      cache := map[];
    }

    /** `_get(key, revision)`: a cached thing is answered from the cache; otherwise the
        server is asked (`fetch`, which gives the error message of a 'fail' answer, or the
        result). A failed request raises ClientException with that message, a missing thing
        is NotFound, and in both cases nothing is cached; a found one is cached after
        `parse_query` (`parse`). The caller gets a copy. */
    method Get(key: string, revision: Option<int>, fetch: CacheKey -> Result<Option<Value>, string>, parse: Value -> Value)
        returns (r: Result<Value, string>)
      modifies this
      ensures (key, revision) in old(cache) ==> r == Ok(old(cache)[(key, revision)]) && cache == old(cache)
      ensures (key, revision) !in old(cache) && fetch((key, revision)).Err? ==>
        r == Err("ClientException: " + fetch((key, revision)).error) && cache == old(cache)
      ensures (key, revision) !in old(cache) && fetch((key, revision)) == Ok(None) ==>
        r == Err("NotFound: " + key) && cache == old(cache)
      ensures (key, revision) !in old(cache) && fetch((key, revision)).Ok? && fetch((key, revision)).value.Some? ==>
        var v := parse(fetch((key, revision)).value.value);
        r == Ok(v) && cache == old(cache)[(key, revision) := v]
    {
      if (key, revision) !in cache {
        var result := fetch((key, revision));
        if result.Err? {
          return Err("ClientException: " + result.error);
        }
        if result.value.None? {
          return Err("NotFound: " + key);
        }
        cache := cache[(key, revision) := parse(result.value.value)];
      }
      r := Ok(cache[(key, revision)]);
    }

    /** `_invalidate_cache(keys)`: the latest revision of each key is forgotten; keys that
        are not cached are ignored. */
    method InvalidateCache(keys: seq<string>)
      modifies this
      ensures cache == map ck | ck in old(cache) && !(ck.1.None? && ck.0 in keys) :: old(cache)[ck]
    {
      for i := 0 to |keys|
        invariant cache == map ck | ck in old(cache) && !(ck.1.None? && ck.0 in keys[..i]) :: old(cache)[ck]
      {
        assert forall k :: k in keys[..i + 1] <==> k in keys[..i] || k == keys[i];
        cache := cache - {(keys[i], None)};
      }
      assert keys[..|keys|] == keys;
    }
  }

  /** After a write, the next read of a written key goes to the server, while the fixed
      revisions stay cached. */
  method ReadAfterWrite(site: Site, written: seq<string>, k: string, rev: int, fetch: CacheKey -> Result<Option<Value>, string>, parse: Value -> Value)
      returns (r: Result<Value, string>)
    requires k in written && (k, Some(rev)) in site.cache
    modifies site
    ensures (k, Some(rev)) in site.cache
    ensures r == match fetch((k, None))
      case Err(m) => Err("ClientException: " + m)
      case Ok(None) => Err("NotFound: " + k)
      case Ok(Some(v)) => Ok(parse(v))
  {
    site.InvalidateCache(written);
    assert (k, None) !in site.cache;
    r := site.Get(k, None, fetch, parse);
  }

  /** What an expression on `Nothing` gives: `Nothing` again, another value, or an error. */
  datatype Obj = Nothing | Other(v: Value)

  /** `nothing.name`: Nothing, except for special names. */
  function GetAttr(name: string): (r: Result<Obj, string>)
    ensures r.Err? <==> StartsWith(name, "__")
    ensures r.Ok? ==> r.value == Nothing
  {
    if StartsWith(name, "__") then Err("AttributeError: " + name) else Ok(Nothing)
  }

  /** `nothing[name]` and `nothing(...)`. */
  function GetItem(name: Value): (r: Obj)
    ensures r == Nothing
  {
    Nothing
  }

  /** `a + b` and `a * b` with Nothing on either side: the other operand. */
  function Combine(a: Obj, b: Obj): (r: Obj)
    requires a == Nothing || b == Nothing
    ensures a == Nothing ==> r == b
    ensures b == Nothing ==> r == a
  {
    if a == Nothing then b else a
  }

  /** `nothing == other`: only another Nothing. `len(nothing)` is 0, `bool(nothing)` is
      False and `str(nothing)` is empty. */
  predicate EqualsNothing(other: Obj) {
    other.Nothing?
  }

  /** Attribute chains on Nothing end in Nothing unless a special name is met. */
  lemma {:induction false} ChainOnNothing(names: seq<string>)
    requires forall i :: 0 <= i < |names| ==> !StartsWith(names[i], "__")
    ensures Chain(names) == Ok(Nothing)
  {
    if names != [] {
      ChainOnNothing(names[..|names| - 1]);
    }
  }

  /** `nothing.a.b.c...`. */
  function Chain(names: seq<string>): Result<Obj, string> {
    if names == [] then Ok(Nothing)
    else
      match Chain(names[..|names| - 1])
      case Err(e) => Err(e)
      case Ok(o) =>
        if o == Nothing then GetAttr(names[|names| - 1]) else Ok(o)
  }

  /** The names kept on the object itself rather than in its data. */
  predicate IsMetadataName(name: string) {
    name in ["key", "revision", "latest_revision", "last_modified", "created"] || StartsWith(name, "_")
  }

  /** Keys `keys()` leaves out. */
  predicate IsSpecial(k: string) {
    k in ["revision", "latest_revision", "last_modified", "created"]
  }

  /** The client-side `Thing`, with its data loaded. */
  class Thing {
    var attrs: map<string, Value>
    var data: seq<(string, Value)>

    constructor (data: seq<(string, Value)>)
      ensures this.data == data && attrs == map[]
    {
      this.data := data;
      attrs := map[];
    }

    /** `keys()`: the data keys, in order, without the revision and timestamp keys. */
    function DataKeys(): (ks: seq<string>)
      reads this
      ensures forall k :: k in ks <==> k in Keys(data) && !IsSpecial(k)
    {
      FilterKeys(Keys(data))
    }

    /** `__setattr__(name, value)`: metadata names and names starting with '_' are set on
        the object; everything else goes into the data. */
    method SetAttr(name: string, value: Value)
      modifies this
      ensures IsMetadataName(name) ==> attrs == old(attrs)[name := value] && data == old(data)
      ensures !IsMetadataName(name) ==> data == Put(old(data), name, value) && attrs == old(attrs)
    {
      if IsMetadataName(name) {
        attrs := attrs[name := value];
      } else {
        data := Put(data, name, value);
      }
    }
  }

  function FilterKeys(ks: seq<string>): (r: seq<string>)
    ensures forall k :: k in r <==> k in ks && !IsSpecial(k)
  {
    if ks == [] then []
    else if IsSpecial(ks[0]) then FilterKeys(ks[1..])
    else [ks[0]] + FilterKeys(ks[1..])
  }

  /** A data attribute that is set can be read back, and the metadata is untouched. */
  method SetThenGet(t: Thing, name: string, value: Value) returns (r: Option<Value>)
    requires !IsMetadataName(name)
    modifies t
    ensures r == Some(value) && t.attrs == old(t.attrs)
  {
    t.SetAttr(name, value);
    GetPut(old(t.data), name, value, name);
    r := Get(t.data, name);
  }
}
