/** The read/write API plugin (infogami/plugins/api/code.py): `/api/<name>` requests are
    handed to the registered hook, write access is limited to the API and admin groups,
    JSON answers can be wrapped in a callback, and query parameters are cleaned before
    they are sent to Infobase. Regular-expression matching is a parameter. */
module ApiPlugin {
  import opened Wrappers
  import opened Json
  import opened Strings

  /** A parameter the cleaned query keeps: no leading '_', and one of the required keys
      when any are given. */
  predicate Kept(k: string, requiredKeys: seq<string>) {
    !StartsWith(k, "_") && (requiredKeys == [] || k in requiredKeys)
  }

  /** An empty string becomes None. */
  function Cleaned(v: Value): (r: Value)
    ensures IsText(v) && TextOf(v) == "" ==> r == Null
    ensures !(IsText(v) && TextOf(v) == "") ==> r == v
  {
    if IsText(v) && TextOf(v) == "" then Null else v
  }

  /** The query `make_query` builds from the first `n` parameters. */
  function QueryOf(items: seq<(string, Value)>, requiredKeys: seq<string>): (q: seq<(string, Value)>)
    decreases |items|
  {
    if items == [] then []
    else
      var q := QueryOf(items[..|items| - 1], requiredKeys);
      var e := items[|items| - 1];
      if Kept(e.0, requiredKeys) then Put(q, e.0, Cleaned(e.1)) else q
  }

  /** `make_query(i, required_keys)`: the parameters the query keeps, with '' made None. */
  method MakeQuery(i: seq<(string, Value)>, requiredKeys: seq<string>) returns (query: seq<(string, Value)>)
    ensures query == QueryOf(i, requiredKeys)
  {
    query := [];
    for n := 0 to |i|
      invariant query == QueryOf(i[..n], requiredKeys)
    {
      assert i[..n + 1][..n] == i[..n];
      var (k, v) := i[n];
      if StartsWith(k, "_") {
        continue;
      }
      if requiredKeys != [] && k !in requiredKeys {
        continue;
      }
      query := Put(query, k, Cleaned(v));
    }
    assert i[..|i|] == i;
  }

  /** A key is in the query exactly when some parameter with that key is kept, and it has
      the last such parameter's value, cleaned. */
  lemma {:induction false} QueryOfGet(items: seq<(string, Value)>, requiredKeys: seq<string>, k: string)
    ensures Get(QueryOf(items, requiredKeys), k) == if Kept(k, requiredKeys) && HasKey(items, k) then Some(Cleaned(LastValue(items, k))) else None
    decreases |items|
  {
    if items != [] {
      var init := items[..|items| - 1];
      var e := items[|items| - 1];
      QueryOfGet(init, requiredKeys, k);
      GetPut(QueryOf(init, requiredKeys), e.0, Cleaned(e.1), k);
      KeysSnoc(init, e);
    }
  }

  lemma KeysSnoc(init: seq<(string, Value)>, e: (string, Value))
    ensures Keys(init + [e]) == Keys(init) + [e.0]
  {
  }

  /** The value of the last entry with key `k`. */
  function LastValue(items: seq<(string, Value)>, k: string): Value
    requires HasKey(items, k)
    decreases |items|
  {
    KeysSnoc(items[..|items| - 1], items[|items| - 1]);
    assert items == items[..|items| - 1] + [items[|items| - 1]];
    if items[|items| - 1].0 == k then items[|items| - 1].1 else LastValue(items[..|items| - 1], k)
  }

  /** The first doctest: a parameter starting with '_' is dropped. */
  lemma MakeQueryDropsPrivate(a: string, b: string, x: Value, y: Value)
    requires !StartsWith(a, "_") && StartsWith(b, "_") && !(IsText(x) && TextOf(x) == "")
    ensures QueryOf([(a, x), (b, y)], []) == [(a, x)]
  {
    assert [(a, x), (b, y)][..1] == [(a, x)];
    assert [(a, x)][..0] == [];
    assert QueryOf([], []) == [];
    assert QueryOf([(a, x)], []) == Put([], a, x) == [(a, x)];
  }

  /** The second doctest: with required keys, only those are kept. */
  lemma MakeQueryRequired(a: string, b: string, c: string, x: Value, y: Value, z: Value)
    requires !StartsWith(a, "_") && StartsWith(b, "_") && c != a && !(IsText(x) && TextOf(x) == "")
    ensures QueryOf([(a, x), (b, y), (c, z)], [a]) == [(a, x)]
  {
    var items := [(a, x), (b, y), (c, z)];
    assert items[..2] == [(a, x), (b, y)];
    assert items[..2][..1] == [(a, x)];
    assert [(a, x)][..0] == [];
    assert QueryOf([], [a]) == [];
    assert QueryOf([(a, x)], [a]) == Put([], a, x) == [(a, x)];
    assert QueryOf(items[..2], [a]) == [(a, x)];
  }

  /** The part of a request after `/api/` names a hook; what it answers. */
  datatype Status = Ok200(body: string) | MethodNotAllowed405 | NotFound404

  /** A registered hook class: the request methods it defines, and what each returns. */
  type Hook = map<string, string>

  /** `api.delegate(suffix)`: the content type asked for with `text`, and the answer: the
      hook's method output, 405 when the hook lacks the method, 404 for an unknown name. */
  function Delegate(suffix: string, verb: string, text: string, hooks: map<string, Hook>): (r: (string, Status))
    ensures r.0 == (if Lower(text) == "false" then "application/json" else "text/plain")
    ensures r.1.NotFound404? <==> suffix !in hooks
    ensures r.1.MethodNotAllowed405? <==> suffix in hooks && verb !in hooks[suffix]
    ensures r.1.Ok200? ==> r.1.body == hooks[suffix][verb]
  {
    var contentType := if Lower(text) == "false" then "application/json" else "text/plain";
    if suffix in hooks then
      var cls := hooks[suffix];
      if verb in cls then (contentType, Ok200(cls[verb])) else (contentType, MethodNotAllowed405)
    else (contentType, NotFound404)
  }

  /** `infobase_request.delegate`: the connection's answer wrapped as an ok document, or the
      client error as a failure document. */
  function InfobaseAnswer(out: Result<string, string>): (r: string)
    ensures out.Ok? ==> r == "{\"status\": \"ok\", \"result\": " + out.value + "}"
    ensures out.Err? ==> r == "{\"status\": \"fail\", \"message\": \"" + out.error + "\"}"
  {
    match out
    case Ok(o) => "{\"status\": \"ok\", \"result\": " + o + "}"
    case Err(e) => "{\"status\": \"fail\", \"message\": \"" + e + "\"}"
  }

  /** The members of a usergroup, none when the group does not exist. */
  function Members(group: Option<seq<string>>): seq<string> {
    if group.Some? then group.value else []
  }

  /** `can_write()`: the logged-in user is a member of /usergroup/api or /usergroup/admin. */
  function CanWrite(user: Option<string>, api: Option<seq<string>>, admin: Option<seq<string>>): (r: bool)
    ensures r <==> user.Some? && (user.value in Members(api) || user.value in Members(admin))
  {
    user.Some? && user.value in Members(api) + Members(admin)
  }

  /** A visitor, or a user in neither group, cannot write; an admin can, API group or not. */
  lemma OnlyMembersWrite(user: string, api: Option<seq<string>>, admins: seq<string>)
    ensures !CanWrite(None, api, Some(admins))
    ensures user in admins ==> CanWrite(Some(user), api, Some(admins))
    ensures CanWrite(Some(user), None, None) == false
  {
  }

  /** A failure of the wrapped function: its status and message. */
  datatype ClientError = ClientError(status: string, json: Option<string>, message: string)

  /** What `jsonapi` answers: an HTTP error, or the raw text with its content type. */
  datatype Raw = HttpError(status: string, body: string) | RawText(body: string, contentType: string)

  /** `jsonapi(f)`: a client error becomes an HTTP error with its JSON (or its message);
      otherwise the output, wrapped as `callback(out);` when a callback is given, is sent as
      JSON, or as plain text when `text` is "true". */
  function JsonApi(out: Result<string, ClientError>, callback: Option<string>, text: string): (r: Raw)
    ensures out.Err? ==> r == HttpError(out.error.status, if out.error.json.Some? && out.error.json.value != "" then out.error.json.value else out.error.message)
    ensures out.Ok? && (callback.None? || callback.value == "") ==> r.RawText? && r.body == out.value
    ensures out.Ok? && callback.Some? && callback.value != "" ==> r.RawText? && r.body == callback.value + "(" + out.value + ");"
    ensures r.RawText? ==> r.contentType == if Lower(text) == "true" then "text/plain" else "application/json"
  {
    match out
    case Err(e) => HttpError(e.status, if e.json.Some? && e.json.value != "" then e.json.value else e.message)
    case Ok(o) =>
      var body := if callback.Some? && callback.value != "" then callback.value + "(" + o + ");" else o;
      RawText(body, if Lower(text) == "true" then "text/plain" else "application/json")
  }

  /** The request environment entries carrying extension headers of namespace `ns`, under
      their lowercased names without the `HTTP_<ns>_` prefix; a later entry wins. */
  function ExtensionHeaders(env: seq<(string, string)>, prefix: string): (h: seq<(string, string)>)
    decreases |env|
  {
    if env == [] then []
    else
      var e := env[|env| - 1];
      var h := ExtensionHeaders(env[..|env| - 1], prefix);
      if StartsWith(e.0, prefix) then Put(h, HeaderName(e.0, prefix), e.1) else h
  }

  function HeaderName(k: string, prefix: string): string {
    Lower(LStrips(k, prefix))
  }

  /** A header is present exactly when some environment entry with the prefix names it. */
  lemma {:induction false} ExtensionHeadersKeys(env: seq<(string, string)>, prefix: string, x: string)
    ensures HasKey(ExtensionHeaders(env, prefix), x) <==>
      exists i :: 0 <= i < |env| && StartsWith(env[i].0, prefix) && HeaderName(env[i].0, prefix) == x
    decreases |env|
  {
    if env != [] {
      var init := env[..|env| - 1];
      var e := env[|env| - 1];
      var h := ExtensionHeaders(init, prefix);
      ExtensionHeadersKeys(init, prefix, x);
      if StartsWith(e.0, prefix) {
        GetPut(h, HeaderName(e.0, prefix), e.1, x);
      }
      NamedSnoc(env, prefix, x);
    }
  }

  /** Some entry with the prefix names the header `x`. */
  predicate Named(env: seq<(string, string)>, prefix: string, x: string) {
    exists i :: 0 <= i < |env| && Names(env[i], prefix, x)
  }

  /** The entry has the prefix and names the header `x`. */
  predicate Names(e: (string, string), prefix: string, x: string) {
    StartsWith(e.0, prefix) && HeaderName(e.0, prefix) == x
  }

  /** The entries that name `x`, one more entry at a time. */
  lemma NamedSnoc(env: seq<(string, string)>, prefix: string, x: string)
    requires env != []
    ensures Named(env, prefix, x) <==> Named(env[..|env| - 1], prefix, x) || Names(env[|env| - 1], prefix, x)
  {
    var p := e => Names(e, prefix, x);
    var init := env[..|env| - 1];
    SomeSnoc(env, init, p);
    assert Named(env, prefix, x) <==> exists i :: 0 <= i < |env| && p(env[i]);
    assert Named(init, prefix, x) <==> exists i :: 0 <= i < |init| && p(init[i]);
  }

  /** Some element satisfies `p`, one more element at a time. */
  lemma SomeSnoc<T>(s: seq<T>, init: seq<T>, p: T -> bool)
    requires s != [] && init == s[..|s| - 1]
    ensures (exists i :: 0 <= i < |s| && p(s[i])) <==> (exists i :: 0 <= i < |init| && p(init[i])) || p(s[|s| - 1])
  {
    if exists i :: 0 <= i < |init| && p(init[i]) {
      var i :| 0 <= i < |init| && p(init[i]);
      assert s[i] == init[i];
    }
    if exists i :: 0 <= i < |s| && p(s[i]) {
      var i :| 0 <= i < |s| && p(s[i]);
      if i < |init| {
        assert init[i] == s[i];
      }
    }
  }

  /** The URI the API declares when none is configured. */
  const DefaultUri: string := "http://infogami.org/api"

  /** The declaration URI the OPT header is checked against. */
  function ExpectedUri(configured: Option<string>): string {
    if configured.Some? then configured.value else DefaultUri
  }

  /** `get_custom_headers()` as written: no OPT header, or one that does not match, gives
      {}; a matching header with the expected URI gives the extension headers; a matching
      header with another URI falls off the end and gives None. `optMatch` is the pattern's
      match on the stripped header: the declared URI and the two-digit namespace. */
  function GetCustomHeadersAsWritten(opt: Option<string>, env: seq<(string, string)>, configured: Option<string>,
                                     optMatch: string -> Option<(string, string)>): (r: Option<seq<(string, string)>>)
    ensures opt.None? ==> r == Some([])
    ensures opt.Some? && optMatch(Strip(opt.value)).None? ==> r == Some([])
    ensures r.None? <==> opt.Some? && optMatch(Strip(opt.value)).Some? && optMatch(Strip(opt.value)).value.0 != ExpectedUri(configured)
  {
    if opt.None? then Some([])
    else
      match optMatch(Strip(opt.value))
      case None => Some([])
      case Some((declUri, ns)) =>
        if ExpectedUri(configured) == declUri then Some(ExtensionHeaders(env, "HTTP_" + ns + "_")) else None
  }

  /** `get_custom_headers()` as intended: a header declared for another URI carries no
      extension headers for this API. */
  function GetCustomHeaders(opt: Option<string>, env: seq<(string, string)>, configured: Option<string>,
                            optMatch: string -> Option<(string, string)>): (h: seq<(string, string)>)
    ensures h != [] ==> opt.Some? && optMatch(Strip(opt.value)).Some? && optMatch(Strip(opt.value)).value.0 == ExpectedUri(configured)
    ensures opt.Some? && optMatch(Strip(opt.value)).Some? && optMatch(Strip(opt.value)).value.0 == ExpectedUri(configured) ==>
      h == ExtensionHeaders(env, "HTTP_" + optMatch(Strip(opt.value)).value.1 + "_")
  {
    match GetCustomHeadersAsWritten(opt, env, configured, optMatch)
    case None => []
    case Some(h) => h
  }

  /** The write request's `comment` and `action`: `h.get(...)` on the headers, which fails
      when the headers are None. */
  function CommentAndAction(h: Option<seq<(string, string)>>): (r: Result<(Option<string>, Option<string>), string>)
    ensures r.Err? <==> h.None?
    ensures r.Ok? ==> r.value == (Get(h.value, "comment"), Get(h.value, "action"))
  {
    match h
    case None => Err("AttributeError: 'NoneType' object has no attribute 'get'")
    case Some(d) => Ok((Get(d, "comment"), Get(d, "action")))
  }

  /** A write request whose OPT header declares another URI fails as written, before the
      write is sent; as intended it is written without a comment or action. */
  lemma ForeignUriBreaksWrite(env: seq<(string, string)>, optMatch: string -> Option<(string, string)>)
    requires optMatch(Strip(ForeignOpt)) == Some((ForeignUri, "01"))
    ensures CommentAndAction(GetCustomHeadersAsWritten(Some(ForeignOpt), env, None, optMatch)).Err?
    ensures CommentAndAction(Some(GetCustomHeaders(Some(ForeignOpt), env, None, optMatch))) == Ok((None, None))
  {
    assert ForeignUri != ExpectedUri(None) by {
      assert |ForeignUri| == 22 && |DefaultUri| == 23;
    }
  }

  /** An OPT header declaring an extension at another URI, and that URI. */
  const ForeignOpt: string := "\"http://example.org/ext\"; ns=01"
  const ForeignUri: string := "http://example.org/ext"
}
