/** User accounts of Infobase (infogami/infobase/account.py): salted password hashes, the
    signed authentication token of the current session, password-reset codes, registration
    and login. HMAC is taken as given (a function parameter producing a hex digest); the
    random number behind a fresh salt, the clock and the client's IP address are parameters. */
module Account {
  import opened Wrappers
  import opened Json
  import opened Strings
  import opened InfobaseCore

  /** Lower-case hexadecimal digits, as `hexdigest()` writes them. */
  predicate IsHex(s: string) {
    forall i :: 0 <= i < |s| ==> s[i] in "0123456789abcdef"
  }

  /** A `hexdigest()` of Python 2's default HMAC-MD5: 32 hex digits. */
  type Digest = s: string | |s| == 32 && IsHex(s) witness "00000000000000000000000000000000"

  /** `hmac.HMAC(key, msg).hexdigest()`. */
  type Hmac = (string, string) -> Digest

  /** What the account operations raise: an Infobase exception with its one keyword
      argument, or Python's ValueError (a failed unpacking or `int()`) and TypeError. */
  datatype Error = Raised(kind: Kind, name: string, value: string) | ValueError | TypeError

  /** The parameters of `register(username, email, password, data)`. */
  const RegisterParams: set<string> := {"username", "email", "password", "data"}

  /** The parameters of the store's `update_user_details(key, email, enc_password)`. */
  const StoreUpdateParams: set<string> := {"key", "email", "enc_password"}

  /** Python's binding of a call to a function whose parameters have no defaults: every
      keyword names a parameter not already given by position, and every parameter is given;
      otherwise the call is a TypeError. */
  predicate Binds(params: set<string>, positional: set<string>, keywords: set<string>) {
    keywords <= params && positional !! keywords && positional + keywords == params
  }

  /** `update_user1` passes the new hash as `password=`, which the store does not take; as
      `enc_password=` it would bind. */
  lemma UpdateCallBinding()
    ensures !Binds(StoreUpdateParams, {"key"}, {"email", "password"})
    ensures Binds(StoreUpdateParams, {"key"}, {"email", "enc_password"})
  {
    assert "password" !in StoreUpdateParams;
  }

  /** `reset_password` passes `password=` and `verified=` to the store; `verified` is no
      parameter of it, so no call that passes it binds, whatever else it passes. */
  lemma ResetCallBinding()
    ensures !Binds(StoreUpdateParams, {"key"}, {"password", "verified"})
    ensures forall keywords :: "verified" in keywords ==> !Binds(StoreUpdateParams, {"key"}, keywords)
  {
    assert "verified" !in StoreUpdateParams;
  }

  /** `config.trusted_machines`. */
  const TrustedMachines: seq<string> := ["127.0.0.1"]

  /** Seconds in a week: a reset code's lifetime. */
  const SecondsPerWeek: int := 7 * 24 * 3600

  lemma HexHasNo(s: string, c: char)
    requires IsHex(s) && c !in "0123456789abcdef"
    ensures c !in s
  {
  }

  /** `salt or HMAC(key, str(random.random())).hexdigest()[:5]`; `draw` is the text of the
      random number. */
  function ChooseSalt(hmac: Hmac, key: string, salt: string, draw: string): (s: string)
    ensures salt != "" ==> s == salt
    ensures salt == "" ==> |s| == 5 && IsHex(s)
  {
    if salt != "" then salt else hmac(key, draw)[..5]
  }

  /** `_generate_salted_hash(key, text, salt)`: "salt$digest", the digest taken over the salt
      followed by the text. */
  function GenerateSaltedHash(hmac: Hmac, key: string, text: string, salt: string, draw: string): (r: string)
    ensures '$' !in salt ==>
      var s := ChooseSalt(hmac, key, salt, draw);
      SplitOnce(r, '$') == Some((s, hmac(key, s + text)))
  {
    var s := ChooseSalt(hmac, key, salt, draw);
    var h := hmac(key, s + text);
    if '$' in s then s + "$" + h
    else
      SplitOnceConcat(s, '$', h);
      s + "$" + h
  }

  /** `_check_salted_hash(key, text, salted_hash)`: ValueError when there is no '$'; otherwise
      the hash is generated again with the salt found before the first '$'. */
  function CheckSaltedHash(hmac: Hmac, key: string, text: string, salted: string, draw: string): (r: Result<bool, Error>)
    ensures r.Err? <==> '$' !in salted
    ensures r.Err? ==> r.error == ValueError
  {
    match SplitOnce(salted, '$')
    case None => Err(ValueError)
    case Some((salt, _)) => Ok(GenerateSaltedHash(hmac, key, text, salt, draw) == salted)
  }

  /** A salted hash that the check accepts for `text`: a non-empty salt before the first '$'
      and, after it, the digest of that salt followed by the text. */
  predicate ValidSaltedHash(hmac: Hmac, key: string, text: string, salted: string) {
    match SplitOnce(salted, '$')
    case None => false
    case Some((salt, digest)) => salt != "" && digest == hmac(key, salt + text)
  }

  /** What the check accepts, in both directions. An empty salt is replaced by a random one
      of five hex digits, which can never reproduce a hash that starts with '$'. */
  lemma CheckSaltedHashMeans(hmac: Hmac, key: string, text: string, salted: string, draw: string)
    ensures CheckSaltedHash(hmac, key, text, salted, draw) == Ok(true) <==> ValidSaltedHash(hmac, key, text, salted)
  {
    match SplitOnce(salted, '$')
    case None =>
    case Some((salt, digest)) =>
      var g := GenerateSaltedHash(hmac, key, text, salt, draw);
      var s := ChooseSalt(hmac, key, salt, draw);
      assert g == s + "$" + hmac(key, s + text);
      if salt == "" {
        HexHasNo(s, '$');
        assert g[0] == s[0] && salted[0] == '$';
      } else if g == salted {
        assert g[|salt| + 1..] == hmac(key, salt + text);
        assert salted[|salt| + 1..] == digest;
      }
  }

  /** The round trip: a hash generated for a text is accepted for that text, whatever random
      numbers are drawn, provided a given salt has no '$'. */
  lemma SaltedHashRoundTrip(hmac: Hmac, key: string, text: string, salt: string, draw: string, draw2: string)
    requires '$' !in salt
    ensures CheckSaltedHash(hmac, key, text, GenerateSaltedHash(hmac, key, text, salt, draw), draw2) == Ok(true)
  {
    var s := ChooseSalt(hmac, key, salt, draw);
    if salt == "" {
      HexHasNo(s, '$');
    }
    assert s != "";
    CheckSaltedHashMeans(hmac, key, text, GenerateSaltedHash(hmac, key, text, salt, draw), draw2);
  }

  /** A freshly salted hash has neither ',' nor '$' outside its one separator. */
  lemma FreshHashShape(hmac: Hmac, key: string, text: string, draw: string)
    ensures ',' !in GenerateSaltedHash(hmac, key, text, "", draw)
  {
    var s := ChooseSalt(hmac, key, "", draw);
    var h := hmac(key, s + text);
    HexHasNo(s, ',');
    HexHasNo(h, ',');
    HexHasNo(s, '$');
    assert GenerateSaltedHash(hmac, key, text, "", draw) == s + "$" + h;
  }

  /** The text an authentication token signs. */
  function AuthText(userKey: string, loginTime: string): string {
    userKey + "," + loginTime
  }

  /** The token `set_auth_token(user_key)` stores: "key,time,salt$digest", `loginTime` being the
      ISO text of the current UTC time. */
  function MakeAuthToken(hmac: Hmac, secret: string, userKey: string, loginTime: string, draw: string): string {
    var text := AuthText(userKey, loginTime);
    text + "," + GenerateSaltedHash(hmac, secret, text, "", draw)
  }

  /** `get_user()` on a session token as written, up to `_get_thing`: the user key when the
      token has exactly three comma-separated parts and its digest checks; nothing for a
      missing or empty token or another number of parts. Only the unpacking is guarded, so
      the check's ValueError on a third part without '$' escapes. */
  function UserOfTokenAsWritten(hmac: Hmac, secret: string, token: Option<string>, draw: string): (r: Result<Option<string>, Error>)
    ensures token.None? || token == Some("") ==> r == Ok(None)
    ensures token.Some? && |Split(token.value, ',')| != 3 ==> r == Ok(None)
    ensures r.Err? <==> token.Some? && |Split(token.value, ',')| == 3 && '$' !in Split(token.value, ',')[2]
  {
    if token.None? || token.value == "" then Ok(None)
    else
      var parts := Split(token.value, ',');
      if |parts| != 3 then Ok(None)
      else
        match CheckSaltedHash(hmac, secret, AuthText(parts[0], parts[1]), parts[2], draw)
        case Err(e) => Err(e)
        case Ok(valid) => Ok(if valid then Some(parts[0]) else None)
  }

  /** A session cookie "a,b,c" makes `get_user()` raise instead of finding nobody. */
  lemma UserOfTokenAsWrittenRaises(hmac: Hmac, secret: string, draw: string)
    ensures UserOfTokenAsWritten(hmac, secret, Some("a,b,c"), draw) == Err(ValueError)
  {
    var parts := ["a", "b", "c"];
    assert Join(parts, [',']) == "a,b,c";
    JoinSplit(parts, ',');
  }

  /** `get_user()` with a malformed token treated as no user, as the guard around the
      unpacking intends: the key before the first ',' exactly when the token has three
      comma-separated parts whose last is a valid salted digest of the first two. */
  function UserOfToken(hmac: Hmac, secret: string, token: Option<string>, draw: string): (r: Option<string>)
    ensures r.Some? <==> (token.Some? && |Split(token.value, ',')| == 3
                          && ValidSaltedHash(hmac, secret, AuthText(Split(token.value, ',')[0], Split(token.value, ',')[1]), Split(token.value, ',')[2]))
    ensures r.Some? ==> r.value == Split(token.value, ',')[0]
  {
    if token.Some? && |Split(token.value, ',')| == 3 then
      var parts := Split(token.value, ',');
      CheckSaltedHashMeans(hmac, secret, AuthText(parts[0], parts[1]), parts[2], draw);
      match UserOfTokenAsWritten(hmac, secret, token, draw)
      case Err(_) => None
      case Ok(u) => u
    else None
  }

  /** A token made for a key and a time without ',' names that user on every later request. */
  lemma AuthTokenAccepted(hmac: Hmac, secret: string, userKey: string, loginTime: string, draw: string, draw2: string)
    requires ',' !in userKey && ',' !in loginTime
    ensures UserOfTokenAsWritten(hmac, secret, Some(MakeAuthToken(hmac, secret, userKey, loginTime, draw)), draw2) == Ok(Some(userKey))
    ensures UserOfToken(hmac, secret, Some(MakeAuthToken(hmac, secret, userKey, loginTime, draw)), draw2) == Some(userKey)
  {
    var text := AuthText(userKey, loginTime);
    AuthTokenParts(hmac, secret, userKey, loginTime, draw);
    SaltedHashRoundTrip(hmac, secret, text, "", draw, draw2);
  }

  /** A token made for a key and a time without ',' splits into the key, the time and the
      salted digest. */
  lemma AuthTokenParts(hmac: Hmac, secret: string, userKey: string, loginTime: string, draw: string)
    requires ',' !in userKey && ',' !in loginTime
    ensures Split(MakeAuthToken(hmac, secret, userKey, loginTime, draw), ',')
      == [userKey, loginTime, GenerateSaltedHash(hmac, secret, AuthText(userKey, loginTime), "", draw)]
  {
    var text := AuthText(userKey, loginTime);
    var salted := GenerateSaltedHash(hmac, secret, text, "", draw);
    var t := MakeAuthToken(hmac, secret, userKey, loginTime, draw);
    FreshHashShape(hmac, secret, text, draw);
    var parts := [userKey, loginTime, salted];
    assert Join(parts[2..], [',']) == salted;
    assert Join(parts[1..], [',']) == loginTime + [','] + salted;
    assert Join(parts, [',']) == t;
    JoinSplit(parts, ',');
  }

  /** The converse: a token is only accepted for the key it starts with, when it carries a
      valid salted digest of that key and the time that follows it. */
  lemma AcceptedTokenShape(hmac: Hmac, secret: string, token: string, draw: string, userKey: string)
    requires UserOfToken(hmac, secret, Some(token), draw) == Some(userKey)
    ensures var parts := Split(token, ',');
      && ',' !in userKey && ',' !in parts[1]
      && token == AuthText(userKey, parts[1]) + "," + parts[2]
      && ValidSaltedHash(hmac, secret, AuthText(userKey, parts[1]), parts[2])
  {
    var parts := Split(token, ',');
    SplitJoin(token, ',');
    assert Join(parts[1..], [',']) == parts[1] + [','] + Join(parts[2..], [',']);
  }

  /** `admin_only`: PermissionDenied unless the current user is the administrator. */
  function AdminOnly(currentUser: Option<string>): (r: Option<Error>)
    ensures r.None? <==> currentUser == Some("/user/admin")
    ensures r.Some? ==> r.value == Raised(PermissionDenied, "message", "Permission Denied")
  {
    if currentUser.None? || currentUser.value != "/user/admin" then
      Some(Raised(PermissionDenied, "message", "Permission Denied"))
    else None
  }

  /** A user document: a dictionary of the user's properties. */
  type Doc = seq<(string, Value)>

  /** `{'key': k}`, how the queries refer to another object. */
  function KeyRef(k: string): Value {
    Dict([("key", Str(k))])
  }

  /** `user.key`: absent (AttributeError) or not a string (TypeError) gives `None`. */
  function UserKey(user: Doc): (k: Option<string>)
    ensures k.Some? ==> Get(user, "key").Some? && IsText(Get(user, "key").value) && k.value == TextOf(Get(user, "key").value)
  {
    match Get(user, "key")
    case Some(v) => if IsText(v) then Some(TextOf(v)) else None
    case None => None
  }

  /** The user's group, with the user as its only member. */
  function GroupDoc(k: string): (d: Doc)
    ensures Get(d, "key") == Some(Str(k + "/usergroup"))
    ensures Get(d, "type") == Some(KeyRef("/type/usergroup"))
    ensures Get(d, "members") == Some(List([KeyRef(k)]))
  {
    var d := [("key", Str(k + "/usergroup")), ("type", KeyRef("/type/usergroup")), ("members", List([KeyRef(k)]))];
    GetAt(d, 0);
    GetAt(d, 1);
    GetAt(d, 2);
    d
  }

  /** The user's permission: everyone reads, the user's group writes and administers. */
  function PermissionDoc(k: string): (d: Doc)
    ensures Get(d, "key") == Some(Str(k + "/permission"))
    ensures Get(d, "readers") == Some(List([KeyRef("/usergroup/everyone")]))
    ensures Get(d, "writers") == Some(List([KeyRef(k + "/usergroup")]))
    ensures Get(d, "admins") == Some(List([KeyRef(k + "/usergroup")]))
  {
    var d := [("key", Str(k + "/permission")), ("type", KeyRef("/type/permission")),
              ("readers", List([KeyRef("/usergroup/everyone")])),
              ("writers", List([KeyRef(k + "/usergroup")])),
              ("admins", List([KeyRef(k + "/usergroup")]))];
    GetAt(d, 0);
    GetAt(d, 2);
    GetAt(d, 3);
    GetAt(d, 4);
    d
  }

  /** `make_query(user)`: the user's group, its permission, and the user with its `permission`
      set to that permission. TypeError when the user has no string key. */
  function MakeQuery(user: Doc): (r: Result<seq<Doc>, Error>)
    ensures r.Err? <==> UserKey(user).None?
    ensures r.Err? ==> r.error == TypeError
    ensures r.Ok? ==> |r.value| == 3
  {
    match UserKey(user)
    case None => Err(TypeError)
    case Some(k) => Ok([GroupDoc(k), PermissionDoc(k), Put(user, "permission", KeyRef(k + "/permission"))])
  }

  /** The three documents refer to one another: the group lists the user, the permission
      names the group as writers and admins, and the user points at the permission while
      keeping its key and every other property. */
  lemma MakeQueryLinks(user: Doc)
    requires UserKey(user).Some?
    ensures var k := UserKey(user).value;
      var q := MakeQuery(user).value;
      && Get(q[0], "members") == Some(List([KeyRef(k)]))
      && Get(q[1], "writers") == Some(List([KeyRef(TextOf(Get(q[0], "key").value))]))
      && Get(q[1], "admins") == Get(q[1], "writers")
      && Get(q[2], "permission") == Some(KeyRef(TextOf(Get(q[1], "key").value)))
      && forall j :: j != "permission" ==> Get(q[2], j) == Get(user, j)
  {
    var k := UserKey(user).value;
    var q := MakeQuery(user).value;
    var u := Put(user, "permission", KeyRef(k + "/permission"));
    assert q == [GroupDoc(k), PermissionDoc(k), u];
    GetPut(user, "permission", KeyRef(k + "/permission"), "permission");
    forall j | j != "permission"
      ensures Get(u, j) == Get(user, j)
    {
      GetPut(user, "permission", KeyRef(k + "/permission"), j);
    }
  }

  /** The first entry under a key is what `get` finds. */
  lemma {:induction false} GetAt<V>(d: seq<(string, V)>, i: nat)
    requires i < |d| && forall j :: 0 <= j < i ==> d[j].0 != d[i].0
    ensures Get(d, d[i].0) == Some(d[i].1)
  {
    if i > 0 {
      assert d[1..][i - 1] == d[i];
      GetAt(d[1..], i - 1);
    }
  }

  /** A row of the account table: the email, the salted password and the optional flags. */
  datatype Details = Details(email: string, password: string, active: Option<bool>, verified: Option<bool>, bot: Option<bool>)

  /** What the site's event listeners are told. */
  datatype Event = Event(name: string, ip: string, data: Doc)

  /** A logged-in user: the site object's key with the account flags copied onto it. */
  datatype User = User(key: string, bot: Option<bool>, active: Option<bool>, verified: Option<bool>)

  /** `dict(data, **kw)`: the keyword arguments put over a copy of `data`. */
  function WithFields(data: Doc, fields: seq<(string, Value)>): Doc
    decreases |fields|
  {
    if fields == [] then data else WithFields(Put(data, fields[0].0, fields[0].1), fields[1..])
  }

  /** A keyword argument not repeated later is what the copy holds under its name. */
  lemma {:induction false} WithFieldsSets(data: Doc, fields: seq<(string, Value)>, i: nat)
    requires i < |fields| && !HasKey(fields[i + 1..], fields[i].0)
    ensures Get(WithFields(data, fields), fields[i].0) == Some(fields[i].1)
    decreases |fields|
  {
    if i == 0 {
      WithFieldsKeeps(Put(data, fields[0].0, fields[0].1), fields[1..], fields[0].0);
      GetPut(data, fields[0].0, fields[0].1, fields[0].0);
    } else {
      assert fields[1..][i - 1] == fields[i] && fields[1..][i..] == fields[i + 1..];
      WithFieldsSets(Put(data, fields[0].0, fields[0].1), fields[1..], i - 1);
    }
  }

  /** Fields not named among the keyword arguments keep their value. */
  lemma {:induction false} WithFieldsKeeps(data: Doc, fields: seq<(string, Value)>, j: string)
    requires !HasKey(fields, j)
    ensures Get(WithFields(data, fields), j) == Get(data, j)
    decreases |fields|
  {
    if fields != [] {
      assert Keys(fields) == [fields[0].0] + Keys(fields[1..]);
      WithFieldsKeeps(Put(data, fields[0].0, fields[0].1), fields[1..], j);
      GetPut(data, fields[0].0, fields[0].1, j);
    }
  }

  function OptStr(s: Option<string>): Value {
    if s.None? then Null else Str(s.value)
  }

  /** Python truthiness of an optional string. */
  predicate Given(s: Option<string>) {
    s.Some? && s.value != ""
  }

  /** Every account belongs to a site object keyed under /user/, and the email index points at
      accounts with that email. */
  ghost predicate ValidState(things: map<string, Doc>, accounts: map<string, Details>, emails: map<string, string>) {
    && (forall k :: k in accounts ==> k in things && StartsWith(k, "/user/"))
    && (forall e :: e in emails ==> emails[e] in accounts && accounts[emails[e]].email == e)
  }

  /** Registering a new key with a new email keeps the store consistent. */
  lemma RegisterKeepsValid(things: map<string, Doc>, accounts: map<string, Details>, emails: map<string, string>,
                           things': map<string, Doc>, key: string, details: Details)
    requires ValidState(things, accounts, emails)
    requires key !in things && StartsWith(key, "/user/") && things.Keys + {key} <= things'.Keys
    ensures ValidState(things', accounts[key := details], emails[details.email := key])
  {
  }

  /** The email index after an account's email changes: the old entries of that account go,
      the new email points at it. */
  function NewEmails(emails: map<string, string>, key: string, email: Option<string>): map<string, string> {
    if Given(email) then (emails - (set e | e in emails && emails[e] == key))[email.value := key] else emails
  }

  /** Updating an account's details keeps the store consistent. */
  lemma UpdateKeepsValid(things: map<string, Doc>, accounts: map<string, Details>, emails: map<string, string>,
                         key: string, email: Option<string>, updated: Details)
    requires ValidState(things, accounts, emails) && key in accounts
    requires updated.email == if Given(email) then email.value else accounts[key].email
    ensures ValidState(things, accounts[key := updated], NewEmails(emails, key, email))
  {
  }

  /** The site objects after `register1`'s saves: the user document under its key, then the
      three documents of `make_query` under theirs. */
  function SavedThings(things: map<string, Doc>, key: string, d: Doc, k: string, q: seq<Doc>): map<string, Doc>
    requires |q| == 3
  {
    things[key := d][k + "/usergroup" := q[0]][k + "/permission" := q[1]][k := q[2]]
  }

  /** The site objects after `register1`'s saves, or the TypeError of `make_query` when `data`
      replaced the user's key by something that is not a string. */
  function RegisterSaves(things: map<string, Doc>, key: string, data: Doc): (r: Result<map<string, Doc>, Error>)
    ensures !HasKey(data, "key") ==> r.Ok?
    ensures r.Ok? ==> things.Keys + {key} <= r.value.Keys
    ensures r.Err? ==> r.error == TypeError
  {
    var d := UserDoc(key, data);
    match MakeQuery(d)
    case Err(e) => Err(e)
    case Ok(q) => Ok(SavedThings(things, key, d, UserKey(d).value, q))
  }

  /** `AccountManager` with the parts of the site and store it uses: the site's objects by key,
      the account table, its email index (`find_user`), the session's token and the events
      fired. */
  class AccountManager {
    const hmac: Hmac
    const secretKey: string
    var things: map<string, Doc>
    var accounts: map<string, Details>
    var emails: map<string, string>
    var authToken: Option<string>
    var events: seq<Event>

    ghost predicate Valid()
      reads this
    {
      ValidState(things, accounts, emails)
    }

    constructor (hmac: Hmac, secretKey: string)
      ensures this.hmac == hmac && this.secretKey == secretKey
      ensures things == map[] && accounts == map[] && emails == map[] && authToken == None && events == []
      ensures Valid()
    {
      this.hmac := hmac;
      this.secretKey := secretKey;
      things := map[];
      accounts := map[];
      emails := map[];
      authToken := None;
      events := [];
    }

    /** `get_user()`: the key of the session's user. */
    function CurrentUser(draw: string): (r: Option<string>)
      reads this
      ensures authToken.None? ==> r == None
    {
      UserOfToken(hmac, secretKey, authToken, draw)
    }

    /** `set_auth_token(user_key)`. */
    method SetAuthToken(userKey: string, loginTime: string, draw: string)
      modifies this`authToken
      ensures authToken == Some(MakeAuthToken(hmac, secretKey, userKey, loginTime, draw))
      ensures ',' !in userKey && ',' !in loginTime ==> forall d :: CurrentUser(d) == Some(userKey)
    {
      authToken := Some(MakeAuthToken(hmac, secretKey, userKey, loginTime, draw));
      forall d | ',' !in userKey && ',' !in loginTime
        ensures CurrentUser(d) == Some(userKey)
      {
        AuthTokenAccepted(hmac, secretKey, userKey, loginTime, draw, d);
      }
    }

    /** `checkpassword(username, raw_password)`: false without an account or for an account
        whose `active` is False; otherwise the stored salted hash decides. */
    function CheckPassword(username: string, raw: string, draw: string): (r: Result<bool, Error>)
      reads this
      ensures username !in accounts || accounts[username].active == Some(false) ==> r == Ok(false)
      ensures r == Ok(true) <==> (username in accounts && accounts[username].active != Some(false)
                                  && ValidSaltedHash(hmac, secretKey, raw, accounts[username].password))
    {
      if username !in accounts || accounts[username].active == Some(false) then Ok(false)
      else
        CheckSaltedHashMeans(hmac, secretKey, raw, accounts[username].password, draw);
        CheckSaltedHash(hmac, secretKey, raw, accounts[username].password, draw)
    }

    /** `get_user_email(username)`, admin only: BadData when no account has that key. */
    function GetUserEmail(username: string, draw: string): (r: Result<string, Error>)
      reads this
      ensures CurrentUser(draw) != Some("/user/admin") ==> r == Err(Raised(PermissionDenied, "message", "Permission Denied"))
      ensures r.Ok? ==> username in accounts && r.value == accounts[username].email
      ensures CurrentUser(draw) == Some("/user/admin") && username !in accounts ==>
        r == Err(Raised(BadData, "message", "No user registered with username: " + username))
    {
      var u := CurrentUser(draw);
      if AdminOnly(u).Some? then Err(AdminOnly(u).value)
      else if username !in accounts then Err(Raised(BadData, "message", "No user registered with username: " + username))
      else Ok(accounts[username].email)
    }

    /** `get_user_code(email)`, admin only: the user name and "timestamp$salt$digest", the
        digest signing the stored password followed by '$' and the timestamp; `now` is
        `int(time.time())`. UserNotFound for an unknown email. */
    function GetUserCode(email: string, now: int, draw: string, draw2: string): (r: Result<(string, string), Error>)
      requires Valid()
      reads this
      ensures CurrentUser(draw) != Some("/user/admin") ==> r == Err(Raised(PermissionDenied, "message", "Permission Denied"))
      ensures r.Ok? <==> CurrentUser(draw) == Some("/user/admin") && email in emails
      ensures CurrentUser(draw) == Some("/user/admin") && email !in emails ==> r == Err(Raised(UserNotFound, "email", email))
      ensures r.Ok? ==> "/user/" + r.value.0 == emails[email]
    {
      var u := CurrentUser(draw);
      if AdminOnly(u).Some? then Err(AdminOnly(u).value)
      else if email !in emails then Err(Raised(UserNotFound, "email", email))
      else
        var key := emails[email];
        var username := LStrips(key, "/user/");
        var timestamp := IntToString(now);
        var text := accounts[key].password + "$" + timestamp;
        Ok((username, timestamp + "$" + GenerateSaltedHash(hmac, secretKey, text, "", draw2)))
    }

    /** `check_reset_code(username, code)` at time `now`: ValueError without a '$' or with a
        timestamp that is not an integer; BadData when the code is more than a week old, when
        there is no such user, and when the digest does not check. */
    function CheckResetCode(username: string, code: string, now: int, draw: string): (r: Result<(), Error>)
      reads this
      ensures SplitOnce(code, '$').None? ==> r == Err(ValueError)
      ensures SplitOnce(code, '$').Some? && ParseInt(SplitOnce(code, '$').value.0).Some?
              && ParseInt(SplitOnce(code, '$').value.0).value + SecondsPerWeek < now ==>
        r == Err(Raised(BadData, "message", "Password Reset code expired"))
      ensures r.Ok? ==> "/user/" + username in accounts
    {
      match SplitOnce(code, '$')
      case None => Err(ValueError)
      case Some((timestamp, rest)) =>
        match ParseInt(timestamp)
        case None => Err(ValueError)
        case Some(t) =>
          if t + SecondsPerWeek < now then Err(Raised(BadData, "message", "Password Reset code expired"))
          else
            var key := "/user/" + username;
            if key !in accounts then Err(Raised(BadData, "message", "Invalid username"))
            else
              var text := accounts[key].password + "$" + timestamp;
              match CheckSaltedHash(hmac, secretKey, text, rest, draw)
              case Err(e) => Err(e)
              case Ok(valid) => if valid then Ok(()) else Err(Raised(BadData, "message", "Invaid password reset code"))
    }

    /** A code handed out for an email is accepted for that user exactly until a week after
        it was made, and rejected as expired afterwards. */
    lemma ResetCodeRoundTrip(email: string, now: int, draw: string, draw2: string, later: int, draw3: string)
      requires Valid()
      requires GetUserCode(email, now, draw, draw2).Ok?
      ensures var (username, code) := GetUserCode(email, now, draw, draw2).value;
        && (later <= now + SecondsPerWeek ==> CheckResetCode(username, code, later, draw3) == Ok(()))
        && (later > now + SecondsPerWeek ==> CheckResetCode(username, code, later, draw3) == Err(Raised(BadData, "message", "Password Reset code expired")))
    {
      var key := emails[email];
      var (username, code) := GetUserCode(email, now, draw, draw2).value;
      var timestamp := IntToString(now);
      var text := accounts[key].password + "$" + timestamp;
      var salted := GenerateSaltedHash(hmac, secretKey, text, "", draw2);
      assert code == timestamp + "$" + salted;
      NoDollarInInt(now);
      SplitOnceConcat(timestamp, '$', salted);
      ParseIntToString(now);
      SaltedHashRoundTrip(hmac, secretKey, text, "", draw2, draw3);
    }

    /** `reset_password(username, code, password)` as intended: the code is checked first;
        then the account gets a freshly salted hash of the new password and is marked
        verified. `ResetPasswordAsWritten` is the store call as written. */
    method ResetPassword(username: string, code: string, password: string, now: int, draw: string, draw2: string)
      returns (r: Result<(), Error>)
      modifies this`accounts
      ensures r.Ok? <==> old(CheckResetCode(username, code, now, draw)).Ok?
      ensures r.Err? ==> r == old(CheckResetCode(username, code, now, draw)) && accounts == old(accounts)
      ensures r.Ok? ==> var key := "/user/" + username;
        key in old(accounts)
        && accounts == old(accounts)[key := old(accounts)[key].(password := GenerateSaltedHash(hmac, secretKey, password, "", draw2), verified := Some(true))]
      ensures r.Ok? ==> forall d :: CheckPassword("/user/" + username, password, d) == Ok(true) <==> accounts["/user/" + username].active != Some(false)
    {
      r := CheckResetCode(username, code, now, draw);
      if r.Ok? {
        var key := "/user/" + username;
        var enc := GenerateSaltedHash(hmac, secretKey, password, "", draw2);
        accounts := accounts[key := accounts[key].(password := enc, verified := Some(true))];
        forall d ensures CheckPassword(key, password, d) == Ok(true) <==> accounts[key].active != Some(false) {
          SaltedHashRoundTrip(hmac, secretKey, password, "", draw2, d);
          CheckSaltedHashMeans(hmac, secretKey, password, enc, d);
        }
      }
    }

    /** `reset_password(username, code, password)` as written: the code is checked first; then
        the store's `update_user_details` is called with `password=` and `verified=`, keywords
        it does not take, so a good code is Python's TypeError and nothing is stored. */
    method ResetPasswordAsWritten(username: string, code: string, password: string, now: int, draw: string)
      returns (r: Result<(), Error>)
      ensures r.Err?
      ensures CheckResetCode(username, code, now, draw).Err? ==> r == CheckResetCode(username, code, now, draw)
      ensures CheckResetCode(username, code, now, draw).Ok? ==> r == Err(TypeError)
    {
      r := CheckResetCode(username, code, now, draw);
      if r.Ok? {
        ResetCallBinding();
        r := Err(TypeError);
      }
    }

    /** `login(username, password)` from `ip` at `loginTime`: 'admin' only from a trusted
        machine; on a good password the session token is set and the user is returned with
        the account's flags. */
    method Login(username: string, password: string, ip: string, loginTime: string, draw: string, draw2: string)
      returns (r: Result<Option<User>, Error>)
      modifies this`authToken
      ensures username == "admin" && ip !in TrustedMachines ==>
        r == Err(Raised(PermissionDenied, "message", "Permission denied to login as admin from " + ip)) && authToken == old(authToken)
      ensures !(username == "admin" && ip !in TrustedMachines) ==>
        match CheckPassword("/user/" + username, password, draw)
        case Err(e) => r == Err(e) && authToken == old(authToken)
        case Ok(false) => r == Ok(None) && authToken == old(authToken)
        case Ok(true) =>
          var key := "/user/" + username;
          var a := accounts[key];
          && r == Ok(Some(User(key, a.bot, a.active, a.verified)))
          && authToken == Some(MakeAuthToken(hmac, secretKey, key, loginTime, draw2))
    {
      if username == "admin" && ip !in TrustedMachines {
        return Err(Raised(PermissionDenied, "message", "Permission denied to login as admin from " + ip));
      }
      var key := "/user/" + username;
      var ok := CheckPassword(key, password, draw);
      match ok
      case Err(e) =>
        r := Err(e);
      case Ok(valid) =>
        if valid {
          SetAuthToken(key, loginTime, draw2);
          var a := accounts[key];
          r := Ok(Some(User(key, a.bot, a.active, a.verified)));
        } else {
          r := Ok(None);
        }
    }

    /** `register1(username, email, enc_password, data, ip)`: BadData when the user or the
        email exists; otherwise, in one transaction, the user document (key and type, then
        `data`) is saved, then the group, the permission and the user from `make_query`, and
        the account is registered; then the "register" event is fired and the session is
        logged in as the new user. A failure inside the transaction leaves everything as it
        was. */
    method Register1(username: string, email: string, encPassword: string, data: Doc, ip: string, loginTime: string, draw: string)
      returns (r: Result<(), Error>)
      requires Valid()
      modifies this
      ensures Valid()
      ensures "/user/" + username in old(things) ==>
        r == Err(Raised(BadData, "message", "User already exists: " + username))
      ensures "/user/" + username !in old(things) && email in old(emails) ==>
        r == Err(Raised(BadData, "message", "Email is already used: " + email))
      ensures r.Err? ==> things == old(things) && accounts == old(accounts) && emails == old(emails)
                         && authToken == old(authToken) && events == old(events)
      ensures r.Ok? ==> Registered(username, email, encPassword, data, ip, loginTime, draw, old(things), old(accounts), old(emails), old(events))
    {
      var key := "/user/" + username;
      if key in things {
        return Err(Raised(BadData, "message", "User already exists: " + username));
      }
      if email in emails {
        return Err(Raised(BadData, "message", "Email is already used: " + email));
      }
      var saves := RegisterSaves(things, key, data);
      if saves.Err? {
        return Err(saves.error);
      }
      var saved := saves.value;
      var details := Details(email, encPassword, None, None, None);
      var accounts' := accounts[key := details];
      var emails' := emails[email := key];
      var events' := events + [Event("register", ip, RegisterEventData(username, email, encPassword, data))];
      RegisterKeepsValid(things, accounts, emails, saved, key, details);
      Install(saved, accounts', emails', events');
      SetAuthToken(key, loginTime, draw);
      r := Ok(());
    }

    /** The site and store after the transaction, and the event fired. */
    method Install(things': map<string, Doc>, accounts': map<string, Details>, emails': map<string, string>, events': seq<Event>)
      modifies this
      ensures things == things' && accounts == accounts' && emails == emails' && events == events'
      ensures authToken == old(authToken)
    {
      things := things';
      accounts := accounts';
      emails := emails';
      events := events';
    }

    /** The state after a successful `register1`. */
    ghost predicate Registered(username: string, email: string, encPassword: string, data: Doc, ip: string, loginTime: string, draw: string,
                               things0: map<string, Doc>, accounts0: map<string, Details>, emails0: map<string, string>, events0: seq<Event>)
      reads this
    {
      var key := "/user/" + username;
      && key !in things0 && email !in emails0
      && RegisterSaves(things0, key, data).Ok?
      && things == RegisterSaves(things0, key, data).value
      && accounts == accounts0[key := Details(email, encPassword, None, None, None)]
      && emails == emails0[email := key]
      && events == events0 + [Event("register", ip, RegisterEventData(username, email, encPassword, data))]
      && authToken == Some(MakeAuthToken(hmac, secretKey, key, loginTime, draw))
    }

    /** `register(username, email, password, data)`: `register1` with a freshly salted hash of
        the password, after which the new user can log in with that password. */
    method Register(username: string, email: string, password: string, data: Doc, ip: string, loginTime: string, draw: string, draw2: string)
      returns (r: Result<(), Error>)
      requires Valid()
      modifies this
      ensures Valid()
      ensures r.Err? ==> things == old(things) && accounts == old(accounts) && emails == old(emails)
                         && authToken == old(authToken) && events == old(events)
      ensures r.Ok? ==> Registered(username, email, GenerateSaltedHash(hmac, secretKey, password, "", draw), data, ip, loginTime, draw2,
                                   old(things), old(accounts), old(emails), old(events))
      ensures r.Ok? ==> forall d :: CheckPassword("/user/" + username, password, d) == Ok(true)
    {
      var enc := GenerateSaltedHash(hmac, secretKey, password, "", draw);
      r := Register1(username, email, enc, data, ip, loginTime, draw2);
      if r.Ok? {
        forall d ensures CheckPassword("/user/" + username, password, d) == Ok(true) {
          SaltedHashRoundTrip(hmac, secretKey, password, "", draw, d);
          CheckSaltedHashMeans(hmac, secretKey, password, enc, d);
        }
      }
    }

    /** `update_user(old_password, new_password, email)`: PermissionDenied when nobody is
        logged in and BadData on a wrong old password; then `update_user1` stores the email
        when one is given and a salted hash of the new password when one is given, and fires
        "update_user". This is the update as intended, with the store called with
        `enc_password=`; `UpdateUserAsWritten` is the call as written. */
    method UpdateUser(oldPassword: string, newPassword: Option<string>, email: Option<string>, ip: string, draw: string, draw2: string, draw3: string)
      returns (r: Result<(), Error>)
      requires Valid()
      modifies this`accounts, this`emails, this`events
      ensures Valid()
      ensures old(CurrentUser(draw)).None? ==> r == Err(Raised(PermissionDenied, "message", "Not logged in"))
      ensures old(CurrentUser(draw)).Some? && old(CheckPassword(CurrentUser(draw).value, oldPassword, draw2)) == Ok(false) ==>
        r == Err(Raised(BadData, "message", "Invalid Password"))
      ensures r.Err? ==> accounts == old(accounts) && emails == old(emails) && events == old(events)
      ensures r.Ok? ==> var key := old(CurrentUser(draw)).value;
        var enc := EncPassword(newPassword, draw3);
        && old(CheckPassword(key, oldPassword, draw2)) == Ok(true)
        && accounts == old(accounts)[key := UpdatedDetails(old(accounts)[key], email, enc)]
        && events == old(events) + [Event("update_user", ip, [("username", Str(key)), ("email", OptStr(email)), ("password", OptStr(enc))])]
    {
      var u := CurrentUser(draw);
      if u.None? {
        return Err(Raised(PermissionDenied, "message", "Not logged in"));
      }
      var key := u.value;
      var ok := CheckPassword(key, oldPassword, draw2);
      if ok.Err? {
        return ok.PropagateFailure();
      }
      if !ok.value {
        return Err(Raised(BadData, "message", "Invalid Password"));
      }
      var enc := EncPassword(newPassword, draw3);
      var updated := UpdatedDetails(accounts[key], email, enc);
      UpdateKeepsValid(things, accounts, emails, key, email, updated);
      emails := NewEmails(emails, key, email);
      accounts := accounts[key := updated];
      events := events + [Event("update_user", ip, [("username", Str(key)), ("email", OptStr(email)), ("password", OptStr(enc))])];
      r := Ok(());
    }

    /** `update_user(old_password, new_password, email)` as written: the same checks, then
        `update_user1` calls the store's `update_user_details` with `password=`, a keyword it
        does not take, so an update that passes the checks is Python's TypeError and nothing
        is stored or fired. */
    method UpdateUserAsWritten(oldPassword: string, newPassword: Option<string>, email: Option<string>, draw: string, draw2: string)
      returns (r: Result<(), Error>)
      requires Valid()
      ensures r.Err?
      ensures CurrentUser(draw).None? ==> r == Err(Raised(PermissionDenied, "message", "Not logged in"))
      ensures CurrentUser(draw).Some? && CheckPassword(CurrentUser(draw).value, oldPassword, draw2) == Ok(false) ==>
        r == Err(Raised(BadData, "message", "Invalid Password"))
      ensures CurrentUser(draw).Some? && CheckPassword(CurrentUser(draw).value, oldPassword, draw2) == Ok(true) ==>
        r == Err(TypeError)
    {
      var u := CurrentUser(draw);
      if u.None? {
        return Err(Raised(PermissionDenied, "message", "Not logged in"));
      }
      var ok := CheckPassword(u.value, oldPassword, draw2);
      if ok.Err? {
        return ok.PropagateFailure();
      }
      if !ok.value {
        return Err(Raised(BadData, "message", "Invalid Password"));
      }
      UpdateCallBinding();
      r := Err(TypeError);
    }

    /** `new_password and self._generate_salted_hash(...)`: a missing or empty password is
        passed on as it is. */
    function EncPassword(newPassword: Option<string>, draw: string): (enc: Option<string>)
      reads this
      ensures !Given(newPassword) ==> enc == newPassword
      ensures Given(newPassword) ==> enc.Some? && ValidSaltedHash(hmac, secretKey, newPassword.value, enc.value)
    {
      if Given(newPassword) then
        var h := GenerateSaltedHash(hmac, secretKey, newPassword.value, "", draw);
        SaltedHashRoundTrip(hmac, secretKey, newPassword.value, "", draw, draw);
        CheckSaltedHashMeans(hmac, secretKey, newPassword.value, h, draw);
        Some(h)
      else newPassword
    }

  }

  /** The user document `register1` saves: key and type first, then `data` over them. */
  function UserDoc(key: string, data: Doc): (d: Doc)
    ensures !HasKey(data, "key") ==> UserKey(d) == Some(key)
  {
    var d := WithFields([("key", Str(key)), ("type", KeyRef("/type/user"))], data);
    if !HasKey(data, "key") then
      WithFieldsKeeps([("key", Str(key)), ("type", KeyRef("/type/user"))], data, "key");
      d
    else d
  }

  /** `dict(data, username=..., email=..., password=...)`. */
  function RegisterEventData(username: string, email: string, encPassword: string, data: Doc): (d: Doc)
    ensures Get(d, "username") == Some(Str(username)) && Get(d, "email") == Some(Str(email))
            && Get(d, "password") == Some(Str(encPassword))
  {
    var fields := [("username", Str(username)), ("email", Str(email)), ("password", Str(encPassword))];
    assert Keys(fields[1..]) == ["email", "password"] && Keys(fields[2..]) == ["password"] && fields[3..] == [];
    WithFieldsSets(data, fields, 0);
    WithFieldsSets(data, fields, 1);
    WithFieldsSets(data, fields, 2);
    WithFields(data, fields)
  }

  /** `update_user_details(key, email, enc_password)` of the store: a given email and a given
      password replace the stored ones; the flags stay. */
  function UpdatedDetails(a: Details, email: Option<string>, enc: Option<string>): (b: Details)
    ensures b.email == (if Given(email) then email.value else a.email)
    ensures b.password == (if Given(enc) then enc.value else a.password)
    ensures b.active == a.active && b.verified == a.verified && b.bot == a.bot
  {
    a.(email := if Given(email) then email.value else a.email,
       password := if Given(enc) then enc.value else a.password)
  }

  /** `'$'` does not occur in the decimal text of an integer. */
  lemma NoDollarInInt(n: int)
    ensures '$' !in IntToString(n)
  {
    var t := IntToString(n);
    if n < 0 {
      assert t == "-" + NatToString(-n);
    }
  }
}
