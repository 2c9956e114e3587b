/** The bootstrap query (infogami/infobase/bootstrap.py): the write query that creates the
    type system and the system objects of a new site, and the steps that then register the
    admin account. The documents are modelled as records; `AsQuery` gives the dictionaries
    the write query holds. */
module Bootstrap {
  import opened Wrappers
  import opened Json
  import opened Strings
  import Account

  /** `_property(name, expected_type, unique, description, **kw)`; the only extra keyword
      argument used is `options`. */
  datatype PropertyDoc = PropertyDoc(name: string, expectedType: string, unique: bool, description: string, options: seq<string>)

  /** A document of the bootstrap query. */
  datatype Doc =
    | TypeDoc(key: string, name: string, desc: string, kind: string, properties: seq<PropertyDoc>, backreferences: seq<PropertyDoc>)
    | GroupDoc(key: string, description: string, members: seq<string>)
    | PermissionDoc(key: string, readers: seq<string>, writers: seq<string>, admins: seq<string>)

  /** `_type(key, name, desc)` with its defaults: a regular type without properties. */
  function RegularType(key: string, name: string, desc: string, properties: seq<PropertyDoc>): (d: Doc)
    ensures d.TypeDoc? && d.key == key && d.kind == "regular" && d.properties == properties && d.backreferences == []
  {
    TypeDoc(key, name, desc, "regular", properties, [])
  }

  /** `_property(name, t)` with its defaults: unique, no description. */
  function Prop(name: string, expectedType: string): (p: PropertyDoc)
    ensures p.unique && p.description == "" && p.options == [] && p.expectedType == expectedType
  {
    PropertyDoc(name, expectedType, true, "", [])
  }

  function Multi(name: string, expectedType: string): (p: PropertyDoc)
    ensures !p.unique && p.description == "" && p.options == [] && p.expectedType == expectedType
  {
    PropertyDoc(name, expectedType, false, "", [])
  }

  /** `{'key': k}`. */
  function KeyRef(k: string): Value {
    Dict([("key", Str(k))])
  }

  function KeyRefs(ks: seq<string>): (r: seq<Value>)
    ensures |r| == |ks| && forall i :: 0 <= i < |ks| ==> r[i] == KeyRef(ks[i])
  {
    if ks == [] then [] else [KeyRef(ks[0])] + KeyRefs(ks[1..])
  }

  /** The property as the query writes it: `unique` wrapped as a boolean value and
      `expected_type` as a reference. */
  function PropertyValue(p: PropertyDoc): (v: Value)
    ensures v.Dict?
    ensures Get(v.entries, "unique") == Some(Dict([("type", Str("/type/boolean")), ("value", Bool(p.unique))]))
    ensures Get(v.entries, "expected_type") == Some(KeyRef(p.expectedType))
    ensures Get(v.entries, "name") == Some(Str(p.name))
  {
    var es := [("name", Str(p.name)), ("type", KeyRef("/type/property")), ("expected_type", KeyRef(p.expectedType)),
               ("unique", Dict([("type", Str("/type/boolean")), ("value", Bool(p.unique))])), ("description", Str(p.description))];
    var es := if p.options == [] then es else es + [("options", List(seq(|p.options|, i requires 0 <= i < |p.options| => Str(p.options[i]))))];
    assert |"name"| != |"expected_type"| && |"type"| != |"expected_type"| && |"name"| != |"unique"| && |"type"| != |"unique"|;
    assert |"expected_type"| != |"unique"|;
    GetAt(es, 0, "name");
    GetAt(es, 2, "expected_type");
    GetAt(es, 3, "unique");
    Dict(es)
  }

  function PropertyValues(ps: seq<PropertyDoc>): (r: seq<Value>)
    ensures |r| == |ps| && forall i :: 0 <= i < |ps| ==> r[i] == PropertyValue(ps[i])
  {
    if ps == [] then [] else [PropertyValue(ps[0])] + PropertyValues(ps[1..])
  }

  /** The dictionary a document stands for in the query. */
  function AsValue(d: Doc): (v: Value)
    ensures v.Dict? && Get(v.entries, "key") == Some(Str(d.key))
  {
    match d
    case TypeDoc(key, name, desc, kind, properties, backreferences) =>
      Dict([("key", Str(key)), ("type", KeyRef("/type/type")), ("name", Str(name)), ("desc", Str(desc)), ("kind", Str(kind)),
            ("properties", List(PropertyValues(properties))), ("backreferences", List(PropertyValues(backreferences)))])
    case GroupDoc(key, description, members) =>
      Dict([("key", Str(key)), ("type", KeyRef("/type/usergroup")), ("description", Str(description)), ("members", List(KeyRefs(members)))])
    case PermissionDoc(key, readers, writers, admins) =>
      Dict([("key", Str(key)), ("type", KeyRef("/type/permission")), ("readers", List(KeyRefs(readers))),
            ("writers", List(KeyRefs(writers))), ("admins", List(KeyRefs(admins)))])
  }

  function AsQuery(q: seq<Doc>): (r: seq<Value>)
    ensures |r| == |q| && forall i :: 0 <= i < |q| ==> r[i] == AsValue(q[i])
  {
    if q == [] then [] else [AsValue(q[0])] + AsQuery(q[1..])
  }

  /** The descriptions the bootstrap query gives its types and groups, as written. */
  const KeyDesc: string := "Type to store keys. A key is a string constrained to the regular expression [a-z][a-z/_]*."
  const StringDesc: string := "Type to store unicode strings up to a maximum length of 2048."
  const TextDesc: string := "Type to store arbitrary long unicode text. Values of this type are not indexed."
  const IntDesc: string := "Type to store 32-bit integers. This can store integers in the range [-2**32, 2**31-1]."
  const BooleanDesc: string := "Type to store boolean values true and false."
  const FloatDesc: string := "Type to store 32-bit floating point numbers"
  const DatetimeDesc: string := "Type to store datetimes from 4713 BC to 5874897 AD with 1 millisecond resolution."
  const TypeDesc: string := "Metatype.\nThis is the type of all types including it self."
  const ObjectDesc: string := "placeholder type for storing arbitrary objects"
  const DictDesc: string := "placeholder type for storing arbitrary dictionaties"
  const DeleteDesc: string := "Type to mark an object as deleted."
  const RedirectDesc: string := "Type to specify redirects."
  const EveryoneDesc: string := "Group of all users including anonymous users."
  const AllUsersDesc: string := "Group of all registred users."
  const AdminDesc: string := "Group of admin users."

  /** `primitive_types()`. */
  function PrimitiveTypes(): seq<Doc> {
    [ Primitive("/type/key", "Key", KeyDesc),
      Primitive("/type/string", "String", StringDesc),
      Primitive("/type/text", "Text", TextDesc),
      Primitive("/type/int", "Integer", IntDesc),
      Primitive("/type/boolean", "Boolean", BooleanDesc),
      Primitive("/type/float", "Floating Point Number", FloatDesc),
      Primitive("/type/datetime", "Datetime", DatetimeDesc) ]
  }

  function Primitive(key: string, name: string, desc: string): (d: Doc)
    ensures d.TypeDoc? && d.key == key && d.kind == "primitive" && d.properties == [] && d.backreferences == []
  {
    TypeDoc(key, name, desc, "primitive", [], [])
  }

  /** `system_types()`. */
  function SystemTypes(): seq<Doc> {
    [ TypeDoc("/type/property", "Property", "", "embeddable",
        [Prop("name", "/type/string"), Prop("expected_type", "/type/type"), Prop("unique", "/type/boolean")], []),
      TypeDoc("/type/backreference", "Back-reference", "", "embeddable",
        [Prop("name", "/type/string"), Prop("expected_type", "/type/type"), Prop("property_name", "/type/string"),
         Prop("query", "/type/string")], []),
      RegularType("/type/type", "Type", TypeDesc,
        [Prop("name", "/type/string"), Prop("description", "/type/text"), Multi("properties", "/type/property"),
         Multi("backreference", "/type/backreference"),
         PropertyDoc("kind", "/type/string", true, "", ["primitive", "regular", "embeddable"])]),
      RegularType("/type/user", "User", "",
        [Prop("displayname", "/type/string"), Prop("website", "/type/string"), Prop("description", "/type/text")]),
      RegularType("/type/usergroup", "Usergroup", "", [Prop("description", "/type/text"), Multi("members", "/type/user")]),
      RegularType("/type/permission", "Permission", "",
        [Prop("description", "/type/text"), Multi("readers", "/type/usergroup"), Multi("writers", "/type/usergroup"),
         Multi("admins", "/type/usergroup")]),
      RegularType("/type/object", "Object", ObjectDesc, []),
      TypeDoc("/type/dict", "Dict", DictDesc, "embeddable", [], []),
      RegularType("/type/delete", "Deleted object", DeleteDesc, []),
      RegularType("/type/redirect", "Redirect", RedirectDesc, [Prop("location", "/type/string")]) ]
  }

  const Everyone: string := "/usergroup/everyone"
  const Admin: string := "/usergroup/admin"

  /** `system_objects()`. */
  function SystemObjects(): seq<Doc> {
    [ GroupDoc(Everyone, EveryoneDesc, []),
      GroupDoc("/usergroup/allusers", AllUsersDesc, []),
      GroupDoc(Admin, AdminDesc, []),
      PermissionDoc("/permission/open", [Everyone], [Everyone], [Admin]),
      PermissionDoc("/permission/restricted", [Everyone], [Admin], [Admin]),
      PermissionDoc("/permission/secret", [Admin], [Admin], [Admin]) ]
  }

  /** `make_query()`: primitive types, then system types, then system objects. */
  function MakeQuery(): (q: seq<Doc>)
    ensures |q| == 23
    ensures q[..7] == PrimitiveTypes() && q[7..17] == SystemTypes() && q[17..] == SystemObjects()
  {
    PrimitiveTypes() + SystemTypes() + SystemObjects()
  }

  /** Every primitive type is a type of kind "primitive" without properties. */
  lemma PrimitiveTypesShape()
    ensures |PrimitiveTypes()| == 7
    ensures forall i :: 0 <= i < 7 ==>
      (PrimitiveTypes()[i].TypeDoc? && PrimitiveTypes()[i].kind == "primitive" && PrimitiveTypes()[i].properties == [])
  {
  }

  /** Every document of the query is written as a dictionary whose "key" is the document's
      key, and every type as an instance of "/type/type". */
  lemma QueryShape(i: nat)
    requires i < |MakeQuery()|
    ensures AsQuery(MakeQuery())[i].Dict?
    ensures Get(AsQuery(MakeQuery())[i].entries, "key") == Some(Str(MakeQuery()[i].key))
  {
  }

  /** The permission objects: open lets everyone write, restricted only admins, and secret
      keeps reading, writing and administering to admins. */
  lemma Permissions()
    ensures SystemObjects()[3].writers == [Everyone] && SystemObjects()[3].readers == [Everyone]
    ensures SystemObjects()[4].writers == [Admin] && SystemObjects()[4].readers == [Everyone]
    ensures SystemObjects()[5].readers == [Admin] && SystemObjects()[5].writers == [Admin] && SystemObjects()[5].admins == [Admin]
    ensures forall i :: 3 <= i < 6 ==> SystemObjects()[i].PermissionDoc? && SystemObjects()[i].admins == [Admin]
  {
  }

  /** The keys the query creates. */
  function Created(q: seq<Doc>): (ks: set<string>)
    ensures forall i :: 0 <= i < |q| ==> q[i].key in ks
  {
    if q == [] then {} else {q[0].key} + Created(q[1..])
  }

  /** The permissions name only the everyone and admin groups, and the query creates both. */
  lemma PermissionGroupsCreated()
    ensures forall i :: 3 <= i < 6 ==>
      forall g :: g in SystemObjects()[i].readers + SystemObjects()[i].writers + SystemObjects()[i].admins ==> g == Everyone || g == Admin
    ensures Everyone in Created(MakeQuery()) && Admin in Created(MakeQuery())
  {
    var q := MakeQuery();
    assert q[17] == SystemObjects()[0] && q[19] == SystemObjects()[2];
  }

  /** What `bootstrap(site, admin_password)` asks of the site, in order. */
  datatype Action =
    | SaveMany(query: seq<Doc>)
    | Register(username: string, email: string, password: string, displayname: string)
    | MarkVerified(username: string)

  /** The account bot's username: the last segment of its key. */
  function BotUsername(bot: string): (u: string)
    ensures '/' !in u
  {
    var parts := Split(bot, '/');
    parts[|parts| - 1]
  }

  /** The bot's key is a path ending in its username. */
  lemma BotUsernameOfKey(root: string, name: string)
    requires '/' !in name
    ensures BotUsername(root + "/" + name) == name
  {
    var parts := Split(root, '/') + [name];
    SplitJoin(root, '/');
    JoinSnoc(Split(root, '/'), name, "/");
    assert Join(parts, "/") == root + "/" + name;
    JoinSplit(parts, '/');
  }

  /** `bootstrap(site, admin_password)`: save the query, register and verify the admin
      (and the account bot, when one is configured), then make the admin a member of the
      admin group. The bot's random password is a parameter. */
  function BootstrapActions(adminPassword: string, accountBot: Option<string>, botPassword: string, userRoot: string): (r: seq<Action>)
    ensures |r| == if accountBot.Some? && accountBot.value != "" then 6 else 4
    ensures r[0] == SaveMany(MakeQuery())
    ensures r[1] == Register("admin", "admin@example.com", adminPassword, "Administrator") && r[2] == MarkVerified("admin")
    ensures r[|r| - 1] == SaveMany([GroupDoc(Admin, AdminDesc, [userRoot + "admin"])])
  {
    var bot :=
      if accountBot.Some? && accountBot.value != "" then
        var u := BotUsername(accountBot.value);
        [Register(u, "userbot@example.com", botPassword, u), MarkVerified(u)]
      else [];
    [SaveMany(MakeQuery()), Register("admin", "admin@example.com", adminPassword, "Administrator"), MarkVerified("admin")]
      + bot + [SaveMany([GroupDoc(Admin, AdminDesc, [userRoot + "admin"])])]
  }
  /** A call `bootstrap` makes: the action, and the arguments passed by position and by
      keyword. */
  datatype Call = Call(action: Action, positional: set<string>, keywords: set<string>)

  /** The parameters of what an action calls: `save_many(query)`, `register(username, email,
      password, data)` and, for a verification, the store's `update_user_details(key, email,
      enc_password)`, to which `AccountManager.update_user_details` hands its keywords. */
  function Params(a: Action): set<string> {
    match a
    case SaveMany(_) => {"query"}
    case Register(_, _, _, _) => Account.RegisterParams
    case MarkVerified(_) => Account.StoreUpdateParams
  }

  /** An action with the arguments `bootstrap` passes: every registration adds `_activate=True`
      and every verification passes `verified=True`. */
  function CallAsWritten(a: Action): Call {
    match a
    case SaveMany(_) => Call(a, {"query"}, {})
    case Register(_, _, _, _) => Call(a, {}, {"username", "email", "password", "data", "_activate"})
    case MarkVerified(_) => Call(a, {"key"}, {"verified"})
  }

  /** The calls of `bootstrap` as written, one per intended action. */
  function BootstrapCalls(adminPassword: string, accountBot: Option<string>, botPassword: string, userRoot: string): (r: seq<Call>)
    ensures var acts := BootstrapActions(adminPassword, accountBot, botPassword, userRoot);
      |r| == |acts| && forall i :: 0 <= i < |r| ==> r[i] == CallAsWritten(acts[i])
  {
    var acts := BootstrapActions(adminPassword, accountBot, botPassword, userRoot);
    seq(|acts|, i requires 0 <= i < |acts| => CallAsWritten(acts[i]))
  }

  /** What running calls in order does: the actions performed, and whether a call stopped the
      run with Python's TypeError. */
  datatype Outcome = Outcome(done: seq<Action>, typeError: bool)

  /** Calls run in order; one whose arguments do not bind to its parameters raises TypeError
      and nothing after it runs. */
  function Run(calls: seq<Call>): (r: Outcome)
    ensures |r.done| <= |calls|
    ensures forall i :: 0 <= i < |r.done| ==> r.done[i] == calls[i].action
    ensures !r.typeError ==> |r.done| == |calls|
  {
    if calls == [] then Outcome([], false)
    else if !Account.Binds(Params(calls[0].action), calls[0].positional, calls[0].keywords) then Outcome([], true)
    else
      var rest := Run(calls[1..]);
      Outcome([calls[0].action] + rest.done, rest.typeError)
  }

  /** As written, `bootstrap` saves the query and then stops with TypeError at the admin's
      registration: `register` takes no `_activate`. Nobody is registered or verified and the
      admin group gets no member. */
  lemma BootstrapAsWrittenFails(adminPassword: string, accountBot: Option<string>, botPassword: string, userRoot: string)
    ensures Run(BootstrapCalls(adminPassword, accountBot, botPassword, userRoot)) == Outcome([SaveMany(MakeQuery())], true)
  {
    var calls := BootstrapCalls(adminPassword, accountBot, botPassword, userRoot);
    assert "_activate" !in Account.RegisterParams;
    assert !Account.Binds(Params(calls[1].action), calls[1].positional, calls[1].keywords);
    assert calls[1..][0] == calls[1];
    assert Account.Binds(Params(calls[0].action), calls[0].positional, calls[0].keywords);
  }

  /** Even without `_activate`, the verification would fail: the store's
      `update_user_details` takes no `verified`. */
  lemma VerifyAsWrittenFails(username: string)
    ensures !Account.Binds(Params(MarkVerified(username)), CallAsWritten(MarkVerified(username)).positional,
                           CallAsWritten(MarkVerified(username)).keywords)
  {
    assert "verified" !in Account.StoreUpdateParams;
  }
}
