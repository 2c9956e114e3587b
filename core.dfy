/** Core data structures of Infobase (infogami/infobase/core.py): the exception hierarchy with
    its HTTP statuses and error codes, and `Thing`, an object with a key and a data dictionary
    whose references are resolved through the store when read. */
module InfobaseCore {
  import opened Wrappers
  import opened Json

  /** The exception classes. */
  datatype Kind = Base | NotFound | UserNotFound | PermissionDenied | BadData | Conflict | TypeMismatch

  /** A raised exception: its status line and the keyword dictionary `d` it serialises. */
  datatype InfobaseException = InfobaseException(kind: Kind, status: string, d: map<string, string>)

  /** The class attribute `status` of each exception class. */
  function ClassStatus(kind: Kind): (s: string)
    ensures kind == Base ==> s == "500 Internal Server Error"
    ensures kind in {NotFound, UserNotFound} ==> s == "404 Not Found"
    ensures kind == PermissionDenied ==> s == "403 Forbidden"
    ensures kind in {BadData, TypeMismatch} ==> s == "400 Bad Request"
    ensures kind == Conflict ==> s == "409 Conflict"
  {
    match kind
    case Base => "500 Internal Server Error"
    case NotFound => "404 Not Found"
    case UserNotFound => "404 Not Found"
    case PermissionDenied => "403 Forbidden"
    case BadData => "400 Bad Request"
    case TypeMismatch => "400 Bad Request"
    case Conflict => "409 Conflict"
  }

  /** `InfobaseException.__init__(**kw)` as called for a class: a `status` keyword overrides
      the class status and is not kept; `error` defaults to 'unknown'. */
  function Init(kind: Kind, kw: map<string, string>): (e: InfobaseException)
    ensures e.kind == kind
    ensures e.status == if "status" in kw then kw["status"] else ClassStatus(kind)
    ensures "status" !in e.d && "error" in e.d
    ensures e.d["error"] == if "error" in kw then kw["error"] else "unknown"
    ensures forall k :: k in kw && k != "status" ==> k in e.d && e.d[k] == kw[k]
    ensures forall k :: k in e.d ==> k == "error" || k in kw
  {
    var status := if "status" in kw then kw["status"] else ClassStatus(kind);
    var d := kw - {"status"};
    InfobaseException(kind, status, if "error" in d then d else d["error" := "unknown"])
  }

  /** Each subclass's constructor. A subclass that passes `error=` itself fails with Python's
      TypeError when the caller passes `error` too; `NotFound` pops the caller's `error` first,
      so there the caller's code wins over 'notfound'. */
  function Raise(kind: Kind, kw: map<string, string>): (r: Result<InfobaseException, string>)
    ensures kind in {UserNotFound, PermissionDenied, BadData, Conflict} && "error" in kw ==> r == Err("TypeError")
    ensures r.Ok? ==> r.value.kind == kind && r.value.status == if "status" in kw then kw["status"] else ClassStatus(kind)
    ensures r.Ok? && kind == NotFound ==> "error" in r.value.d && r.value.d["error"] == if "error" in kw then kw["error"] else "notfound"
    ensures r.Ok? && kind == UserNotFound ==> "error" in r.value.d && r.value.d["error"] == "user_notfound"
    ensures r.Ok? && kind == PermissionDenied ==> "error" in r.value.d && r.value.d["error"] == "permission_denied"
    ensures r.Ok? && kind == BadData ==> "error" in r.value.d && r.value.d["error"] == "bad_data"
    ensures r.Ok? && kind == Conflict ==> "error" in r.value.d && r.value.d["error"] == "conflict"
    ensures r.Ok? && kind == Base ==> "error" in r.value.d && r.value.d["error"] == if "error" in kw then kw["error"] else "unknown"
  {
    match kind
    case Base => Ok(Init(Base, kw))
    case NotFound => Ok(Init(NotFound, kw["error" := if "error" in kw then kw["error"] else "notfound"]))
    case TypeMismatch => Err("TypeError")
    case _ =>
      if "error" in kw then Err("TypeError")
      else
        var code := match kind
          case UserNotFound => "user_notfound"
          case PermissionDenied => "permission_denied"
          case BadData => "bad_data"
          case _ => "conflict";
        Ok(Init(kind, kw["error" := code]))
  }

  /** `TypeMismatch(expected, found, **kw)`: a BadData whose message names both types. A caller's
      own `message` (or `error`) clashes with the one passed on and is Python's TypeError. */
  function RaiseTypeMismatch(expected: string, found: string, kw: map<string, string>): (r: Result<InfobaseException, string>)
    ensures "message" in kw || "error" in kw ==> r == Err("TypeError")
    ensures r.Ok? ==>
      && "message" in r.value.d && "error" in r.value.d
      && r.value.d["message"] == "expected " + expected + ", found " + found
      && r.value.d["error"] == "bad_data"
      && r.value.status == if "status" in kw then kw["status"] else "400 Bad Request"
  {
    if "message" in kw || "error" in kw then Err("TypeError")
    else Ok(Init(TypeMismatch, kw["message" := "expected " + expected + ", found " + found]["error" := "bad_data"]))
  }

  /** A store as the documents it holds: `get(key)` decoded, or nothing. */
  type Store = string -> Option<seq<(string, Value)>>

  /** What reading a value out of a Thing gives: references resolved to things. */
  datatype Read =
    | Atom(v: Value)
    | Things(key: string, data: Option<seq<(string, Value)>>)
    | Items(items: seq<Read>)
    | Fields(fields: seq<(string, Read)>)

  /** `Thing._process`: lists and dicts element by element, a Reference becomes the thing it
      names (with whatever the store holds for it), any other value is returned as is. */
  function Process(store: Store, v: Value): (r: Read)
    ensures v.Ref? ==> r == Things(v.key, store(v.key))
    ensures v.List? ==> r.Items? && |r.items| == |v.items|
    ensures v.Dict? ==> r.Fields? && |r.fields| == |v.entries|
    ensures !v.Ref? && !v.List? && !v.Dict? ==> r == Atom(v)
  {
    match v
    case Ref(k) => Things(k, store(k))
    case List(items) => Items(seq(|items|, i requires 0 <= i < |items| => Process(store, items[i])))
    case Dict(entries) =>
      Fields(seq(|entries|, i requires 0 <= i < |entries| => (entries[i].0, Process(store, entries[i].1))))
    case _ => Atom(v)
  }

  /** A value that mentions no reference. */
  predicate RefFree(v: Value) {
    match v
    case Ref(_) => false
    case List(items) => forall i :: 0 <= i < |items| ==> RefFree(items[i])
    case Dict(entries) => forall i :: 0 <= i < |entries| ==> RefFree(entries[i].1)
    case _ => true
  }

  /** The value a reference-free read gives back. */
  function Unread(r: Read): Value {
    match r
    case Atom(v) => v
    case Things(k, _) => Ref(k)
    case Items(items) => List(seq(|items|, i requires 0 <= i < |items| => Unread(items[i])))
    case Fields(fields) => Dict(seq(|fields|, i requires 0 <= i < |fields| => (fields[i].0, Unread(fields[i].1))))
  }

  /** Reading loses nothing: every processed value names the references it came from. */
  lemma {:induction false} ProcessUnread(store: Store, v: Value)
    ensures Unread(Process(store, v)) == v
  {
    match v
    case List(items) =>
      forall i | 0 <= i < |items| ensures Unread(Process(store, items[i])) == items[i] {
        ProcessUnread(store, items[i]);
      }
    case Dict(entries) =>
      forall i | 0 <= i < |entries| ensures Unread(Process(store, entries[i].1)) == entries[i].1 {
        ProcessUnread(store, entries[i].1);
      }
    case _ =>
  }

  /** A value without references does not depend on the store. */
  lemma {:induction false} ProcessRefFree(s1: Store, s2: Store, v: Value)
    requires RefFree(v)
    ensures Process(s1, v) == Process(s2, v)
  {
    match v
    case List(items) =>
      forall i | 0 <= i < |items| ensures Process(s1, items[i]) == Process(s2, items[i]) {
        ProcessRefFree(s1, s2, items[i]);
      }
    case Dict(entries) =>
      forall i | 0 <= i < |entries| ensures Process(s1, entries[i].1) == Process(s2, entries[i].1) {
        ProcessRefFree(s1, s2, entries[i].1);
      }
    case _ =>
  }

  class Thing {
    const store: Store
    const key: string
    var data: seq<(string, Value)>

    constructor (store: Store, key: string, data: seq<(string, Value)>)
      ensures this.store == store && this.key == key && this.data == data
    {
      this.store := store;
      this.key := key;
      this.data := data;
    }

    /** `key in thing`: looks at the raw data only. */
    function Contains(name: string): (b: bool)
      reads this
      ensures b <==> name in Keys(data)
    {
      HasKey(data, name)
    }

    /** `thing[name]`: the processed value, KeyError when absent. */
    function GetItem(name: string): (r: Result<Read, string>)
      reads this
      ensures r.Err? <==> !Contains(name)
      ensures r.Ok? ==> Get(data, name).Some? && r.value == Process(store, Get(data, name).value)
    {
      match Get(data, name)
      case None => Err("KeyError")
      case Some(v) => Ok(Process(store, v))
    }

    /** `thing.get(name, default)`: the default instead of the KeyError. */
    function GetOr(name: string, default: Read): (r: Read)
      reads this
      ensures !Contains(name) ==> r == default
      ensures Contains(name) ==> r == Process(store, Get(data, name).value)
    {
      match GetItem(name)
      case Ok(v) => v
      case Err(_) => default
    }

    /** `thing[name] = value`: writes the raw data. */
    method SetItem(name: string, value: Value)
      modifies this
      ensures data == Put(old(data), name, value)
      ensures Get(data, name) == Some(value)
      ensures forall n :: n != name ==> Get(data, n) == Get(old(data), n)
    {
      data := Put(data, name, value);
      forall n ensures Get(data, n) == if n == name then Some(value) else Get(old(data), n) {
        GetPut(old(data), name, value, n);
      }
    }

    /** `__eq__`: the same key and the same data. */
    predicate Equals(other: Thing)
      reads this, other
    {
      other.key == key && other.data == data
    }

    /** `copy()`: a new thing over a copy of the data, equal to this one and independent of it. */
    method Copy() returns (t: Thing)
      ensures fresh(t) && t.Equals(this) && t.store == store
    {
      t := new Thing(store, key, data);
    }

    /** `_get_data()`: a deep copy; values are immutable here, so the copy is the data itself. */
    function GetData(): (d: seq<(string, Value)>)
      reads this
      ensures forall n :: Get(d, n) == Get(data, n)
    {
      data
    }

    /** `get_property(name)`: the first entry of `properties` whose `name` is `name`. */
    function GetProperty(name: string): (r: Option<seq<(string, Value)>>)
      reads this
      ensures r.Some? ==> Get(r.value, "name") == Some(Str(name))
      ensures r.None? ==> forall p :: p in PropertyList() ==> Get(p, "name") != Some(Str(name))
    {
      FirstNamed(PropertyList(), name)
    }

    /** The property dictionaries of a type object (`get('properties', [])`). */
    function PropertyList(): seq<seq<(string, Value)>>
      reads this
    {
      var p := Get(data, "properties");
      if p.Some? && p.value.List? then DictsOf(p.value.items) else []
    }
  }

  /** The dictionaries among `items`. */
  function DictsOf(items: seq<Value>): (r: seq<seq<(string, Value)>>)
    ensures |r| <= |items|
  {
    if items == [] then []
    else if items[0].Dict? then [items[0].entries] + DictsOf(items[1..])
    else DictsOf(items[1..])
  }

  /** The first of `ps` named `name`. */
  function FirstNamed(ps: seq<seq<(string, Value)>>, name: string): (r: Option<seq<(string, Value)>>)
    ensures r.Some? ==> r.value in ps && Get(r.value, "name") == Some(Str(name))
    ensures r.None? ==> forall p :: p in ps ==> Get(p, "name") != Some(Str(name))
  {
    if ps == [] then None
    else if Get(ps[0], "name") == Some(Str(name)) then Some(ps[0])
    else FirstNamed(ps[1..], name)
  }

  /** The first match wins: an earlier property with the name shadows later ones. */
  lemma {:induction false} FirstNamedIsFirst(ps: seq<seq<(string, Value)>>, name: string, i: nat)
    requires i < |ps| && Get(ps[i], "name") == Some(Str(name))
    requires forall j :: 0 <= j < i ==> Get(ps[j], "name") != Some(Str(name))
    ensures FirstNamed(ps, name) == Some(ps[i])
  {
    if i > 0 {
      FirstNamedIsFirst(ps[1..], name, i - 1);
    }
  }
}
