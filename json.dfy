/** The JSON-like values Infobase passes around (decoded query documents, stored data) and
    Python dictionaries as lists of entries in insertion order. `Ref` is `core.Reference`,
    the string subclass that marks a link to another object; `Text` is `core.Text`. */
module Json {
  import opened Wrappers

  datatype Value =
    | Null
    | Bool(b: bool)
    | Int(i: int)
    | Float(f: real)
    | Str(s: string)
    | Text(t: string)
    | Ref(key: string)
    | List(items: seq<Value>)
    | Dict(entries: seq<(string, Value)>)

  /** Python truthiness: None, False, 0, 0.0, the empty string and empty containers are falsy. */
  predicate Truthy(v: Value) {
    match v
    case Null => false
    case Bool(b) => b
    case Int(i) => i != 0
    case Float(f) => f != 0.0
    case Str(s) => s != []
    case Text(t) => t != []
    case Ref(k) => k != []
    case List(items) => items != []
    case Dict(entries) => entries != []
  }

  /** Python 2's `sys.maxint` on a 64-bit build. A JSON integer outside -MaxInt - 1 .. MaxInt
      is decoded as a `long`, which `isinstance(v, int)` does not accept. */
  const MaxInt: int := 0x7FFF_FFFF_FFFF_FFFF

  /** An integer Python 2 holds as an `int` rather than a `long`. */
  predicate IsShortInt(i: int) {
    -MaxInt - 1 <= i <= MaxInt
  }

  /** The text of a string-like value (`str`, `Text` and `Reference` are all unicode). */
  predicate IsText(v: Value) {
    v.Str? || v.Text? || v.Ref?
  }

  function TextOf(v: Value): string
    requires IsText(v)
  {
    match v
    case Str(s) => s
    case Text(t) => t
    case Ref(k) => k
  }

  /** The keys of a dictionary, in order. */
  function Keys<V>(d: seq<(string, V)>): (ks: seq<string>)
    ensures |ks| == |d| && forall i :: 0 <= i < |d| ==> ks[i] == d[i].0
  {
    if d == [] then [] else [d[0].0] + Keys(d[1..])
  }

  predicate HasKey<V>(d: seq<(string, V)>, k: string) {
    k in Keys(d)
  }

  /** No key appears twice, as in a Python dict. */
  predicate UniqueKeys<V>(d: seq<(string, V)>) {
    forall i, j :: 0 <= i < j < |d| ==> d[i].0 != d[j].0
  }

  /** `d.get(k)`: the value of the first entry with key `k`. */
  function Get<V>(d: seq<(string, V)>, k: string): (r: Option<V>)
    ensures r.None? <==> !HasKey(d, k)
  {
    if d == [] then None
    else if d[0].0 == k then Some(d[0].1)
    else
      assert Keys(d) == [d[0].0] + Keys(d[1..]);
      Get(d[1..], k)
  }

  /** `d[k] = v`: an existing entry keeps its place, a new one goes at the end. */
  function Put<V>(d: seq<(string, V)>, k: string, v: V): (r: seq<(string, V)>)
    ensures HasKey(d, k) ==> |r| == |d|
    ensures !HasKey(d, k) ==> r == d + [(k, v)]
  {
    if d == [] then [(k, v)]
    else if d[0].0 == k then [(k, v)] + d[1..]
    else
      assert Keys(d) == [d[0].0] + Keys(d[1..]);
      [d[0]] + Put(d[1..], k, v)
  }

  /** `d.pop(k, None)`: every entry with key `k` is dropped, the others keep their order. */
  function Remove<V>(d: seq<(string, V)>, k: string): (r: seq<(string, V)>)
    ensures |r| <= |d|
    ensures !HasKey(r, k)
    ensures forall e :: e in r ==> e in d
  {
    if d == [] then []
    else if d[0].0 == k then Remove(d[1..], k)
    else
      var r := [d[0]] + Remove(d[1..], k);
      assert Keys(r) == [d[0].0] + Keys(Remove(d[1..], k));
      r
  }

  /** Reading back what was just written. */
  lemma {:induction false} GetPut<V>(d: seq<(string, V)>, k: string, v: V, j: string)
    ensures Get(Put(d, k, v), j) == if j == k then Some(v) else Get(d, j)
  {
    if d != [] && d[0].0 != k {
      GetPut(d[1..], k, v, j);
      assert Put(d, k, v)[1..] == Put(d[1..], k, v);
    } else if d != [] {
      assert ([(k, v)] + d[1..])[1..] == d[1..];
    }
  }

  /** `d.get(k)` is the value of the first entry with key `k`. */
  lemma {:induction false} GetAt<V>(d: seq<(string, V)>, i: nat, k: string)
    requires i < |d| && d[i].0 == k
    requires forall j :: 0 <= j < i ==> d[j].0 != k
    ensures Get(d, k) == Some(d[i].1)
  {
    if i > 0 {
      GetAt(d[1..], i - 1, k);
    }
  }

  /** After a removal, the removed key is missing and every other key reads as before. */
  lemma {:induction false} GetRemove<V>(d: seq<(string, V)>, k: string, j: string)
    ensures Get(Remove(d, k), j) == if j == k then None else Get(d, j)
  {
    if d != [] {
      GetRemove(d[1..], k, j);
      if d[0].0 != k {
        assert ([d[0]] + Remove(d[1..], k))[1..] == Remove(d[1..], k);
      }
    }
  }

  /** Writing keeps keys unique. */
  lemma {:induction false} PutUnique<V>(d: seq<(string, V)>, k: string, v: V)
    requires UniqueKeys(d)
    ensures UniqueKeys(Put(d, k, v))
    ensures Keys(Put(d, k, v)) == if HasKey(d, k) then Keys(d) else Keys(d) + [k]
  {
    if d != [] && d[0].0 != k {
      PutUnique(d[1..], k, v);
      var r := Put(d, k, v);
      assert r == [d[0]] + Put(d[1..], k, v);
      assert Keys(d) == [d[0].0] + Keys(d[1..]);
      assert Keys(r) == [d[0].0] + Keys(Put(d[1..], k, v));
      assert d[0].0 !in Keys(d[1..]);
    } else if d != [] {
      var r := Put(d, k, v);
      assert Keys(r) == Keys(d);
      forall i, j | 0 <= i < j < |r| ensures r[i].0 != r[j].0 {
        assert Keys(r)[i] == Keys(d)[i] && Keys(r)[j] == Keys(d)[j];
      }
    } else {
      assert Keys(Put(d, k, v)) == [k];
    }
  }

  /** A dictionary as a map. */
  function ToMap<V>(d: seq<(string, V)>): (m: map<string, V>)
    ensures m.Keys == set i | 0 <= i < |d| :: d[i].0
  {
    if d == [] then map[]
    else
      var m := ToMap(d[1..])[d[0].0 := d[0].1];
      assert forall k :: k in m.Keys <==> k == d[0].0 || k in ToMap(d[1..]).Keys;
      m
  }

  /** The map of a dictionary agrees with lookups in it. */
  lemma {:induction false} ToMapGet<V>(d: seq<(string, V)>, k: string)
    requires UniqueKeys(d)
    ensures Get(d, k) == if k in ToMap(d) then Some(ToMap(d)[k]) else None
  {
    if d != [] {
      ToMapGet(d[1..], k);
    }
  }
}
