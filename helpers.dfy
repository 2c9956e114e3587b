/** Generic helpers of the wiki layer (`infogami/core/helpers.py`): flattening a nested document
    into one level of compound keys, rebuilding the nesting from such keys, trimming empty parts
    and taking a sub-dictionary. Documents are `Json.Value`s; dictionaries keep insertion order. */
module Helpers {
  import opened Wrappers
  import opened Strings
  import opened Json

  // ---------------------------------------------------------------- paths and compound keys

  /** One step into a document: a dictionary key or a list index. */
  datatype Step = Field(name: string) | Index(i: nat)

  /** The text of a step: the key itself, or `str(i)`. */
  function Name(s: Step): string {
    match s
    case Field(k) => k
    case Index(i) => NatToString(i)
  }

  /** The separator written before a step: '.' before a dictionary key, '#' before a list index. */
  function Delim(s: Step): string {
    if s.Field? then "." else "#"
  }

  /** The compound key of a path, as `flatten` writes it: "c.x", "b#0", "a#1#2.b". */
  function Render(p: seq<Step>): string
    requires p != []
  {
    if |p| == 1 then Name(p[0]) else Name(p[0]) + Delim(p[1]) + Render(p[1..])
  }

  /** Extending a path appends its separator and name to the key. */
  lemma {:induction false} RenderSnoc(p: seq<Step>, s: Step)
    requires p != []
    ensures Render(p + [s]) == Render(p) + Delim(s) + Name(s)
  {
    if |p| == 1 {
      RenderPair(p[0], s);
      assert p + [s] == [p[0], s];
    } else {
      RenderSnoc(p[1..], s);
      RenderSnocStep(p, s);
    }
  }

  lemma RenderPair(a: Step, s: Step)
    ensures Render([a, s]) == Render([a]) + Delim(s) + Name(s)
  {
    assert [a, s][1..] == [s];
  }

  lemma RenderCons(p: seq<Step>)
    requires |p| > 1
    ensures Render(p) == (Name(p[0]) + Delim(p[1])) + Render(p[1..])
  {
  }

  /** The string identity behind `RenderSnoc`, over plain strings. */
  lemma SnocShape(a: string, x: string, d: string, n: string, y: string, rq: string, rp: string)
    requires y == x + d + n && rq == a + y && rp == a + x
    ensures rq == rp + d + n
  {
    assert a + (x + d + n) == (a + x) + d + n;
  }

  lemma RenderSnocStep(p: seq<Step>, s: Step)
    requires |p| > 1
    requires Render(p[1..] + [s]) == Render(p[1..]) + Delim(s) + Name(s)
    ensures Render(p + [s]) == Render(p) + Delim(s) + Name(s)
  {
    var q := p + [s];
    assert |q| > 1 && q[0] == p[0] && q[1] == p[1] && q[1..] == p[1..] + [s];
    RenderCons(q);
    RenderCons(p);
    SnocShape(Name(p[0]) + Delim(p[1]), Render(p[1..]), Delim(s), Name(s), Render(q[1..]), Render(q), Render(p));
  }

  predicate IsContainer(v: Value) {
    v.Dict? || v.List?
  }

  /** The leaves of a value with their paths relative to it, in iteration order: a scalar is its
      own single leaf; an empty dictionary or list has none. */
  function Leaves(v: Value): (r: seq<(seq<Step>, Value)>)
    ensures v.Dict? ==> forall i :: 0 <= i < |r| ==> r[i].0 != [] && r[i].0[0].Field?
    ensures v.List? ==> forall i :: 0 <= i < |r| ==> r[i].0 != [] && r[i].0[0].Index?
    ensures forall i :: 0 <= i < |r| ==> !IsContainer(r[i].1)
    decreases v, 1
  {
    match v
    case Dict(es) => EntryLeaves(es)
    case List(items) => ItemLeaves(items, 0)
    case _ => [([], v)]
  }

  /** The leaves below the entries of a dictionary; each path starts with the key it came from. */
  function EntryLeaves(es: seq<(string, Value)>): (r: seq<(seq<Step>, Value)>)
    ensures forall i :: 0 <= i < |r| ==> r[i].0 != [] && r[i].0[0].Field? && r[i].0[0].name in Keys(es)
    ensures forall i :: 0 <= i < |r| ==> !IsContainer(r[i].1)
    decreases es, 0
  {
    if es == [] then []
    else
      assert es[0] in es && es[0].1 < es[0];
      assert Keys(es) == [es[0].0] + Keys(es[1..]);
      Below([Field(es[0].0)], Leaves(es[0].1)) + EntryLeaves(es[1..])
  }

  /** The leaves below the items of a list whose first item has index `from`. */
  function ItemLeaves(items: seq<Value>, from: nat): (r: seq<(seq<Step>, Value)>)
    ensures forall i :: 0 <= i < |r| ==> r[i].0 != [] && r[i].0[0].Index? && r[i].0[0].i >= from
    ensures forall i :: 0 <= i < |r| ==> !IsContainer(r[i].1)
    decreases items, 0
  {
    if items == [] then []
    else
      assert items[0] in items;
      Below([Index(from)], Leaves(items[0])) + ItemLeaves(items[1..], from + 1)
  }

  /** Leaves moved below the path `p`. */
  function Below(p: seq<Step>, leaves: seq<(seq<Step>, Value)>): (r: seq<(seq<Step>, Value)>)
    ensures |r| == |leaves|
    ensures forall i :: 0 <= i < |r| ==> r[i] == (p + leaves[i].0, leaves[i].1)
  {
    seq(|leaves|, i requires 0 <= i < |leaves| => (p + leaves[i].0, leaves[i].1))
  }

  predicate NonEmptyPaths(leaves: seq<(seq<Step>, Value)>) {
    forall i :: 0 <= i < |leaves| ==> leaves[i].0 != []
  }

  /** The (compound key, value) pairs `visit` receives. */
  function Keyed(leaves: seq<(seq<Step>, Value)>): (r: seq<(string, Value)>)
    requires NonEmptyPaths(leaves)
    ensures |r| == |leaves|
    ensures forall i :: 0 <= i < |r| ==> r[i] == (Render(leaves[i].0), leaves[i].1)
  {
    seq(|leaves|, i requires 0 <= i < |leaves| => (Render(leaves[i].0), leaves[i].1))
  }

  /** `d2[k] = v` for each pair in turn. */
  function PutAll(d: seq<(string, Value)>, kvs: seq<(string, Value)>): seq<(string, Value)>
    decreases |kvs|
  {
    if kvs == [] then d else PutAll(Put(d, kvs[0].0, kvs[0].1), kvs[1..])
  }

  lemma {:induction false} PutAllAppend(d: seq<(string, Value)>, a: seq<(string, Value)>, b: seq<(string, Value)>)
    ensures PutAll(d, a + b) == PutAll(PutAll(d, a), b)
    decreases |a|
  {
    if a == [] {
      assert a + b == b;
    } else {
      assert (a + b)[1..] == a[1..] + b;
      PutAllAppend(Put(d, a[0].0, a[0].1), a[1..], b);
    }
  }

  /** With keys that never repeat, `d2[k] = v` only appends. */
  lemma {:induction false} PutAllFresh(d: seq<(string, Value)>, kvs: seq<(string, Value)>)
    requires UniqueKeys(d + kvs)
    ensures PutAll(d, kvs) == d + kvs
    decreases |kvs|
  {
    if kvs != [] {
      var k := kvs[0].0;
      forall j | 0 <= j < |d| ensures Keys(d)[j] != k {
        assert (d + kvs)[j].0 == d[j].0 && (d + kvs)[|d|].0 == k;
      }
      var d1 := Put(d, k, kvs[0].1);
      assert d1 == d + [kvs[0]];
      assert d1 + kvs[1..] == d + kvs;
      PutAllFresh(d1, kvs[1..]);
    }
  }

  // ---------------------------------------------------------------- flatten

  /** `flatten(d)`: every leaf of `d` under its compound key, a later equal key overwriting. */
  function Flat(d: seq<(string, Value)>): (r: seq<(string, Value)>)
    ensures UniqueKeys(r)
  {
    var kvs := Keyed(EntryLeaves(d));
    PutAllUnique([], kvs);
    PutAll([], kvs)
  }

  /** `d2[k] = v` keeps a dictionary a dictionary: no key twice. */
  lemma {:induction false} PutAllUnique(d: seq<(string, Value)>, kvs: seq<(string, Value)>)
    requires UniqueKeys(d)
    ensures UniqueKeys(PutAll(d, kvs))
    decreases |kvs|
  {
    if kvs != [] {
      PutUnique(d, kvs[0].0, kvs[0].1);
      PutAllUnique(Put(d, kvs[0].0, kvs[0].1), kvs[1..]);
    }
  }

  lemma {:induction false} BelowAppend(p: seq<Step>, a: seq<(seq<Step>, Value)>, b: seq<(seq<Step>, Value)>)
    ensures Below(p, a + b) == Below(p, a) + Below(p, b)
  {
    assert forall i :: 0 <= i < |a + b| ==> Below(p, a + b)[i] == (Below(p, a) + Below(p, b))[i];
  }

  lemma {:induction false} BelowBelow(p: seq<Step>, q: seq<Step>, l: seq<(seq<Step>, Value)>)
    ensures Below(p, Below(q, l)) == Below(p + q, l)
  {
    forall i | 0 <= i < |l| ensures Below(p, Below(q, l))[i] == Below(p + q, l)[i] {
      assert p + (q + l[i].0) == (p + q) + l[i].0;
    }
  }

  lemma BelowNothing(l: seq<(seq<Step>, Value)>)
    ensures Below([], l) == l
  {
    forall i | 0 <= i < |l| ensures Below([], l)[i] == l[i] {
      assert [] + l[i].0 == l[i].0;
    }
  }

  lemma {:induction false} KeyedAppend(a: seq<(seq<Step>, Value)>, b: seq<(seq<Step>, Value)>)
    requires NonEmptyPaths(a) && NonEmptyPaths(b)
    ensures NonEmptyPaths(a + b) && Keyed(a + b) == Keyed(a) + Keyed(b)
  {
    assert forall i :: 0 <= i < |a + b| ==> Keyed(a + b)[i] == (Keyed(a) + Keyed(b))[i];
  }

  lemma {:induction false} EntryLeavesSnoc(es: seq<(string, Value)>, e: (string, Value))
    ensures EntryLeaves(es + [e]) == EntryLeaves(es) + Below([Field(e.0)], Leaves(e.1))
  {
    var es2 := es + [e];
    if es == [] {
      assert es2 == [e] && es2[1..] == [];
      assert EntryLeaves(es2) == Below([Field(e.0)], Leaves(e.1)) + EntryLeaves([]);
    } else {
      assert es2[0] == es[0] && es2[1..] == es[1..] + [e];
      EntryLeavesSnoc(es[1..], e);
      assert EntryLeaves(es2) == Below([Field(es[0].0)], Leaves(es[0].1)) + EntryLeaves(es[1..] + [e]);
    }
  }

  lemma {:induction false} ItemLeavesSnoc(items: seq<Value>, v: Value, from: nat)
    ensures ItemLeaves(items + [v], from) == ItemLeaves(items, from) + Below([Index(from + |items|)], Leaves(v))
  {
    var items2 := items + [v];
    if items == [] {
      assert items2 == [v] && items2[1..] == [];
      assert ItemLeaves(items2, from) == Below([Index(from)], Leaves(v)) + ItemLeaves([], from + 1);
    } else {
      assert items2[0] == items[0] && items2[1..] == items[1..] + [v];
      ItemLeavesSnoc(items[1..], v, from + 1);
      assert ItemLeaves(items2, from) == Below([Index(from)], Leaves(items[0])) + ItemLeaves(items[1..] + [v], from + 1);
    }
  }

  /** The keys of the next child's leaves follow those of the children already walked. */
  lemma {:induction false} WalkStep(d2: seq<(string, Value)>, path: seq<Step>, done: seq<(seq<Step>, Value)>, s: Step, v: Value)
    requires NonEmptyPaths(Below(path, done))
    ensures NonEmptyPaths(Below(path, done + Below([s], Leaves(v))))
    ensures PutAll(d2, Keyed(Below(path, done + Below([s], Leaves(v)))))
         == PutAll(PutAll(d2, Keyed(Below(path, done))), Keyed(Below(path + [s], Leaves(v))))
  {
    BelowAppend(path, done, Below([s], Leaves(v)));
    BelowBelow(path, [s], Leaves(v));
    KeyedAppend(Below(path, done), Below(path + [s], Leaves(v)));
    PutAllAppend(d2, Keyed(Below(path, done)), Keyed(Below(path + [s], Leaves(v))));
  }

  /** One more entry walked. */
  lemma EntriesStep(d2: seq<(string, Value)>, path: seq<Step>, es: seq<(string, Value)>, i: nat)
    requires i < |es| && NonEmptyPaths(Below(path, EntryLeaves(es[..i])))
    ensures NonEmptyPaths(Below(path, EntryLeaves(es[..i + 1])))
    ensures PutAll(d2, Keyed(Below(path, EntryLeaves(es[..i + 1]))))
         == PutAll(PutAll(d2, Keyed(Below(path, EntryLeaves(es[..i])))), Keyed(Below(path + [Field(es[i].0)], Leaves(es[i].1))))
  {
    EntryLeavesSnoc(es[..i], es[i]);
    assert es[..i + 1] == es[..i] + [es[i]];
    WalkStep(d2, path, EntryLeaves(es[..i]), Field(es[i].0), es[i].1);
  }

  /** One more item walked. */
  lemma ItemsStep(d2: seq<(string, Value)>, path: seq<Step>, items: seq<Value>, i: nat)
    requires i < |items| && NonEmptyPaths(Below(path, ItemLeaves(items[..i], 0)))
    ensures NonEmptyPaths(Below(path, ItemLeaves(items[..i + 1], 0)))
    ensures PutAll(d2, Keyed(Below(path, ItemLeaves(items[..i + 1], 0))))
         == PutAll(PutAll(d2, Keyed(Below(path, ItemLeaves(items[..i], 0)))), Keyed(Below(path + [Index(i)], Leaves(items[i]))))
  {
    ItemLeavesSnoc(items[..i], items[i], 0);
    assert items[..i + 1] == items[..i] + [items[i]];
    WalkStep(d2, path, ItemLeaves(items[..i], 0), Index(i), items[i]);
  }

  /** The key `traverse` builds for a child is the compound key of the child's path. */
  lemma ChildKey(path: seq<Step>, prefix: string, delim: string, s: Step)
    requires path == [] ==> prefix == "" && delim == "" && s.Field?
    requires path != [] ==> prefix == Render(path) && delim == Delim(s)
    ensures prefix + delim + Name(s) == Render(path + [s])
  {
    if path == [] {
      assert path + [s] == [s];
    } else {
      RenderSnoc(path, s);
    }
  }

  /** A scalar is visited once, under its own key. */
  lemma ScalarVisit(d2: seq<(string, Value)>, p: seq<Step>, v: Value)
    requires p != [] && !IsContainer(v)
    ensures NonEmptyPaths(Below(p, Leaves(v)))
    ensures PutAll(d2, Keyed(Below(p, Leaves(v)))) == Put(d2, Render(p), v)
  {
    assert p + [] == p;
    assert Keyed(Below(p, Leaves(v))) == [(Render(p), v)];
  }

  /** `traverse(c, prefix, delim, visit)` with `visit` writing into `d2`: each leaf below `c`
      is written under its compound key, in iteration order. */
  method Traverse(c: Value, prefix: string, delim: string, ghost path: seq<Step>, d2: seq<(string, Value)>)
    returns (r: seq<(string, Value)>)
    requires IsContainer(c)
    requires path == [] ==> prefix == "" && delim == "" && c.Dict?
    requires path != [] ==> prefix == Render(path) && delim == (if c.Dict? then "." else "#")
    ensures NonEmptyPaths(Below(path, Leaves(c)))
    ensures r == PutAll(d2, Keyed(Below(path, Leaves(c))))
    decreases c, 1
  {
    match c
    case Dict(es) => r := TraverseEntries(es, prefix, delim, path, d2);
    case List(items) => r := TraverseItems(items, prefix, delim, path, d2);
  }

  /** The loop of `traverse` over the entries of a dictionary. */
  method TraverseEntries(es: seq<(string, Value)>, prefix: string, delim: string, ghost path: seq<Step>, d2: seq<(string, Value)>)
    returns (r: seq<(string, Value)>)
    requires path == [] ==> prefix == "" && delim == ""
    requires path != [] ==> prefix == Render(path) && delim == "."
    ensures NonEmptyPaths(Below(path, EntryLeaves(es)))
    ensures r == PutAll(d2, Keyed(Below(path, EntryLeaves(es))))
    decreases es, 0
  {
    r := d2;
    var i := 0;
    while i < |es|
      invariant i <= |es|
      invariant NonEmptyPaths(Below(path, EntryLeaves(es[..i])))
      invariant r == PutAll(d2, Keyed(Below(path, EntryLeaves(es[..i]))))
    {
      var k := es[i].0;
      assert es[i] in es && es[i].1 < es[i];
      ChildKey(path, prefix, delim, Field(k));
      EntriesStep(d2, path, es, i);
      r := Visit(es[i].1, prefix + delim + k, path + [Field(k)], r);
      i := i + 1;
    }
    assert es[..i] == es;
  }

  /** The loop of `traverse` over a list, whose keys are the indices. */
  method TraverseItems(items: seq<Value>, prefix: string, delim: string, ghost path: seq<Step>, d2: seq<(string, Value)>)
    returns (r: seq<(string, Value)>)
    requires path != [] && prefix == Render(path) && delim == "#"
    ensures NonEmptyPaths(Below(path, ItemLeaves(items, 0)))
    ensures r == PutAll(d2, Keyed(Below(path, ItemLeaves(items, 0))))
    decreases items, 0
  {
    r := d2;
    var i := 0;
    while i < |items|
      invariant i <= |items|
      invariant NonEmptyPaths(Below(path, ItemLeaves(items[..i], 0)))
      invariant r == PutAll(d2, Keyed(Below(path, ItemLeaves(items[..i], 0))))
    {
      assert items[i] in items;
      ChildKey(path, prefix, delim, Index(i));
      ItemsStep(d2, path, items, i);
      r := Visit(items[i], prefix + delim + NatToString(i), path + [Index(i)], r);
      i := i + 1;
    }
    assert items[..i] == items;
  }

  /** The body of `traverse`'s loop for one child: a dictionary or list is walked below its key,
      anything else is visited. */
  method Visit(v: Value, key: string, ghost p: seq<Step>, d2: seq<(string, Value)>) returns (r: seq<(string, Value)>)
    requires p != [] && key == Render(p)
    ensures NonEmptyPaths(Below(p, Leaves(v)))
    ensures r == PutAll(d2, Keyed(Below(p, Leaves(v))))
    decreases v, 2
  {
    if v.Dict? {
      r := Traverse(v, key, ".", p, d2);
    } else if v.List? {
      r := Traverse(v, key, "#", p, d2);
    } else {
      ScalarVisit(d2, p, v);
      r := Put(d2, key, v);
    }
  }

  /** `flatten(d)`. */
  method Flatten(d: seq<(string, Value)>) returns (r: seq<(string, Value)>)
    ensures r == Flat(d)
  {
    r := Traverse(Dict(d), "", "", [], []);
    BelowNothing(EntryLeaves(d));
  }

  // ---------------------------------------------------------------- unflatten

  /** The position of the first entry with key `k`. */
  function KeyIndex(es: seq<(string, Value)>, k: string): (r: Option<nat>)
    ensures r.None? <==> !HasKey(es, k)
    ensures r.Some? ==> r.value < |es| && es[r.value].0 == k && forall j :: 0 <= j < r.value ==> es[j].0 != k
  {
    if es == [] then None
    else if es[0].0 == k then Some(0)
    else
      assert Keys(es) == [es[0].0] + Keys(es[1..]);
      match KeyIndex(es[1..], k)
      case None => None
      case Some(i) => Some(i + 1)
  }

  /** `d.setdefault(k, v)` on a dictionary: the entries afterwards and the position of `k` in
      them. An existing value, even None, is never replaced; a new key goes at the end. */
  function DictSetDefault(es: seq<(string, Value)>, k: string, v: Value): (r: (seq<(string, Value)>, nat))
    ensures r.1 < |r.0| && r.0[r.1].0 == k
    ensures HasKey(es, k) ==> r.0 == es && forall j :: 0 <= j < r.1 ==> es[j].0 != k
    ensures !HasKey(es, k) ==> r == (es + [(k, v)], |es|)
  {
    match KeyIndex(es, k)
    case Some(i) => (es, i)
    case None => (es + [(k, v)], |es|)
  }

  /** `betterlist.fill(size)`: the list padded with None up to `size` items. */
  function Padded(items: seq<Value>, size: int): (r: seq<Value>)
    ensures |r| == if size > |items| then size else |items|
    ensures r[..|items|] == items
    ensures forall i :: |items| <= i < |r| ==> r[i] == Null
  {
    if size > |items| then items + seq(size - |items|, _ => Null) else items
  }

  /** `betterlist.setdefault(index, value)`: the new items and the position written. `int(index)`
      is a ValueError unless the text is an integer; a negative index counts from the end of the
      padded list and is an IndexError before its start. The slot takes `value` only when it held None. */
  function ListSetDefault(items: seq<Value>, index: string, v: Value): (r: Result<(seq<Value>, nat), string>)
    ensures ParseInt(index).None? ==> r == Err("ValueError")
    ensures r.Ok? ==> ParseInt(index).Some?
    ensures r.Ok? ==> var padded := Padded(items, ParseInt(index).value + 1);
      r.value.1 < |padded| == |r.value.0|
      && r.value.0 == padded[r.value.1 := if padded[r.value.1].Null? then v else padded[r.value.1]]
    ensures r.Ok? && ParseInt(index).value >= 0 ==> r.value.1 == ParseInt(index).value
    ensures r.Ok? && ParseInt(index).value < 0 ==> r.value.1 == |items| + ParseInt(index).value
    ensures r.Err? && ParseInt(index).Some? ==> ParseInt(index).value < -|items| && r == Err("IndexError")
  {
    match ParseInt(index)
    case None => Err("ValueError")
    case Some(i) =>
      var padded := Padded(items, i + 1);
      var idx := if i >= 0 then i else |padded| + i;
      if idx < 0 then Err("IndexError")
      else
        var slot := if padded[idx].Null? then v else padded[idx];
        Ok((padded[idx := slot], idx))
  }

  /** `betterlist`: a list that grows on demand. */
  class BetterList {
    var items: seq<Value>

    constructor (items: seq<Value>)
      ensures this.items == items
    {
      this.items := items;
    }

    /** `fill(size)`: append None until the list has `size` items. */
    method Fill(size: int)
      modifies this
      ensures items == Padded(old(items), size)
    {
      ghost var start := items;
      while |items| < size
        invariant |start| <= |items|
        invariant |items| <= size || items == start
        invariant items == start + seq(|items| - |start|, _ => Null)
        decreases size - |items|
      {
        items := items + [Null];
      }
      if size <= |start| {
        assert items == start;
      }
    }

    /** `setdefault(index, value)`: pads up to `int(index) + 1` items, fills the slot if it holds
        None and returns what the slot holds. */
    method SetDefault(index: string, value: Value) returns (r: Result<Value, string>)
      modifies this
      ensures ListSetDefault(old(items), index, value).Err? ==>
        r == Err(ListSetDefault(old(items), index, value).error) && items == old(items)
      ensures ListSetDefault(old(items), index, value).Ok? ==>
        var w := ListSetDefault(old(items), index, value).value;
        items == w.0 && r == Ok(w.0[w.1])
    {
      var i := ParseInt(index);
      if i.None? {
        return Err("ValueError");
      }
      Fill(i.value + 1);
      var idx := if i.value >= 0 then i.value else |items| + i.value;
      if idx < 0 {
        return Err("IndexError");
      }
      if items[idx] == Null {
        items := items[idx := value];
      }
      r := Ok(items[idx]);
    }
  }

  /** One chain of nested `setdefault` calls: each step is a (name, default) pair and the last
      default is the value itself. Every step descends into what the previous `setdefault`
      returned; a step into something that is neither a dictionary nor a list is ignored, and so
      are the ones after it. */
  function SetPath(c: Value, steps: seq<(string, Value)>): (r: Result<Value, string>)
    requires steps != []
    ensures r.Ok? ==> r.value.Dict? == c.Dict? && r.value.List? == c.List?
    ensures !IsContainer(c) ==> r == Ok(c)
    decreases |steps|
  {
    var k := steps[0].0;
    var dflt := steps[0].1;
    match c
    case Dict(es) =>
      var (es1, i) := DictSetDefault(es, k, dflt);
      if |steps| == 1 then Ok(Dict(es1))
      else (
        match SetPath(es1[i].1, steps[1..])
        case Err(e) => Err(e)
        case Ok(c2) => Ok(Dict(es1[i := (k, c2)])))
    case List(items) => (
      match ListSetDefault(items, k, dflt)
      case Err(e) => Err(e)
      case Ok(w) =>
        if |steps| == 1 then Ok(List(w.0))
        else (
          match SetPath(w.0[w.1], steps[1..])
          case Err(e) => Err(e)
          case Ok(c2) => Ok(List(w.0[w.1 := c2]))))
    case _ => Ok(c)
  }

  /** The steps of `setdefault(d, k, v)`: a '.' splits first and its left part descends with a
      default {}, then a '#' splits with a default `betterlist()`; a key with neither is the
      final `d.setdefault(k, v)`. */
  function KeySteps(k: string, v: Value): (r: seq<(string, Value)>)
    ensures r != []
    decreases |k|
  {
    if '.' in k then
      var (a, b) := SplitOnce(k, '.').value;
      KeySteps(a, Dict([])) + KeySteps(b, v)
    else if '#' in k then
      var (a, b) := SplitOnce(k, '#').value;
      [(a, List([]))] + KeySteps(b, v)
    else [(k, v)]
  }

  /** `setdefault(d2, k, v)` at the top of `unflatten`. */
  function SetKey(c: Value, k: string, v: Value): Result<Value, string> {
    SetPath(c, KeySteps(k, v))
  }

  /** `setdefault(d2, k, v)` for each entry in turn; the first error ends it. */
  function SetKeys(c: Value, kvs: seq<(string, Value)>): Result<Value, string>
    decreases |kvs|
  {
    if kvs == [] then Ok(c)
    else
      match SetKey(c, kvs[0].0, kvs[0].1)
      case Err(e) => Err(e)
      case Ok(c1) => SetKeys(c1, kvs[1..])
  }

  /** `unflatten(d)`: the entries of `d` set one by one into an empty dictionary. */
  method Unflatten(d: seq<(string, Value)>) returns (r: Result<Value, string>)
    ensures r == SetKeys(Dict([]), d)
  {
    var root := Dict([]);
    var i := 0;
    while i < |d|
      invariant i <= |d|
      invariant SetKeys(Dict([]), d) == SetKeys(root, d[i..])
    {
      assert d[i..][1..] == d[i + 1..];
      match SetKey(root, d[i].0, d[i].1)
      case Err(e) =>
        return Err(e);
      case Ok(c) =>
        root := c;
      i := i + 1;
    }
    r := Ok(root);
  }

  // ---------------------------------------------------------------- the round trip

  /** A key `flatten` can write and `unflatten` split back: no '.' and no '#'. */
  predicate Plain(k: string) {
    '.' !in k && '#' !in k
  }

  predicate NonEmpty(v: Value) {
    (v.Dict? ==> v.entries != []) && (v.List? ==> v.items != [])
  }

  /** A document `unflatten(flatten(...))` gives back: dictionary keys unique and plain, and no
      empty dictionary or list below the top (those have no leaves to write). */
  predicate Sound(v: Value)
    decreases v, 1
  {
    match v
    case Dict(es) => UniqueKeys(es) && SoundEntries(es)
    case List(items) => SoundItems(items)
    case _ => true
  }

  predicate SoundEntries(es: seq<(string, Value)>)
    decreases es, 0
  {
    es != [] ==>
      assert es[0] in es && es[0].1 < es[0];
      Plain(es[0].0) && NonEmpty(es[0].1) && Sound(es[0].1) && SoundEntries(es[1..])
  }

  predicate SoundItems(items: seq<Value>)
    decreases items, 0
  {
    items != [] ==>
      assert items[0] in items;
      NonEmpty(items[0]) && Sound(items[0]) && SoundItems(items[1..])
  }

  /** The steps a path's key resolves to: its names, each with the empty container of the kind
      the next step needs, and the value last. */
  function Defaults(p: seq<Step>, v: Value): (r: seq<(string, Value)>)
    requires p != []
    ensures |r| == |p|
  {
    if |p| == 1 then [(Name(p[0]), v)]
    else [(Name(p[0]), EmptyOf(p[1]))] + Defaults(p[1..], v)
  }

  function EmptyOf(s: Step): Value {
    if s.Field? then Dict([]) else List([])
  }

  predicate PlainPath(p: seq<Step>) {
    forall i :: 0 <= i < |p| ==> p[i].Field? ==> Plain(p[i].name)
  }

  lemma NamePlain(s: Step)
    requires s.Field? ==> Plain(s.name)
    ensures Plain(Name(s))
  {
    if s.Index? {
      var n := NatToString(s.i);
      assert forall j :: 0 <= j < |n| ==> IsDigit(n[j]);
    }
  }

  /** After a plain name and a '#', the key splits exactly there. */
  lemma HashSteps(n: string, rest: string, v: Value)
    requires Plain(n)
    ensures KeySteps(n + "#" + rest, v) == [(n, List([]))] + KeySteps(rest, v)
  {
    var k := n + "#" + rest;
    if '.' in rest {
      var (r1, r2) := SplitOnce(rest, '.').value;
      assert k == (n + "#" + r1) + ['.'] + r2;
      SplitOnceConcat(n + "#" + r1, '.', r2);
      SplitOnceConcat(n, '#', r1);
      assert '.' !in n + "#" + r1;
      assert KeySteps(n + "#" + r1, Dict([])) == [(n, List([]))] + KeySteps(r1, Dict([]));
    } else {
      assert '.' !in k;
      SplitOnceConcat(n, '#', rest);
      assert k == n + ['#'] + rest;
    }
  }

  /** The key of a path with plain names splits back into the path's steps. */
  lemma {:induction false} KeyStepsRender(p: seq<Step>, v: Value)
    requires p != [] && PlainPath(p)
    ensures KeySteps(Render(p), v) == Defaults(p, v)
  {
    NamePlain(p[0]);
    var n := Name(p[0]);
    if |p| > 1 {
      var rest := Render(p[1..]);
      assert PlainPath(p[1..]) by {
        forall i | 0 <= i < |p[1..]| ensures p[1..][i].Field? ==> Plain(p[1..][i].name) {
          assert p[1..][i] == p[i + 1];
        }
      }
      KeyStepsRender(p[1..], v);
      if p[1].Field? {
        assert Render(p) == n + ['.'] + rest;
        SplitOnceConcat(n, '.', rest);
      } else {
        HashSteps(n, rest, v);
      }
    }
  }

  /** A path is recovered from its steps, given the kind of its first step. */
  lemma {:induction false} DefaultsInjective(p: seq<Step>, q: seq<Step>)
    requires p != [] && q != [] && p[0].Field? == q[0].Field?
    requires Defaults(p, Null) == Defaults(q, Null)
    ensures p == q
  {
    assert Defaults(p, Null)[0].0 == Name(p[0]);
    assert Defaults(q, Null)[0].0 == Name(q[0]);
    if p[0].Index? {
      ParseNatToString(p[0].i);
      ParseNatToString(q[0].i);
    }
    if |p| > 1 {
      assert |q| > 1;
      assert EmptyOf(p[1]) == Defaults(p, Null)[0].1 == EmptyOf(q[1]);
      assert Defaults(p, Null)[1..] == Defaults(p[1..], Null);
      assert Defaults(q, Null)[1..] == Defaults(q[1..], Null);
      DefaultsInjective(p[1..], q[1..]);
      assert p == [p[0]] + p[1..] && q == [q[0]] + q[1..];
    }
  }

  /** Distinct plain paths from the top of a dictionary have distinct keys. */
  lemma RenderInjective(p: seq<Step>, q: seq<Step>)
    requires p != [] && q != [] && p[0].Field? && q[0].Field? && PlainPath(p) && PlainPath(q)
    requires Render(p) == Render(q)
    ensures p == q
  {
    KeyStepsRender(p, Null);
    KeyStepsRender(q, Null);
    DefaultsInjective(p, q);
  }

  predicate PlainLeaves(l: seq<(seq<Step>, Value)>) {
    forall i :: 0 <= i < |l| ==> PlainPath(l[i].0)
  }

  predicate DistinctPaths(l: seq<(seq<Step>, Value)>) {
    forall i, j :: 0 <= i < j < |l| ==> l[i].0 != l[j].0
  }

  lemma BelowPlain(s: Step, l: seq<(seq<Step>, Value)>)
    requires PlainLeaves(l) && (s.Field? ==> Plain(s.name))
    ensures PlainLeaves(Below([s], l))
  {
    forall i | 0 <= i < |l| ensures PlainPath(Below([s], l)[i].0) {
      var p := [s] + l[i].0;
      forall j | 0 <= j < |p| ensures p[j].Field? ==> Plain(p[j].name) {
        if j > 0 {
          assert p[j] == l[i].0[j - 1];
        }
      }
    }
  }

  lemma PlainAppend(a: seq<(seq<Step>, Value)>, b: seq<(seq<Step>, Value)>)
    requires PlainLeaves(a) && PlainLeaves(b)
    ensures PlainLeaves(a + b)
  {
    assert forall i :: 0 <= i < |a + b| ==> (a + b)[i] == if i < |a| then a[i] else b[i - |a|];
  }

  /** The paths of a sound document's leaves use plain names only. */
  lemma {:induction false} LeavesPlain(v: Value)
    requires Sound(v)
    ensures PlainLeaves(Leaves(v))
    decreases v, 1
  {
    match v
    case Dict(es) => EntryLeavesPlain(es);
    case List(items) => ItemLeavesPlain(items, 0);
    case _ =>
  }

  lemma {:induction false} EntryLeavesPlain(es: seq<(string, Value)>)
    requires SoundEntries(es)
    ensures PlainLeaves(EntryLeaves(es))
    decreases es, 0
  {
    if es != [] {
      assert es[0] in es && es[0].1 < es[0];
      LeavesPlain(es[0].1);
      BelowPlain(Field(es[0].0), Leaves(es[0].1));
      EntryLeavesPlain(es[1..]);
      PlainAppend(Below([Field(es[0].0)], Leaves(es[0].1)), EntryLeaves(es[1..]));
    }
  }

  lemma {:induction false} ItemLeavesPlain(items: seq<Value>, from: nat)
    requires SoundItems(items)
    ensures PlainLeaves(ItemLeaves(items, from))
    decreases items, 0
  {
    if items != [] {
      assert items[0] in items;
      LeavesPlain(items[0]);
      BelowPlain(Index(from), Leaves(items[0]));
      ItemLeavesPlain(items[1..], from + 1);
      PlainAppend(Below([Index(from)], Leaves(items[0])), ItemLeaves(items[1..], from + 1));
    }
  }

  /** Leaves below one step stay distinct and differ from leaves below any other first step. */
  lemma DistinctJoin(s: Step, l: seq<(seq<Step>, Value)>, rest: seq<(seq<Step>, Value)>)
    requires DistinctPaths(l) && DistinctPaths(rest)
    requires forall i :: 0 <= i < |rest| ==> rest[i].0 != [] && rest[i].0[0] != s
    ensures DistinctPaths(Below([s], l) + rest)
  {
    var a := Below([s], l);
    forall i, j | 0 <= i < j < |a + rest| ensures (a + rest)[i].0 != (a + rest)[j].0 {
      if j < |a| {
        assert a[i].0[1..] == l[i].0 && a[j].0[1..] == l[j].0;
      } else if i < |a| {
        assert a[i].0[0] == s;
        assert (a + rest)[j] == rest[j - |a|];
      } else {
        assert (a + rest)[i] == rest[i - |a|] && (a + rest)[j] == rest[j - |a|];
      }
    }
  }

  /** No two leaves of a sound document share a path. */
  lemma {:induction false} LeavesDistinct(v: Value)
    requires Sound(v)
    ensures DistinctPaths(Leaves(v))
    decreases v, 1
  {
    match v
    case Dict(es) => EntryLeavesDistinct(es);
    case List(items) => ItemLeavesDistinct(items, 0);
    case _ =>
  }

  lemma {:induction false} EntryLeavesDistinct(es: seq<(string, Value)>)
    requires SoundEntries(es) && UniqueKeys(es)
    ensures DistinctPaths(EntryLeaves(es))
    decreases es, 0
  {
    if es != [] {
      assert es[0] in es && es[0].1 < es[0];
      LeavesDistinct(es[0].1);
      var rest := EntryLeaves(es[1..]);
      assert UniqueKeys(es[1..]);
      EntryLeavesDistinct(es[1..]);
      forall i | 0 <= i < |rest| ensures rest[i].0 != [] && rest[i].0[0] != Field(es[0].0) {
        var k := rest[i].0[0].name;
        assert k in Keys(es[1..]);
        var j :| 0 <= j < |es[1..]| && Keys(es[1..])[j] == k;
        assert es[j + 1].0 == k;
      }
      DistinctJoin(Field(es[0].0), Leaves(es[0].1), rest);
    }
  }

  lemma {:induction false} ItemLeavesDistinct(items: seq<Value>, from: nat)
    requires SoundItems(items)
    ensures DistinctPaths(ItemLeaves(items, from))
    decreases items, 0
  {
    if items != [] {
      assert items[0] in items;
      LeavesDistinct(items[0]);
      ItemLeavesDistinct(items[1..], from + 1);
      DistinctJoin(Index(from), Leaves(items[0]), ItemLeaves(items[1..], from + 1));
    }
  }

  /** The keys `flatten` writes for a sound dictionary are pairwise distinct. */
  lemma KeyedUnique(es: seq<(string, Value)>)
    requires SoundEntries(es) && UniqueKeys(es)
    ensures UniqueKeys(Keyed(EntryLeaves(es)))
  {
    var l := EntryLeaves(es);
    EntryLeavesPlain(es);
    EntryLeavesDistinct(es);
    forall i, j | 0 <= i < j < |l| ensures Keyed(l)[i].0 != Keyed(l)[j].0 {
      if Render(l[i].0) == Render(l[j].0) {
        RenderInjective(l[i].0, l[j].0);
      }
    }
  }

  /** Setting the leaves one path at a time. */
  function Build(c: Value, leaves: seq<(seq<Step>, Value)>): Result<Value, string>
    requires NonEmptyPaths(leaves)
    decreases |leaves|
  {
    if leaves == [] then Ok(c)
    else
      match SetPath(c, Defaults(leaves[0].0, leaves[0].1))
      case Err(e) => Err(e)
      case Ok(c1) => Build(c1, leaves[1..])
  }

  /** Setting the keys of plain leaves is setting their paths. */
  lemma {:induction false} KeyedBuild(c: Value, l: seq<(seq<Step>, Value)>)
    requires NonEmptyPaths(l) && PlainLeaves(l)
    ensures SetKeys(c, Keyed(l)) == Build(c, l)
    decreases |l|
  {
    if l != [] {
      KeyStepsRender(l[0].0, l[0].1);
      assert Keyed(l)[1..] == Keyed(l[1..]);
      match SetPath(c, Defaults(l[0].0, l[0].1))
      case Err(e) =>
      case Ok(c1) => KeyedBuild(c1, l[1..]);
    }
  }

  lemma {:induction false} BuildAppend(c: Value, a: seq<(seq<Step>, Value)>, b: seq<(seq<Step>, Value)>, c1: Value)
    requires NonEmptyPaths(a) && NonEmptyPaths(b) && Build(c, a) == Ok(c1)
    ensures NonEmptyPaths(a + b)
    ensures Build(c, a + b) == Build(c1, b)
    decreases |a|
  {
    if a == [] {
      assert a + b == b;
    } else {
      assert (a + b)[1..] == a[1..] + b && (a + b)[0] == a[0];
      var c0 := SetPath(c, Defaults(a[0].0, a[0].1)).value;
      BuildAppend(c0, a[1..], b, c1);
      assert NonEmptyPaths(a + b) by {
        forall i | 0 <= i < |a + b| ensures (a + b)[i].0 != [] {
          if i > 0 { assert (a + b)[i] == (a[1..] + b)[i - 1]; }
        }
      }
    }
  }

  /** The result of building into an entry `k` appended after `es`. */
  function InEntry(es: seq<(string, Value)>, k: string, r: Result<Value, string>): Result<Value, string> {
    match r
    case Err(e) => Err(e)
    case Ok(c) => Ok(Dict(es + [(k, c)]))
  }

  /** The result of building into an item appended after `items`. */
  function InItem(items: seq<Value>, r: Result<Value, string>): Result<Value, string> {
    match r
    case Err(e) => Err(e)
    case Ok(c) => Ok(List(items + [c]))
  }

  /** A key added at the end of entries without it is found there. */
  lemma KeyIndexLast(es: seq<(string, Value)>, k: string, c: Value)
    requires !HasKey(es, k)
    ensures KeyIndex(es + [(k, c)], k) == Some(|es|)
  {
    var d := es + [(k, c)];
    assert Keys(d)[|es|] == k;
    assert forall j :: 0 <= j < |es| ==> d[j].0 == Keys(es)[j] != k;
  }

  lemma SetPathNewEntry(es: seq<(string, Value)>, k: string, e: Value, rest: seq<(string, Value)>)
    requires !HasKey(es, k) && rest != []
    ensures SetPath(Dict(es), [(k, e)] + rest) == InEntry(es, k, SetPath(e, rest))
  {
    var steps := [(k, e)] + rest;
    assert steps[0] == (k, e) && steps[1..] == rest;
    var d := es + [(k, e)];
    assert DictSetDefault(es, k, e) == (d, |es|);
    match SetPath(e, rest)
    case Err(err) =>
    case Ok(c2) => assert d[|es| := (k, c2)] == es + [(k, c2)];
  }

  lemma SetPathInEntry(es: seq<(string, Value)>, k: string, c: Value, dflt: Value, rest: seq<(string, Value)>)
    requires !HasKey(es, k) && rest != []
    ensures SetPath(Dict(es + [(k, c)]), [(k, dflt)] + rest) == InEntry(es, k, SetPath(c, rest))
  {
    var steps := [(k, dflt)] + rest;
    assert steps[0] == (k, dflt) && steps[1..] == rest;
    var d := es + [(k, c)];
    KeyIndexLast(es, k, c);
    assert DictSetDefault(d, k, dflt) == (d, |es|);
    match SetPath(c, rest)
    case Err(err) =>
    case Ok(c2) => assert d[|es| := (k, c2)] == es + [(k, c2)];
  }

  /** `int(str(n)) == n` for a list index. */
  lemma ParseIndex(n: nat)
    ensures ParseInt(NatToString(n)) == Some(n)
  {
    ParseNatToString(n);
    ParseIntUnspaced(NatToString(n));
  }

  /** `setdefault(str(n), v)` on a list of `n` items appends `v`. */
  lemma ListSetDefaultNext(items: seq<Value>, v: Value)
    ensures ListSetDefault(items, NatToString(|items|), v) == Ok((items + [v], |items|))
  {
    ParseIndex(|items|);
    assert seq(1, _ => Null) == [Null];
    var padded := Padded(items, |items| + 1);
    assert padded == items + [Null];
    assert padded[|items| := v] == items + [v];
  }

  /** `setdefault(str(n), v)` on a list whose item `n` is set returns that item. */
  lemma ListSetDefaultLast(items: seq<Value>, c: Value, v: Value)
    requires c != Null
    ensures ListSetDefault(items + [c], NatToString(|items|), v) == Ok((items + [c], |items|))
  {
    ParseIndex(|items|);
    assert Padded(items + [c], |items| + 1) == items + [c];
    assert (items + [c])[|items| := c] == items + [c];
  }

  lemma SetPathNewItem(items: seq<Value>, e: Value, rest: seq<(string, Value)>)
    requires rest != []
    ensures SetPath(List(items), [(NatToString(|items|), e)] + rest) == InItem(items, SetPath(e, rest))
  {
    var steps := [(NatToString(|items|), e)] + rest;
    assert steps[0] == (NatToString(|items|), e) && steps[1..] == rest;
    ListSetDefaultNext(items, e);
    match SetPath(e, rest)
    case Err(err) =>
    case Ok(c2) => assert (items + [e])[|items| := c2] == items + [c2];
  }

  lemma SetPathInItem(items: seq<Value>, c: Value, dflt: Value, rest: seq<(string, Value)>)
    requires c != Null && rest != []
    ensures SetPath(List(items + [c]), [(NatToString(|items|), dflt)] + rest) == InItem(items, SetPath(c, rest))
  {
    var steps := [(NatToString(|items|), dflt)] + rest;
    assert steps[0] == (NatToString(|items|), dflt) && steps[1..] == rest;
    ListSetDefaultLast(items, c, dflt);
    match SetPath(c, rest)
    case Err(err) =>
    case Ok(c2) => assert (items + [c])[|items| := c2] == items + [c2];
  }

  /** The first leaf below a step resolves to that step followed by the leaf's own steps. */
  lemma BelowHead(s: Step, l: seq<(seq<Step>, Value)>)
    requires l != [] && NonEmptyPaths(l)
    ensures var b := Below([s], l);
      NonEmptyPaths(b) && Defaults(b[0].0, b[0].1) == [(Name(s), EmptyOf(l[0].0[0]))] + Defaults(l[0].0, l[0].1)
      && NonEmptyPaths(l[1..]) && b[1..] == Below([s], l[1..])
  {
    var b := Below([s], l);
    assert b[0].0 == [s] + l[0].0 && b[0].0[1..] == l[0].0;
  }

  /** Further leaves below an existing entry `k` go into that entry. */
  lemma {:induction false} BuildInEntry(es: seq<(string, Value)>, k: string, c: Value, l: seq<(seq<Step>, Value)>)
    requires !HasKey(es, k) && IsContainer(c) && NonEmptyPaths(l)
    ensures NonEmptyPaths(Below([Field(k)], l))
    ensures Build(Dict(es + [(k, c)]), Below([Field(k)], l)) == InEntry(es, k, Build(c, l))
    decreases |l|
  {
    var b := Below([Field(k)], l);
    if l != [] {
      var rest := Defaults(l[0].0, l[0].1);
      BelowHead(Field(k), l);
      SetPathInEntry(es, k, c, EmptyOf(l[0].0[0]), rest);
      var r := SetPath(c, rest);
      if r.Ok? {
        BuildInEntry(es, k, r.value, l[1..]);
      }
    }
  }

  /** The first leaf below a new entry `k` creates it with the empty container of its kind. */
  lemma BuildNewEntry(es: seq<(string, Value)>, k: string, l: seq<(seq<Step>, Value)>)
    requires !HasKey(es, k) && l != [] && NonEmptyPaths(l)
    ensures NonEmptyPaths(Below([Field(k)], l))
    ensures Build(Dict(es), Below([Field(k)], l)) == InEntry(es, k, Build(EmptyOf(l[0].0[0]), l))
  {
    var b := Below([Field(k)], l);
    var e := EmptyOf(l[0].0[0]);
    var rest := Defaults(l[0].0, l[0].1);
    BelowHead(Field(k), l);
    SetPathNewEntry(es, k, e, rest);
    var r := SetPath(e, rest);
    if r.Ok? {
      BuildInEntry(es, k, r.value, l[1..]);
    }
  }

  lemma {:induction false} BuildInItem(items: seq<Value>, c: Value, l: seq<(seq<Step>, Value)>)
    requires IsContainer(c) && NonEmptyPaths(l)
    ensures NonEmptyPaths(Below([Index(|items|)], l))
    ensures Build(List(items + [c]), Below([Index(|items|)], l)) == InItem(items, Build(c, l))
    decreases |l|
  {
    var b := Below([Index(|items|)], l);
    if l != [] {
      var rest := Defaults(l[0].0, l[0].1);
      BelowHead(Index(|items|), l);
      SetPathInItem(items, c, EmptyOf(l[0].0[0]), rest);
      var r := SetPath(c, rest);
      if r.Ok? {
        BuildInItem(items, r.value, l[1..]);
      }
    }
  }

  lemma BuildNewItem(items: seq<Value>, l: seq<(seq<Step>, Value)>)
    requires l != [] && NonEmptyPaths(l)
    ensures NonEmptyPaths(Below([Index(|items|)], l))
    ensures Build(List(items), Below([Index(|items|)], l)) == InItem(items, Build(EmptyOf(l[0].0[0]), l))
  {
    var b := Below([Index(|items|)], l);
    var e := EmptyOf(l[0].0[0]);
    var rest := Defaults(l[0].0, l[0].1);
    BelowHead(Index(|items|), l);
    SetPathNewItem(items, e, rest);
    var r := SetPath(e, rest);
    if r.Ok? {
      BuildInItem(items, r.value, l[1..]);
    }
  }

  /** A sound non-empty container has leaves. */
  lemma {:induction false} LeavesNonEmpty(v: Value)
    requires Sound(v) && NonEmpty(v)
    ensures |Leaves(v)| > 0
    decreases v
  {
    match v
    case Dict(es) =>
      assert es[0] in es && es[0].1 < es[0];
      LeavesNonEmpty(es[0].1);
    case List(items) =>
      assert items[0] in items;
      LeavesNonEmpty(items[0]);
    case _ =>
  }

  /** Building a sound container's own leaves into an empty one of its kind gives it back. */
  lemma {:induction false} BuildValue(v: Value)
    requires Sound(v) && IsContainer(v)
    ensures NonEmptyPaths(Leaves(v))
    ensures Build(if v.Dict? then Dict([]) else List([]), Leaves(v)) == Ok(v)
    decreases v, 2
  {
    match v
    case Dict(es) =>
      BuildEntries([], es);
      assert [] + es == es;
    case List(items) =>
      BuildItems([], items);
      assert [] + items == items;
  }

  /** Rebuilding from a dictionary's leaves, after entries `done` with other keys. */
  lemma {:induction false} BuildEntries(done: seq<(string, Value)>, es: seq<(string, Value)>)
    requires SoundEntries(es) && UniqueKeys(done + es)
    ensures NonEmptyPaths(EntryLeaves(es))
    ensures Build(Dict(done), EntryLeaves(es)) == Ok(Dict(done + es))
    decreases es, 1
  {
    if es == [] {
      assert done + es == done;
    } else {
      var k, v := es[0].0, es[0].1;
      assert es[0] in es && v < es[0];
      assert EntryLeaves(es) == Below([Field(k)], Leaves(v)) + EntryLeaves(es[1..]);
      FreshKey(done, es);
      BuildEntry(done, k, v);
      BuildEntries(done + [(k, v)], es[1..]);
      BuildAppend(Dict(done), Below([Field(k)], Leaves(v)), EntryLeaves(es[1..]), Dict(done + [(k, v)]));
    }
  }

  lemma MoveFirst<T>(done: seq<T>, items: seq<T>)
    requires items != []
    ensures done + items == (done + [items[0]]) + items[1..]
  {
    assert items == [items[0]] + items[1..];
  }

  lemma FreshKey(done: seq<(string, Value)>, es: seq<(string, Value)>)
    requires es != [] && UniqueKeys(done + es)
    ensures !HasKey(done, es[0].0)
    ensures done + es == (done + [es[0]]) + es[1..] && UniqueKeys((done + [es[0]]) + es[1..])
  {
    forall j | 0 <= j < |done| ensures Keys(done)[j] != es[0].0 {
      assert (done + es)[j] == done[j] && (done + es)[|done|] == es[0];
    }
    assert done + es == (done + [es[0]]) + es[1..];
  }

  lemma {:induction false} BuildEntry(done: seq<(string, Value)>, k: string, v: Value)
    requires !HasKey(done, k) && Sound(v) && NonEmpty(v)
    ensures NonEmptyPaths(Below([Field(k)], Leaves(v)))
    ensures Build(Dict(done), Below([Field(k)], Leaves(v))) == Ok(Dict(done + [(k, v)]))
    decreases v, 3
  {
    var l := Leaves(v);
    if IsContainer(v) {
      LeavesNonEmpty(v);
      BuildNewEntry(done, k, l);
      BuildValue(v);
    } else {
      assert l == [([], v)];
      var b := Below([Field(k)], l);
      assert b[0].0 == [Field(k)] + [] == [Field(k)];
      assert DictSetDefault(done, k, v) == (done + [(k, v)], |done|);
    }
  }

  /** Rebuilding from a list's leaves, after items `done`. */
  lemma {:induction false} BuildItems(done: seq<Value>, items: seq<Value>)
    requires SoundItems(items)
    ensures NonEmptyPaths(ItemLeaves(items, |done|))
    ensures Build(List(done), ItemLeaves(items, |done|)) == Ok(List(done + items))
    decreases items, 1
  {
    if items == [] {
      assert done + items == done;
    } else {
      var v := items[0];
      assert items[0] in items;
      var l1 := Below([Index(|done|)], Leaves(v));
      var l2 := ItemLeaves(items[1..], |done| + 1);
      assert ItemLeaves(items, |done|) == l1 + l2;
      BuildItem(done, v);
      BuildItems(done + [v], items[1..]);
      assert |done + [v]| == |done| + 1;
      BuildAppend(List(done), l1, l2, List(done + [v]));
      MoveFirst(done, items);
    }
  }

  lemma {:induction false} BuildItem(done: seq<Value>, v: Value)
    requires Sound(v) && NonEmpty(v)
    ensures NonEmptyPaths(Below([Index(|done|)], Leaves(v)))
    ensures Build(List(done), Below([Index(|done|)], Leaves(v))) == Ok(List(done + [v]))
    decreases v, 3
  {
    var l := Leaves(v);
    if IsContainer(v) {
      LeavesNonEmpty(v);
      BuildNewItem(done, l);
      BuildValue(v);
    } else {
      assert l == [([], v)];
      var b := Below([Index(|done|)], l);
      assert b[0].0 == [Index(|done|)] + [] == [Index(|done|)];
      ListSetDefaultNext(done, v);
    }
  }

  /** `unflatten` inverts `flatten` on every sound dictionary. */
  lemma UnflattenFlatten(d: seq<(string, Value)>)
    requires UniqueKeys(d) && SoundEntries(d)
    ensures SetKeys(Dict([]), Flat(d)) == Ok(Dict(d))
  {
    var l := EntryLeaves(d);
    KeyedUnique(d);
    assert [] + Keyed(l) == Keyed(l);
    PutAllFresh([], Keyed(l));
    EntryLeavesPlain(d);
    KeyedBuild(Dict([]), l);
    BuildEntries([], d);
    assert [] + d == d;
  }

  // ---------------------------------------------------------------- trim and subdict

  /** `trim(x)`: lists and dictionaries lose the elements and entries that are falsy once trimmed
      themselves; anything else is returned as it is. */
  function Trim(x: Value): (r: Value)
    ensures x.List? ==> r.List? && |r.items| <= |x.items|
    ensures x.Dict? ==> r.Dict? && |r.entries| <= |x.entries|
    ensures !x.List? && !x.Dict? ==> r == x
    decreases x, 1
  {
    match x
    case List(items) => List(TrimItems(items))
    case Dict(es) => Dict(TrimEntries(es))
    case _ => x
  }

  function TrimItems(items: seq<Value>): (r: seq<Value>)
    ensures |r| <= |items|
    decreases items, 0
  {
    if items == [] then []
    else
      assert items[0] in items;
      var v := Trim(items[0]);
      (if Truthy(v) then [v] else []) + TrimItems(items[1..])
  }

  function TrimEntries(es: seq<(string, Value)>): (r: seq<(string, Value)>)
    ensures |r| <= |es|
    decreases es, 0
  {
    if es == [] then []
    else
      assert es[0] in es && es[0].1 < es[0];
      var v := Trim(es[0].1);
      (if Truthy(v) then [(es[0].0, v)] else []) + TrimEntries(es[1..])
  }

  /** No falsy element or entry value anywhere inside. */
  predicate Clean(x: Value)
    decreases x, 1
  {
    match x
    case List(items) => CleanItems(items)
    case Dict(es) => CleanEntries(es)
    case _ => true
  }

  predicate CleanItems(items: seq<Value>)
    decreases items, 0
  {
    items != [] ==>
      assert items[0] in items;
      Truthy(items[0]) && Clean(items[0]) && CleanItems(items[1..])
  }

  predicate CleanEntries(es: seq<(string, Value)>)
    decreases es, 0
  {
    es != [] ==>
      assert es[0] in es && es[0].1 < es[0];
      Truthy(es[0].1) && Clean(es[0].1) && CleanEntries(es[1..])
  }

  /** What `trim` returns holds nothing falsy at any depth. */
  lemma {:induction false} TrimClean(x: Value)
    ensures Clean(Trim(x))
    decreases x, 1
  {
    match x
    case List(items) => TrimItemsClean(items);
    case Dict(es) => TrimEntriesClean(es);
    case _ =>
  }

  lemma {:induction false} TrimItemsClean(items: seq<Value>)
    ensures CleanItems(TrimItems(items))
    decreases items, 0
  {
    if items != [] {
      assert items[0] in items;
      TrimClean(items[0]);
      TrimItemsClean(items[1..]);
      var v := Trim(items[0]);
      if Truthy(v) {
        assert ([v] + TrimItems(items[1..]))[1..] == TrimItems(items[1..]);
      } else {
        assert TrimItems(items) == [] + TrimItems(items[1..]) == TrimItems(items[1..]);
      }
    }
  }

  lemma {:induction false} TrimEntriesClean(es: seq<(string, Value)>)
    ensures CleanEntries(TrimEntries(es))
    decreases es, 0
  {
    if es != [] {
      assert es[0] in es && es[0].1 < es[0];
      TrimClean(es[0].1);
      TrimEntriesClean(es[1..]);
      var v := Trim(es[0].1);
      if Truthy(v) {
        assert ([(es[0].0, v)] + TrimEntries(es[1..]))[1..] == TrimEntries(es[1..]);
      } else {
        assert TrimEntries(es) == [] + TrimEntries(es[1..]) == TrimEntries(es[1..]);
      }
    }
  }

  /** `trim` leaves a clean value as it is. */
  lemma {:induction false} TrimFixed(x: Value)
    requires Clean(x)
    ensures Trim(x) == x
    decreases x, 1
  {
    match x
    case List(items) => TrimItemsFixed(items);
    case Dict(es) => TrimEntriesFixed(es);
    case _ =>
  }

  lemma {:induction false} TrimItemsFixed(items: seq<Value>)
    requires CleanItems(items)
    ensures TrimItems(items) == items
    decreases items, 0
  {
    if items != [] {
      assert items[0] in items;
      TrimFixed(items[0]);
      TrimItemsFixed(items[1..]);
      assert items == [items[0]] + items[1..];
    }
  }

  lemma {:induction false} TrimEntriesFixed(es: seq<(string, Value)>)
    requires CleanEntries(es)
    ensures TrimEntries(es) == es
    decreases es, 0
  {
    if es != [] {
      assert es[0] in es && es[0].1 < es[0];
      TrimFixed(es[0].1);
      TrimEntriesFixed(es[1..]);
      assert es == [es[0]] + es[1..];
    }
  }

  /** Trimming twice is trimming once. */
  lemma TrimIdempotent(x: Value)
    ensures Trim(Trim(x)) == Trim(x)
  {
    TrimClean(x);
    TrimFixed(Trim(x));
  }

  /** A trimmed dictionary holds exactly the keys whose trimmed value is truthy, with that value. */
  lemma {:induction false} TrimEntriesGet(es: seq<(string, Value)>, k: string)
    requires UniqueKeys(es)
    ensures Get(TrimEntries(es), k) ==
      match Get(es, k)
      case None => None
      case Some(v) => if Truthy(Trim(v)) then Some(Trim(v)) else None
    decreases es
  {
    if es != [] {
      assert es[0] in es && es[0].1 < es[0];
      var v := Trim(es[0].1);
      var t := TrimEntries(es[1..]);
      assert TrimEntries(es) == (if Truthy(v) then [(es[0].0, v)] else []) + t;
      if es[0].0 == k {
        assert Get(es, k) == Some(es[0].1);
        assert !HasKey(es[1..], k) by {
          forall j | 0 <= j < |es[1..]| ensures Keys(es[1..])[j] != k {
            assert es[1..][j] == es[j + 1];
          }
        }
        NoKeyTrim(es[1..], k);
        if !Truthy(v) {
          assert TrimEntries(es) == t;
        }
      } else {
        assert Get(es, k) == Get(es[1..], k);
        assert UniqueKeys(es[1..]);
        TrimEntriesGet(es[1..], k);
        if Truthy(v) {
          assert ([(es[0].0, v)] + t)[1..] == t;
        } else {
          assert TrimEntries(es) == t;
        }
      }
    }
  }

  /** Trimming adds no key. */
  lemma {:induction false} NoKeyTrim(es: seq<(string, Value)>, k: string)
    requires !HasKey(es, k)
    ensures Get(TrimEntries(es), k) == None
    decreases es
  {
    if es != [] {
      assert es[0] in es && es[0].1 < es[0];
      assert Keys(es) == [es[0].0] + Keys(es[1..]);
      NoKeyTrim(es[1..], k);
      var v := Trim(es[0].1);
      var t := TrimEntries(es[1..]);
      if Truthy(v) {
        assert ([(es[0].0, v)] + t)[1..] == t;
      } else {
        assert [] + t == t;
      }
    }
  }

  /** `subdict(d, keys)`: the requested keys that `d` has, in request order, each once. */
  function SubDict(d: seq<(string, Value)>, keys: seq<string>): (r: seq<(string, Value)>)
    ensures |r| <= |keys|
    decreases |keys|
  {
    if keys == [] then []
    else
      var r := SubDict(d, keys[..|keys| - 1]);
      var k := keys[|keys| - 1];
      match Get(d, k)
      case None => r
      case Some(v) => Put(r, k, v)
  }

  /** A key is in the sub-dictionary exactly when it was requested and `d` has it, with `d`'s value. */
  lemma {:induction false} SubDictGet(d: seq<(string, Value)>, keys: seq<string>, k: string)
    ensures Get(SubDict(d, keys), k) == if k in keys then Get(d, k) else None
    decreases |keys|
  {
    if keys != [] {
      var init := keys[..|keys| - 1];
      var last := keys[|keys| - 1];
      assert keys == init + [last];
      SubDictGet(d, init, k);
      match Get(d, last)
      case None =>
      case Some(v) => GetPut(SubDict(d, init), last, v, k);
    }
  }
}
