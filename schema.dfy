/** The table schema of the Infobase database store (infogami/infobase/_dbstore/schema.py, and
    the older copy in infogami/infobase/dbstore.py, which differs only in its list of indexed
    datatypes and in not taking datatypes in `add_table_group`): which table holds the values
    of a (type, datatype, property name), found as the first registered entry that matches and
    memoised, and the sequences that number new objects of a type. */
module TableSchema {
  import opened Wrappers
  import opened Strings

  /** The indexed datatypes of infogami/infobase/_dbstore/schema.py. */
  const IndexedDatatypes: seq<string> := ["str", "int", "ref"]

  /** The indexed datatypes of the older schema in infogami/infobase/dbstore.py. */
  const OldIndexedDatatypes: seq<string> := ["str", "int", "float", "ref", "boolean", "datetime"]

  /** An entry: the table for values of a type, datatype and property name; None is a
      wildcard. */
  datatype Entry = Entry(table: string, typ: Option<string>, dtype: Option<string>, name: Option<string>)

  /** The key of `find_table`'s memo. */
  datatype Query = Query(typ: Option<string>, dtype: string, name: Option<string>)

  /** What `get_seq` returns for a type with a sequence. */
  datatype SeqInfo = SeqInfo(typ: string, pattern: string, name: string)

  /** `a is None or a == b`. */
  predicate Matches<T(==)>(a: Option<T>, b: T) {
    a.None? || a.value == b
  }

  /** `a is None or a == b` when `b` may be None too. */
  predicate MatchesOpt<T(==)>(a: Option<T>, b: Option<T>) {
    a.None? || a == b
  }

  predicate EntryMatches(e: Entry, q: Query) {
    MatchesOpt(e.typ, q.typ) && Matches(e.dtype, q.dtype) && MatchesOpt(e.name, q.name)
  }

  /** The table of the first matching entry, else the datatype's default table. */
  function FirstMatch(entries: seq<Entry>, q: Query): (table: string)
    ensures (forall i :: 0 <= i < |entries| ==> !EntryMatches(entries[i], q)) ==> table == "datum_" + q.dtype
    ensures forall i :: 0 <= i < |entries| && EntryMatches(entries[i], q) && (forall j :: 0 <= j < i ==> !EntryMatches(entries[j], q)) ==>
      table == entries[i].table
  {
    if entries == [] then "datum_" + q.dtype
    else if EntryMatches(entries[0], q) then entries[0].table
    else
      var t := FirstMatch(entries[1..], q);
      assert forall i :: 1 <= i < |entries| ==> entries[i] == entries[1..][i - 1];
      t
  }

  /** Entries added after a match do not change the first match. */
  lemma {:induction false} FirstMatchStable(entries: seq<Entry>, more: seq<Entry>, q: Query)
    requires exists i :: 0 <= i < |entries| && EntryMatches(entries[i], q)
    ensures FirstMatch(entries + more, q) == FirstMatch(entries, q)
  {
    if !EntryMatches(entries[0], q) {
      assert (entries + more)[1..] == entries[1..] + more;
      var i :| 0 <= i < |entries| && EntryMatches(entries[i], q);
      assert entries[1..][i - 1] == entries[i];
      FirstMatchStable(entries[1..], more, q);
    }
  }

  /** `type[1:].replace('/', '_') + '_seq'`. */
  function SeqName(typ: string): (name: string)
    ensures EndsWith(name, "_seq") && |name| == (if typ == [] then 0 else |typ| - 1) + 4
    ensures forall i :: 0 <= i < |name| - 4 ==> name[i] != '/'
  {
    var rest := if typ == [] then [] else typ[1..];
    var replaced := seq(|rest|, i requires 0 <= i < |rest| => if rest[i] == '/' then '_' else rest[i]);
    assert (replaced + "_seq")[|replaced|..] == "_seq";
    replaced + "_seq"
  }

  /** The entries `add_table_group(prefix, type, datatypes)` adds: one wildcard-name entry per
      datatype. */
  function GroupEntries(prefix: string, typ: Option<string>, datatypes: seq<string>): (r: seq<Entry>)
    ensures |r| == |datatypes|
    ensures forall i :: 0 <= i < |r| ==> r[i] == Entry(prefix + "_" + datatypes[i], typ, Some(datatypes[i]), None)
  {
    if datatypes == [] then []
    else GroupEntries(prefix, typ, datatypes[..|datatypes| - 1]) + [Entry(prefix + "_" + datatypes[|datatypes| - 1], typ, Some(datatypes[|datatypes| - 1]), None)]
  }

  function Tables(entries: seq<Entry>): (r: seq<string>)
    ensures |r| == |entries| && forall i :: 0 <= i < |r| ==> r[i] == entries[i].table
  {
    if entries == [] then [] else Tables(entries[..|entries| - 1]) + [entries[|entries| - 1].table]
  }

  class Schema {
    /** The datatypes that have tables. */
    const indexed: seq<string>
    var entries: seq<Entry>
    var sequences: map<string, string>
    var prefixes: set<string>
    var multisite: bool
    var tableCache: map<Query, string>
    /** How many entries were registered when each memoised answer was computed. */
    ghost var memoAt: map<Query, nat>

    /** Every memoised answer was the first match over the entries registered when it was
        computed, which are a prefix of today's entries. */
    ghost predicate Valid()
      reads this
    {
      forall q :: q in tableCache ==>
        (q.dtype in indexed && q in memoAt && memoAt[q] <= |entries| &&
         tableCache[q] == FirstMatch(entries[..memoAt[q]], q))
    }

    constructor (indexed: seq<string>, multisite: bool)
      ensures Valid()
      ensures this.indexed == indexed && this.multisite == multisite
      ensures entries == [] && sequences == map[] && prefixes == {} && tableCache == map[]
    {
      this.indexed := indexed;
      this.multisite := multisite;
      entries := [];
      sequences := map[];
      prefixes := {};
      tableCache := map[];
      memoAt := map[];
    }

    /** `add_entry`: the entry goes last. */
    method AddEntry(table: string, typ: Option<string>, dtype: Option<string>, name: Option<string>)
      requires Valid()
      modifies this
      ensures Valid()
      ensures entries == old(entries) + [Entry(table, typ, dtype, name)]
      ensures sequences == old(sequences) && prefixes == old(prefixes) && tableCache == old(tableCache)
    {
      ghost var before := entries;
      entries := entries + [Entry(table, typ, dtype, name)];
      forall q | q in tableCache
        ensures entries[..memoAt[q]] == before[..memoAt[q]]
      {
      }
    }

    /** `add_seq(type, pattern)`. */
    method AddSeq(typ: string, pattern: string)
      requires Valid()
      modifies this
      ensures Valid()
      ensures sequences == old(sequences)[typ := pattern]
      ensures entries == old(entries) && prefixes == old(prefixes) && tableCache == old(tableCache)
    {
      sequences := sequences[typ := pattern];
    }

    /** `get_seq(type)`: the sequence of a registered type, named after the type. */
    function GetSeq(typ: string): (r: Option<SeqInfo>)
      reads this
      ensures r.None? <==> typ !in sequences
      ensures r.Some? ==> r.value.typ == typ && r.value.pattern == sequences[typ] && r.value.name == SeqName(typ)
    {
      if typ in sequences then Some(SeqInfo(typ, sequences[typ], SeqName(typ))) else None
    }

    /** `add_table_group(prefix, type, datatypes)`: one entry per datatype (all indexed
        datatypes when none are given), and the prefix recorded. */
    method AddTableGroup(prefix: string, typ: Option<string>, datatypes: seq<string>)
      requires Valid()
      modifies this
      ensures Valid()
      ensures entries == old(entries) + GroupEntries(prefix, typ, if datatypes == [] then indexed else datatypes)
      ensures prefixes == old(prefixes) + {prefix}
      ensures sequences == old(sequences) && tableCache == old(tableCache)
    {
      var ds := if datatypes == [] then indexed else datatypes;
      var i := 0;
      while i < |ds|
        invariant 0 <= i <= |ds|
        invariant Valid()
        invariant entries == old(entries) + GroupEntries(prefix, typ, ds[..i])
        invariant prefixes == old(prefixes) && sequences == old(sequences) && tableCache == old(tableCache)
      {
        assert ds[..i + 1][..i] == ds[..i];
        AddEntry(prefix + "_" + ds[i], typ, Some(ds[i]), None);
        i := i + 1;
      }
      assert ds[..i] == ds;
      prefixes := prefixes + {prefix};
    }

    /** `find_table(type, datatype, name)`: None for a datatype that is not indexed; otherwise
        the memoised answer, computed as the first match on the first call. */
    method FindTable(typ: Option<string>, dtype: string, name: Option<string>) returns (r: Option<string>)
      requires Valid()
      modifies this
      ensures Valid()
      ensures dtype !in indexed ==> r.None? && tableCache == old(tableCache)
      ensures dtype in indexed && Query(typ, dtype, name) in old(tableCache) ==>
        r == Some(old(tableCache)[Query(typ, dtype, name)]) && tableCache == old(tableCache)
      ensures dtype in indexed && Query(typ, dtype, name) !in old(tableCache) ==>
        r == Some(FirstMatch(entries, Query(typ, dtype, name))) && tableCache == old(tableCache)[Query(typ, dtype, name) := r.value]
      ensures Extends(tableCache, old(tableCache))
      ensures entries == old(entries) && sequences == old(sequences) && prefixes == old(prefixes)
    {
      if dtype !in indexed {
        return None;
      }
      var q := Query(typ, dtype, name);
      if q !in tableCache {
        var table := FirstMatch(entries, q);
        assert entries[..|entries|] == entries;
        tableCache := tableCache[q := table];
        memoAt := memoAt[q := |entries|];
      }
      r := Some(tableCache[q]);
    }

    /** `find_tables(type)`: the table of each indexed datatype, any property name. */
    method FindTables(typ: Option<string>) returns (r: seq<Option<string>>)
      requires Valid()
      modifies this
      ensures Valid()
      ensures |r| == |indexed| && forall i :: 0 <= i < |r| ==> r[i].Some?
      ensures forall i :: 0 <= i < |r| && Query(typ, indexed[i], None) in old(tableCache) ==>
        r[i] == Some(old(tableCache)[Query(typ, indexed[i], None)])
      ensures entries == old(entries) && sequences == old(sequences) && prefixes == old(prefixes)
      ensures Extends(tableCache, old(tableCache))
    {
      r := [];
      var i := 0;
      while i < |indexed|
        invariant 0 <= i <= |indexed| && |r| == i
        invariant Valid()
        invariant forall k :: 0 <= k < i ==> Answered(old(tableCache), Query(typ, indexed[k], None), r[k])
        invariant entries == old(entries) && sequences == old(sequences) && prefixes == old(prefixes)
        invariant Extends(tableCache, old(tableCache))
      {
        ghost var cache := tableCache;
        var t := FindTable(typ, indexed[i], None);
        ExtendsTrans(tableCache, cache, old(tableCache));
        AnsweredSnoc(old(tableCache), typ, indexed, r, t);
        r := r + [t];
        i := i + 1;
      }
    }

    /** `list_tables()`: the datum group is added (again), then the distinct table names in
        ascending order. */
    method ListTables() returns (r: seq<string>)
      requires Valid()
      modifies this
      ensures Valid()
      ensures entries == old(entries) + GroupEntries("datum", None, indexed)
      ensures SortedStrings(r) && forall t :: t in r ==> multiset(r)[t] == 1
      ensures forall t :: t in r <==> exists i :: 0 <= i < |entries| && entries[i].table == t
      ensures prefixes == old(prefixes) + {"datum"}
    {
      AddTableGroup("datum", None, []);
      r := SortedDistinct(Tables(entries));
    }
  }

  /** One more answer, for the next datatype. */
  lemma AnsweredSnoc(cache: map<Query, string>, typ: Option<string>, indexed: seq<string>, r: seq<Option<string>>, t: Option<string>)
    requires |r| < |indexed|
    requires forall k :: 0 <= k < |r| ==> Answered(cache, Query(typ, indexed[k], None), r[k])
    requires Answered(cache, Query(typ, indexed[|r|], None), t)
    ensures forall k :: 0 <= k < |r| + 1 ==> Answered(cache, Query(typ, indexed[k], None), (r + [t])[k])
  {
    assert forall k :: 0 <= k < |r| ==> (r + [t])[k] == r[k];
  }

  /** A table was found for `q`, the memoised one when `cache` had it. */
  ghost predicate Answered(cache: map<Query, string>, q: Query, t: Option<string>) {
    t.Some? && (q in cache ==> t.value == cache[q])
  }

  ghost predicate Extends<K, V>(m: map<K, V>, n: map<K, V>) {
    forall k :: k in n ==> k in m && m[k] == n[k]
  }

  lemma ExtendsTrans<K, V>(a: map<K, V>, b: map<K, V>, c: map<K, V>)
    requires Extends(a, b) && Extends(b, c)
    ensures Extends(a, c)
  {
  }

  /** A memoised answer does not change when entries are added later: the memo is read, not
      recomputed. */
  lemma MemoIsStable(s: Schema, q: Query)
    requires s.Valid() && q in s.tableCache
    ensures q.dtype in s.indexed
    ensures exists n :: 0 <= n <= |s.entries| && s.tableCache[q] == FirstMatch(s.entries[..n], q)
  {
    var n := s.memoAt[q];
    assert s.tableCache[q] == FirstMatch(s.entries[..n], q);
  }

  /** A memoised answer whose entry was already registered is today's first match too. */
  lemma {:induction false} MemoAgrees(entries: seq<Entry>, n: nat, q: Query)
    requires n <= |entries| && exists i :: 0 <= i < n && EntryMatches(entries[i], q)
    ensures FirstMatch(entries[..n], q) == FirstMatch(entries, q)
  {
    assert entries == entries[..n] + entries[n..];
    FirstMatchStable(entries[..n], entries[n..], q);
  }
}
