/** Internationalisation support (infogami/utils/i18n.py): string tables keyed by namespace
    and language, the fallback a rendered string follows, the language a request asks for,
    and the path helpers used when loading string files. Executing a strings file, walking
    directories and printing tracebacks are not part of this model. */
module I18n {
  import opened Wrappers
  import opened Strings

  const DefaultLang: string := "en"

  /** `find_i18n_namespace(path)`: the directory of the path once "/i18n" is removed. */
  function FindNamespace(path: string): string {
    DirName(LStrips(path, "/i18n"))
  }

  /** The namespace of a strings page "/i18n<ns>/<file>" is `ns`, or "/" for the top level. */
  lemma FindNamespaceOf(ns: string, file: string)
    requires ns == [] || (ns[0] == '/' && ns[|ns| - 1] != '/')
    requires '/' !in file
    ensures FindNamespace("/i18n" + ns + "/" + file) == if ns == [] then "/" else ns
  {
    var path := "/i18n" + ns + "/" + file;
    assert StartsWith(path, "/i18n") && path[5..] == ns + "/" + file;
    DirNameOf(ns, file);
  }

  /** The directory of "<ns>/<file>" is `ns`, or "/" when `ns` is empty. */
  lemma DirNameOf(ns: string, file: string)
    requires ns == [] || (ns[0] == '/' && ns[|ns| - 1] != '/')
    requires '/' !in file
    ensures DirName(ns + "/" + file) == if ns == [] then "/" else ns
  {
    var p := ns + "/" + file;
    var slash := |ns|;
    assert p[slash + 1..] == file;
    LastSlash(p, slash);
    var head := p[..slash + 1];
    assert head == ns + "/";
    if ns != [] {
      assert head[|head| - 2] != '/';
      assert head[..|head| - 1] == ns;
    }
  }

  lemma LastSlash(p: string, i: nat)
    requires i < |p| && p[i] == '/' && '/' !in p[i + 1..]
    ensures LastIndexOf(p, '/') == Some(i)
  {
  }

  /** `dirstrip(f, dir)`: the directory prefix removed, then one leading '/'. */
  function DirStrip(f: string, dir: string): (r: string)
    ensures StartsWith(f, dir) && StartsWith(f[|dir|..], "/") ==> r == f[|dir| + 1..]
    ensures StartsWith(f, dir) && !StartsWith(f[|dir|..], "/") ==> r == f[|dir|..]
  {
    LStrips(LStrips(f, dir), "/")
  }

  /** A file under a directory comes back relative to it, however the directory is written. */
  lemma DirStripRelative(dir: string, rel: string)
    requires !StartsWith(rel, "/")
    ensures DirStrip(dir + rel, dir) == rel
    ensures DirStrip(dir + "/" + rel, dir) == rel
  {
    assert StartsWith(dir + rel, dir) && (dir + rel)[|dir|..] == rel;
    assert StartsWith(dir + "/" + rel, dir) && (dir + "/" + rel)[|dir|..] == "/" + rel;
  }

  /** `load_strings`' `parse_path`: the namespace is "/" followed by the directory of the
      relative path, the language the extension without its dot. */
  function ParsePath(path: string): (r: (string, string))
    ensures r.0 == "/" + DirName(path)
    ensures '.' !in r.1 && '/' !in r.1
  {
    var ext := SplitExt(path).1;
    ("/" + DirName(path), if ext == [] then [] else ext[1..])
  }

  /** The language a request asks for: the `lang` query parameter, else the `HTTP_LANG`
      cookie, else the first two characters of the first Accept-Language entry, else "".
      The query parameter and cookie are given as read (None when absent). */
  function RequestLang(query: Option<string>, cookie: Option<string>, acceptLanguage: string): (r: string)
    ensures query.Some? && query.value != [] ==> r == query.value
    ensures (query.None? || query.value == []) && cookie.Some? && cookie.value != [] ==> r == cookie.value
    ensures (query.None? || query.value == []) && (cookie.None? || cookie.value == []) ==>
      r == HeaderLang(acceptLanguage)
  {
    if query.Some? && query.value != [] then query.value
    else if cookie.Some? && cookie.value != [] then cookie.value
    else HeaderLang(acceptLanguage)
  }

  /** `parse_lang_header`: the header split at each comma (and the spaces after it), and the
      first two characters of the first piece. */
  function HeaderLang(header: string): (r: string)
    ensures |r| <= 2 && ',' !in r
    ensures StartsWith(header, r)
  {
    var first := match IndexOf(header, ',') case None => header case Some(i) => header[..i];
    assert forall k :: 0 <= k < |first| ==> first[k] == header[k];
    if |first| <= 2 then first else first[..2]
  }

  /** A string table: key to text. */
  type Table = map<string, string>

  /** `i18n`: the string tables by (namespace, language). */
  class Translations {
    var data: map<(string, string), Table>

    constructor ()
      ensures data == map[]
    {
      data := map[];
    }

    /** `get_count(namespace, lang)`: the size of the table, the default language standing
        in for a missing or empty `lang`; 0 for an unknown table. */
    function Count(namespace: string, lang: Option<string>): (n: nat)
      reads this
      ensures var l := if lang.Some? && lang.value != [] then lang.value else DefaultLang;
        n == if (namespace, l) in data then |data[(namespace, l)]| else 0
    {
      var l := if lang.Some? && lang.value != [] then lang.value else DefaultLang;
      if (namespace, l) in data then |data[(namespace, l)]| else 0
    }

    /** `_set_strings`: the table is replaced. */
    method SetStrings(namespace: string, lang: string, table: Table)
      modifies this
      ensures data == old(data)[(namespace, lang) := table]
    {
      data := data[(namespace, lang) := table];
    }

    /** `_update_strings`: the table is created when missing and the new entries merged
        into it, overriding the old ones. */
    method UpdateStrings(namespace: string, lang: string, table: Table)
      modifies this
      ensures (namespace, lang) in data
      ensures forall k :: k in table ==> k in data[(namespace, lang)] && data[(namespace, lang)][k] == table[k]
      ensures (namespace, lang) in old(data) ==> forall k :: k in old(data)[(namespace, lang)] && k !in table ==>
        k in data[(namespace, lang)] && data[(namespace, lang)][k] == old(data)[(namespace, lang)][k]
      ensures forall k :: k in data[(namespace, lang)] ==> k in table || ((namespace, lang) in old(data) && k in old(data)[(namespace, lang)])
      ensures forall nl :: nl != (namespace, lang) ==> (nl in data <==> nl in old(data)) && (nl in data ==> data[nl] == old(data)[nl])
    {
      var current := if (namespace, lang) in data then data[(namespace, lang)] else map[];
      data := data[(namespace, lang) := current + table];
    }

    /** `getkeys(namespace, lang)`: the keys of the language's table and of the default
        language's table, sorted, each once. */
    method GetKeys(namespace: string, lang: string) returns (keys: seq<string>)
      ensures SortedStrings(keys) && Distinct(keys)
      ensures forall k :: k in keys <==> k in Table(namespace, lang) || k in Table(namespace, DefaultLang)
    {
      var all := Table(namespace, lang).Keys + Table(namespace, DefaultLang).Keys;
      keys := SortedSet(all);
    }

    /** The table for a namespace and language, empty when there is none. */
    function Table(namespace: string, lang: string): Table
      reads this
    {
      if (namespace, lang) in data then data[(namespace, lang)] else map[]
    }

    /** `get_namespaces()`: every namespace with a table, sorted, each once. */
    method Namespaces() returns (r: seq<string>)
      ensures SortedStrings(r) && Distinct(r)
      ensures forall ns :: ns in r <==> exists l :: (ns, l) in data
    {
      r := SortedSet(set k | k in data :: k.0);
    }

    /** `get_languages()`: every language with a table, sorted, each once. */
    method Languages() returns (r: seq<string>)
      ensures SortedStrings(r) && Distinct(r)
      ensures forall l :: l in r <==> exists ns :: (ns, l) in data
    {
      r := SortedSet(set k | k in data :: k.1);
    }

    /** `str(i18n_string)`: the key looked up in the current language's table (the default
        language's when the current one has no table or an empty one), then in the default
        language's table; an empty text counts as missing, and the key stands for itself
        when neither has it. */
    function Render(namespace: string, key: string, lang: string): (text: string)
      reads this
      ensures text == key || text in Table(namespace, lang).Values || text in Table(namespace, DefaultLang).Values
      ensures text != key ==> text != []
    {
      var defaults := Table(namespace, DefaultLang);
      var current := if Table(namespace, lang) != map[] then Table(namespace, lang) else defaults;
      if key in current && current[key] != [] then current[key]
      else if key in defaults && defaults[key] != [] then defaults[key]
      else key
    }
  }

  predicate Distinct<T(==)>(s: seq<T>) {
    forall i, j :: 0 <= i < j < |s| ==> s[i] != s[j]
  }

  /** `sorted(s)` for a set of strings. */
  method SortedSet(s: set<string>) returns (r: seq<string>)
    ensures SortedStrings(r) && Distinct(r)
    ensures forall x :: x in r <==> x in s
  {
    var items: seq<string> := [];
    var rest := s;
    while rest != {}
      invariant Distinct(items)
      invariant forall x :: x in items ==> x !in rest
      invariant forall x :: x in s <==> x in items || x in rest
      decreases |rest|
    {
      var x :| x in rest;
      items := items + [x];
      rest := rest - {x};
    }
    r := SortStrings(items);
    assert forall x :: x in r <==> x in multiset(items);
    forall x ensures multiset(r)[x] <= 1 {
      DistinctCount(items, x);
    }
    CountsDistinct(r);
  }

  lemma CountsDistinct(r: seq<string>)
    requires forall x :: multiset(r)[x] <= 1
    ensures Distinct(r)
  {
    forall i, j | 0 <= i < j < |r| ensures r[i] != r[j] {
      var a, b := r[..j], r[j..];
      assert r == a + b;
      assert multiset(r)[r[j]] == multiset(a)[r[j]] + multiset(b)[r[j]];
      assert b[0] == r[j];
      assert multiset(a)[r[j]] == 0;
      assert a[i] == r[i];
    }
  }

  lemma DistinctCount(s: seq<string>, x: string)
    requires Distinct(s)
    ensures multiset(s)[x] <= 1
  {
    if s != [] {
      assert Distinct(s[1..]);
      DistinctCount(s[1..], x);
      assert s == [s[0]] + s[1..];
      assert s[0] !in s[1..];
    }
  }

  /** A table that was just set is what a string in that language renders from. */
  method SetThenRender(t: Translations, namespace: string, lang: string, table: Table, key: string) returns (text: string)
    requires key in table && table[key] != []
    modifies t
    ensures text == table[key]
  {
    t.SetStrings(namespace, lang, table);
    text := t.Render(namespace, key, lang);
  }

  /** The default language's text is the fallback for every language without one. */
  lemma RenderFallsBack(t: Translations, namespace: string, key: string, lang: string)
    requires key !in t.Table(namespace, lang) || t.Table(namespace, lang)[key] == []
    requires key in t.Table(namespace, DefaultLang) && t.Table(namespace, DefaultLang)[key] != []
    ensures t.Render(namespace, key, lang) == t.Table(namespace, DefaultLang)[key]
  {
  }
}
