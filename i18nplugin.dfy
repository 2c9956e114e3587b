/** The i18n plugin (infogami/plugins/i18n/code.py): string tables kept as wiki pages whose
    property names carry a "string_" prefix, the page keys that hold them, and the path
    joining used to build those keys. Reading the pages from the database is not part of
    this model. */
module I18nPlugin {
  import opened Wrappers
  import opened Strings
  import I18n

  const Prefix: string := "string_"

  /** `stringify(d)`: every key gets the "string_" prefix. */
  function Stringify<V>(d: map<string, V>): (r: map<string, V>)
    ensures forall k :: k in d ==> Prefix + k in r && r[Prefix + k] == d[k]
    ensures forall k :: k in r ==> StartsWith(k, Prefix) && k[|Prefix|..] in d && r[k] == d[k[|Prefix|..]]
  {
    PrefixCancels();
    map k | k in d :: Prefix + k := d[k]
  }

  /** The prefix can be taken off again, so prefixing is one-to-one. */
  lemma PrefixCancels()
    ensures forall a: string :: (Prefix + a)[|Prefix|..] == a && StartsWith(Prefix + a, Prefix)
    ensures forall a: string, b: string :: Prefix + a == Prefix + b ==> a == b
  {
    forall a: string ensures (Prefix + a)[|Prefix|..] == a && StartsWith(Prefix + a, Prefix) {
    }
    forall a: string, b: string | Prefix + a == Prefix + b ensures a == b {
      assert (Prefix + a)[|Prefix|..] == a;
    }
  }

  /** A prefixed key is the prefix followed by the rest. */
  lemma PrefixSplits()
    ensures forall k: string :: StartsWith(k, Prefix) ==> k == Prefix + k[|Prefix|..]
  {
    forall k: string | StartsWith(k, Prefix) ensures k == Prefix + k[|Prefix|..] {
      assert k == k[..|Prefix|] + k[|Prefix|..];
    }
  }

  /** `unstringify(d)`: keys without the prefix are dropped, the prefix is removed from the
      others. */
  function Unstringify<V>(d: map<string, V>): (r: map<string, V>)
    ensures forall k :: k in r <==> Prefix + k in d
    ensures forall k :: k in r ==> r[k] == d[Prefix + k]
  {
    PrefixSplits();
    PrefixCancels();
    map k | k in d && StartsWith(k, Prefix) :: k[|Prefix|..] := d[k]
  }

  /** Unprefixing what was prefixed gives the dictionary back. */
  lemma UnstringifyStringify<V>(d: map<string, V>)
    ensures Unstringify(Stringify(d)) == d
  {
    PrefixCancels();
  }

  /** Prefixing what was unprefixed keeps exactly the prefixed entries. */
  lemma StringifyUnstringify<V>(d: map<string, V>)
    ensures Stringify(Unstringify(d)) == map k | k in d && StartsWith(k, Prefix) :: d[k]
  {
    PrefixSplits();
  }

  /** One step of `pathjoin`: a leading '/' of the component is dropped, and '/' goes in
      between unless the path is empty or already ends with one. */
  function JoinOne(path: string, b: string): string {
    var c := if StartsWith(b, "/") then b[1..] else b;
    if path == [] || EndsWith(path, "/") then path + c else path + "/" + c
  }

  /** What `pathjoin(a, *p)` computes. */
  function PathJoinOf(a: string, p: seq<string>): string
    decreases |p|
  {
    if p == [] then a else PathJoinOf(JoinOne(a, p[0]), p[1..])
  }

  /** `pathjoin(a, *p)`. */
  method PathJoin(a: string, p: seq<string>) returns (path: string)
    ensures path == PathJoinOf(a, p)
  {
    path := a;
    for i := 0 to |p|
      invariant PathJoinOf(path, p[i..]) == PathJoinOf(a, p)
    {
      assert p[i..][0] == p[i] && p[i..][1..] == p[i + 1..];
      var b := p[i];
      if StartsWith(b, "/") {
        b := b[1..];
      }
      if path == [] || EndsWith(path, "/") {
        path := path + b;
      } else {
        path := path + "/" + b;
      }
    }
    assert p[|p|..] == [];
  }

  /** A component that is neither empty nor begins or ends with '/'. */
  predicate Plain(c: string) {
    c != [] && c[0] != '/' && c[|c| - 1] != '/'
  }

  /** Joining plain components onto a path that does not end in '/' puts exactly one '/'
      before each. */
  lemma {:induction false} PathJoinPlain(a: string, p: seq<string>)
    requires a != [] && a[|a| - 1] != '/'
    requires forall i :: 0 <= i < |p| ==> Plain(p[i])
    ensures PathJoinOf(a, p) == a + Slashed(p)
    decreases |p|
  {
    if p != [] {
      JoinOnePlain(a, p[0]);
      PathJoinPlain(JoinOne(a, p[0]), p[1..]);
      SlashAssoc(a, p[0], Slashed(p[1..]));
    }
  }

  /** One plain component after a path that does not end in '/'. */
  lemma JoinOnePlain(a: string, c: string)
    requires a != [] && a[|a| - 1] != '/'
    requires Plain(c)
    ensures JoinOne(a, c) == a + "/" + c
    ensures JoinOne(a, c) != [] && JoinOne(a, c)[|JoinOne(a, c)| - 1] != '/'
  {
    assert !StartsWith(c, "/");
    assert !EndsWith(a, "/");
    var j := a + "/" + c;
    assert j[|j| - 1] == c[|c| - 1];
  }

  lemma SlashAssoc(a: string, c: string, t: string)
    ensures a + "/" + c + t == a + ("/" + c + t)
  {
  }

  /** Each component preceded by '/'. */
  function Slashed(p: seq<string>): string {
    if p == [] then [] else "/" + p[0] + Slashed(p[1..])
  }

  /** The documented example: "/i18n" joined with "/type/type" and "strings.en". */
  lemma PathJoinExample()
    ensures PathJoinOf("/i18n", ["/type/type", "strings.en"]) == "/i18n/type/type/strings.en"
  {
    ExampleParts();
    PathJoinTwo("/i18n", "type/type", "strings.en");
  }

  /** The pieces of the documented example. */
  lemma ExampleParts()
    ensures Plain("type/type") && Plain("strings.en") && "/type/type" == "/" + "type/type"
    ensures "/i18n" + "/" + "type/type" + "/" + "strings.en" == "/i18n/type/type/strings.en"
  {
  }

  /** A path joined with a component that begins with '/' and then a plain one. */
  lemma PathJoinTwo(a: string, b: string, c: string)
    requires a != [] && a[|a| - 1] != '/' && Plain(b) && Plain(c)
    ensures PathJoinOf(a, ["/" + b, c]) == a + "/" + b + "/" + c
  {
    var p := ["/" + b, c];
    JoinOneLeadingSlash(a, b);
    JoinOnePlain(a, b);
    var j1 := JoinOne(a, p[0]);
    assert j1 == a + "/" + b;
    JoinOnePlain(j1, c);
    assert p[1..] == [c] && [c][0] == c && [c][1..] == [];
    assert PathJoinOf(j1, [c]) == j1 + "/" + c;
  }

  /** A leading '/' on a component does not change the result. */
  lemma JoinOneLeadingSlash(path: string, b: string)
    requires b == [] || b[0] != '/'
    ensures JoinOne(path, "/" + b) == JoinOne(path, b)
  {
    assert StartsWith("/" + b, "/") && ("/" + b)[1..] == b;
  }

  /** The groups of `^/i18n(/.*)?/strings\.([^/]*)$` on a page key: the namespace (the
      optional group, "/" when it is absent) and the language. */
  function MatchStrings(key: string): (r: Option<(string, string)>)
    ensures r.Some? ==> StartsWith(key, "/i18n") && '/' !in r.value.1
    ensures r.Some? ==> r.value.0 == "/" || (r.value.0 != [] && r.value.0[0] == '/' && '\n' !in r.value.0)
  {
    match LastIndexOf(key, '/')
    case None => None
    case Some(i) =>
      var head, tail := key[..i], key[i..];
      if !StartsWith(tail, "/strings.") || !StartsWith(head, "/i18n") then None
      else
        var ns := head[5..];
        var lang := tail[9..];
        assert lang == key[i + 1..][8..];
        assert StartsWith(key, "/i18n") by {
          assert key[..5] == head[..5];
        }
        if ns == [] then Some(("/", lang))
        else if ns[0] == '/' && '\n' !in ns then Some((ns, lang))
        else None
  }

  /** Every page "/i18n<ns>/strings.<lang>" matches, with its namespace and language. */
  lemma MatchStringsOf(ns: string, lang: string)
    requires ns == [] || (ns[0] == '/' && '\n' !in ns)
    requires '/' !in lang
    ensures MatchStrings("/i18n" + ns + "/strings." + lang) == Some((if ns == [] then "/" else ns, lang))
  {
    StringsKeySplit(ns, lang);
    StringsKeyParts(ns, lang);
  }

  /** The last '/' of "/i18n<ns>/strings.<lang>" is the one before "strings.". */
  lemma StringsKeySplit(ns: string, lang: string)
    requires '/' !in lang
    ensures var key, i := "/i18n" + ns + "/strings." + lang, 5 + |ns|;
      LastIndexOf(key, '/') == Some(i) && key[..i] == "/i18n" + ns && key[i..] == "/strings." + lang
  {
    var key := "/i18n" + ns + "/strings." + lang;
    var i := 5 + |ns|;
    assert '/' !in "strings." + lang;
    assert key == ("/i18n" + ns) + ['/'] + ("strings." + lang);
    LastIndexOfConcat("/i18n" + ns, '/', "strings." + lang);
    assert key[..i] == "/i18n" + ns;
    assert key[i..] == "/strings." + lang;
  }

  /** The two halves of a strings page key, with their prefixes. */
  lemma StringsKeyParts(ns: string, lang: string)
    ensures StartsWith("/i18n" + ns, "/i18n") && ("/i18n" + ns)[5..] == ns
    ensures StartsWith("/strings." + lang, "/strings.") && ("/strings." + lang)[9..] == lang
  {
  }

  /** On the pages the plugin loads, the namespace it reads from the key is the one
      `find_i18n_namespace` gives. */
  lemma MatchAgreesWithFindNamespace(key: string, ns: string, lang: string)
    requires ns == [] || (ns[0] == '/' && '\n' !in ns && ns[|ns| - 1] != '/')
    requires '/' !in lang
    requires key == "/i18n" + ns + "/strings." + lang
    ensures MatchStrings(key).Some? && MatchStrings(key).value.0 == I18n.FindNamespace(key)
  {
    MatchStringsOf(ns, lang);
    var file := "strings." + lang;
    assert '/' !in file;
    I18n.FindNamespaceOf(ns, file);
    KeyOfFile(ns, lang);
  }

  lemma KeyOfFile(ns: string, lang: string)
    ensures "/i18n" + ns + "/" + ("strings." + lang) == "/i18n" + ns + "/strings." + lang
  {
    assert "/" + ("strings." + lang) == "/strings." + lang;
  }

  /** `load(key, data)`: a strings page replaces the table of its namespace and language
      with its unprefixed data; any other page changes nothing. */
  method Load(t: I18n.Translations, key: string, data: map<string, string>)
    modifies t
    ensures MatchStrings(key).None? ==> t.data == old(t.data)
    ensures MatchStrings(key).Some? ==>
      t.data == old(t.data)[MatchStrings(key).value := Unstringify(data)]
  {
    var m := MatchStrings(key);
    if m.Some? {
      t.SetStrings(m.value.0, m.value.1, Unstringify(data));
    }
  }
}
