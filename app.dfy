/** The application core (infogami/utils/app.py): request paths are normalised before
    anything else runs, and a request is dispatched either to the special page whose
    pattern matches its path or to the mode named by its `m` query parameter.
    `os.path.normpath`, regular-expression matching and UTF-8 validation are library
    behaviour and are parameters here. */
module App {
  import opened Wrappers
  import opened Strings

  /** `pat` occurs in `s` at position `i`. */
  predicate OccursAt(s: string, pat: string, i: int) {
    0 <= i && i + |pat| <= |s| && s[i..i + |pat|] == pat
  }

  /** `pat` occurs somewhere in `s`. */
  predicate Occurs(s: string, pat: string) {
    exists i :: 0 <= i <= |s| && OccursAt(s, pat, i)
  }

  lemma OccursTail(s: string, pat: string)
    requires s != []
    ensures Occurs(s[1..], pat) ==> Occurs(s, pat)
  {
    if Occurs(s[1..], pat) {
      var i :| 0 <= i <= |s[1..]| && OccursAt(s[1..], pat, i);
      assert s[i + 1..i + 1 + |pat|] == s[1..][i..i + |pat|];
      assert OccursAt(s, pat, i + 1);
    }
  }

  /** `s.replace(pat, rep)`: occurrences replaced left to right, without overlapping. */
  function ReplaceAll(s: string, pat: string, rep: string): (r: string)
    requires pat != []
    ensures !Occurs(s, pat) ==> r == s
    decreases |s|
  {
    if |s| < |pat| then s
    else if s[..|pat|] == pat then
      assert OccursAt(s, pat, 0);
      rep + ReplaceAll(s[|pat|..], pat, rep)
    else
      OccursTail(s, pat);
      [s[0]] + ReplaceAll(s[1..], pat, rep)
  }

  /** Replacing starts with an occurrence at the front. */
  lemma ReplaceFront(pat: string, t: string, rep: string)
    requires pat != []
    ensures ReplaceAll(pat + t, pat, rep) == rep + ReplaceAll(t, pat, rep)
  {
    assert (pat + t)[..|pat|] == pat;
    assert (pat + t)[|pat|..] == t;
  }

  /** Two slashes in a row. */
  predicate DoubleSlash(s: string) {
    exists i :: 0 <= i < |s| - 1 && s[i] == '/' && s[i + 1] == '/'
  }

  lemma DoubleSlashOccurs(s: string)
    ensures Occurs(s, "//") <==> DoubleSlash(s)
    ensures Occurs(s, "///") ==> DoubleSlash(s)
  {
    if Occurs(s, "//") {
      var i :| 0 <= i <= |s| && OccursAt(s, "//", i);
      assert s[i] == s[i..i + 2][0];
      assert s[i + 1] == s[i..i + 2][1];
    }
    if DoubleSlash(s) {
      var i :| 0 <= i < |s| - 1 && s[i] == '/' && s[i + 1] == '/';
      assert OccursAt(s, "//", i);
    }
    if Occurs(s, "///") {
      var i :| 0 <= i <= |s| && OccursAt(s, "///", i);
      assert s[i] == s[i..i + 3][0];
      assert s[i + 1] == s[i..i + 3][1];
    }
  }

  lemma DoubleSlashCons(c: char, t: string)
    ensures DoubleSlash(t) ==> DoubleSlash([c] + t)
  {
    if DoubleSlash(t) {
      var i :| 0 <= i < |t| - 1 && t[i] == '/' && t[i + 1] == '/';
      assert ([c] + t)[i + 1] == '/' && ([c] + t)[i + 2] == '/';
    }
  }

  /** Three slashes after a doubled root mean a doubled slash after a single one. */
  lemma TripleAfterRoot(t: string)
    ensures Occurs("//" + t, "///") ==> DoubleSlash("/" + t)
  {
    var s := "//" + t;
    if Occurs(s, "///") {
      var i :| 0 <= i <= |s| && OccursAt(s, "///", i);
      assert s[i + 1] == s[i..i + 3][1] && s[i + 2] == s[i..i + 3][2];
      assert ("/" + t)[i] == '/' && ("/" + t)[i + 1] == '/';
    }
  }

  /** The two replacements that follow `os.path.normpath`. */
  function Collapse(s: string): (r: string)
    ensures !DoubleSlash(s) ==> r == s
  {
    DoubleSlashOccurs(s);
    var once := ReplaceAll(s, "///", "/");
    DoubleSlashOccurs(once);
    ReplaceAll(once, "//", "/")
  }

  /** `os.path.normpath` keeps two leading slashes; collapsing makes them one. */
  lemma CollapseDoubleRoot(t: string)
    requires !DoubleSlash("/" + t)
    ensures Collapse("//" + t) == "/" + t
  {
    DoubleSlashCons('/', t);
    TripleAfterRoot(t);
    DoubleSlashOccurs(t);
    ReplaceFront("//", t, "/");
  }

  /** `normpath(path)`: '/' for a path that is not valid UTF-8; otherwise
      `os.path.normpath`, then '///' and '//' collapsed to '/', then spaces made '_'. */
  function NormPath(path: string, utf8: string -> bool, osnorm: string -> string): (r: string)
    ensures !utf8(path) ==> r == "/"
    ensures utf8(path) ==> ' ' !in r && |r| == |Collapse(osnorm(path))|
    ensures utf8(path) ==> forall i :: 0 <= i < |r| ==> (r[i] == '/' <==> Collapse(osnorm(path))[i] == '/')
  {
    if !utf8(path) then "/"
    else ReplaceChar(Collapse(osnorm(path)), ' ', '_')
  }

  /** A normalised path without doubled slashes only has its spaces changed. */
  lemma NormPathSpaces(path: string, utf8: string -> bool, osnorm: string -> string)
    requires utf8(path) && !DoubleSlash(osnorm(path))
    ensures NormPath(path, utf8, osnorm) == ReplaceChar(osnorm(path), ' ', '_')
  {
  }

  /** Two leading slashes, which `os.path.normpath` keeps, become one. */
  lemma NormPathDoubleRoot(path: string, utf8: string -> bool, osnorm: string -> string, t: string)
    requires utf8(path) && osnorm(path) == "//" + t && !DoubleSlash("/" + t)
    ensures NormPath(path, utf8, osnorm) == "/" + ReplaceChar(t, ' ', '_')
  {
    CollapseDoubleRoot(t);
    var r := NormPath(path, utf8, osnorm);
    assert r == ReplaceChar("/" + t, ' ', '_');
    assert r == "/" + ReplaceChar(t, ' ', '_');
  }

  /** Doctest: spaces become underscores. */
  lemma NormPathSpaceDoctest(utf8: string -> bool, osnorm: string -> string)
    requires utf8("/a b") && osnorm("/a b") == "/a b"
    ensures NormPath("/a b", utf8, osnorm) == "/a_b"
  {
    NoDoubleSlash3('a', ' ', 'b');
    assert "/a b" == ['/', 'a', ' ', 'b'];
  }

  /** Doctest: a doubled slash inside the path, which `os.path.normpath` removes. */
  lemma NormPathInnerDoctest(utf8: string -> bool, osnorm: string -> string)
    requires utf8("/a//b") && osnorm("/a//b") == "/a/b"
    ensures NormPath("/a//b", utf8, osnorm) == "/a/b"
  {
    NoDoubleSlash3('a', '/', 'b');
    assert "/a/b" == ['/', 'a', '/', 'b'];
  }

  /** Doctest: a doubled root and a trailing slash. */
  lemma NormPathRootDoctest(utf8: string -> bool, osnorm: string -> string)
    requires utf8("//a/b/") && osnorm("//a/b/") == "//a/b"
    ensures NormPath("//a/b/", utf8, osnorm) == "/a/b"
  {
    NoDoubleSlash3('a', '/', 'b');
    assert "/a/b" == ['/', 'a', '/', 'b'] && "//a/b" == "//" + "a/b";
    NormPathDoubleRoot("//a/b/", utf8, osnorm, "a/b");
    assert ReplaceChar("a/b", ' ', '_') == "a/b";
  }

  lemma NoDoubleSlash3(a: char, b: char, c: char)
    requires a != '/' && c != '/'
    ensures !DoubleSlash(['/', a, b, c])
  {
  }

  /** A valid path that `os.path.normpath` leaves alone and that has no doubled slash and
      no space is already normal. */
  lemma NormalPathFixed(path: string, utf8: string -> bool, osnorm: string -> string)
    requires utf8(path) && osnorm(path) == path && !DoubleSlash(path) && ' ' !in path
    ensures NormPath(path, utf8, osnorm) == path
  {
    NormPathSpaces(path, utf8, osnorm);
  }

  /** Making spaces underscores creates no doubled slash. */
  lemma SpacesKeepSlashes(x: string)
    ensures DoubleSlash(ReplaceChar(x, ' ', '_')) ==> DoubleSlash(x)
  {
    var y := ReplaceChar(x, ' ', '_');
    if DoubleSlash(y) {
      var i :| 0 <= i < |y| - 1 && y[i] == '/' && y[i + 1] == '/';
      assert x[i] == '/' && x[i + 1] == '/';
    }
  }

  /** What the path processor does with a request. */
  datatype Response = ToHandler | Redirect(location: string) | NotFound

  /** `path_processor(handler)` as written: `['GET' or 'HEAD']` is the list `['GET']`, so
      only GET requests are redirected to the normal path. */
  function PathProcessorAsWritten(path: string, query: string, verb: string, utf8: string -> bool, osnorm: string -> string): (r: Response)
    ensures r == ToHandler <==> NormPath(path, utf8, osnorm) == path
    ensures r.Redirect? <==> NormPath(path, utf8, osnorm) != path && verb == "GET"
    ensures r.Redirect? ==> r.location == NormPath(path, utf8, osnorm) + query
  {
    var npath := NormPath(path, utf8, osnorm);
    if npath != path then
      if verb in ["GET"] then Redirect(npath + query) else NotFound
    else ToHandler
  }

  /** The processor as intended: GET and HEAD requests are redirected. */
  function PathProcessor(path: string, query: string, verb: string, utf8: string -> bool, osnorm: string -> string): (r: Response)
    ensures r == ToHandler <==> NormPath(path, utf8, osnorm) == path
    ensures r.Redirect? <==> NormPath(path, utf8, osnorm) != path && (verb == "GET" || verb == "HEAD")
    ensures r.Redirect? ==> r.location == NormPath(path, utf8, osnorm) + query
  {
    var npath := NormPath(path, utf8, osnorm);
    if npath != path then
      if verb == "GET" || verb == "HEAD" then Redirect(npath + query) else NotFound
    else ToHandler
  }

  /** A HEAD request for a path with a space is answered 404 as written, where the intended
      processor redirects it to the underscored path. */
  lemma HeadNotRedirectedAsWritten(utf8: string -> bool, osnorm: string -> string)
    requires utf8("/a b") && osnorm("/a b") == "/a b"
    ensures PathProcessorAsWritten("/a b", "", "HEAD", utf8, osnorm) == NotFound
    ensures PathProcessor("/a b", "", "HEAD", utf8, osnorm) == Redirect("/a_b")
  {
    NormPathSpaceDoctest(utf8, osnorm);
    assert "/a_b" != "/a b" by {
      assert "/a_b"[2] != "/a b"[2];
    }
  }

  /** The two readings differ only on HEAD requests for paths that are not normal. */
  lemma ProcessorsAgreeExceptHead(path: string, query: string, verb: string, utf8: string -> bool, osnorm: string -> string)
    requires verb != "HEAD"
    ensures PathProcessorAsWritten(path, query, verb, utf8, osnorm) == PathProcessor(path, query, verb, utf8, osnorm)
  {
  }

  /** No redirect loop: the target of a redirect is served, when `os.path.normpath` gives a
      path with at most a doubled root (as POSIX allows) and leaves the result alone. */
  lemma RedirectTargetIsServed(path: string, query: string, verb: string, utf8: string -> bool, osnorm: string -> string, t: string)
    requires utf8(path) && osnorm(path) == "//" + t && !DoubleSlash("/" + t)
    requires var r := NormPath(path, utf8, osnorm); utf8(r) && osnorm(r) == r
    ensures PathProcessor(NormPath(path, utf8, osnorm), query, verb, utf8, osnorm) == ToHandler
  {
    NormPathDoubleRoot(path, utf8, osnorm, t);
    var r := NormPath(path, utf8, osnorm);
    var u := ReplaceChar(t, ' ', '_');
    assert r == "/" + u;
    assert ReplaceChar("/" + t, ' ', '_') == r;
    SpacesKeepSlashes("/" + t);
    NormalPathFixed(r, utf8, osnorm);
  }

  /** The same when `os.path.normpath` gives a path without doubled slashes. */
  lemma RedirectTargetIsServedSingleRoot(path: string, query: string, verb: string, utf8: string -> bool, osnorm: string -> string)
    requires utf8(path) && !DoubleSlash(osnorm(path))
    requires var r := NormPath(path, utf8, osnorm); utf8(r) && osnorm(r) == r
    ensures PathProcessor(NormPath(path, utf8, osnorm), query, verb, utf8, osnorm) == ToHandler
  {
    NormPathSpaces(path, utf8, osnorm);
    SpacesKeepSlashes(osnorm(path));
    NormalPathFixed(NormPath(path, utf8, osnorm), utf8, osnorm);
  }

  /** A page or mode class: the request methods it defines. Every class inherits HEAD and
      GET from its base class. */
  datatype PageClass = PageClass(name: string, own: set<string>)

  function Methods(c: PageClass): set<string> {
    c.own + {"GET", "HEAD"}
  }

  /** Where `delegate()` sends a request. */
  datatype Outcome =
    | Dispatch(cls: PageClass, verb: string, args: seq<string>)
    | SeeOther(path: string, query: map<string, string>)
    | NoMethod(verb: string)

  /** The class's method for the verb, called with the arguments; `web.nomethod` when it has none. */
  function Invoke(c: PageClass, verb: string, args: seq<string>): (r: Outcome)
    ensures r.NoMethod? <==> verb !in c.own && verb != "GET" && verb != "HEAD"
    ensures r.Dispatch? ==> r.cls == c && r.args == args && r.verb == verb
    ensures r.NoMethod? ==> r.verb == verb
  {
    if verb in Methods(c) then Dispatch(c, verb, args) else NoMethod(verb)
  }

  /** `web.input(_method='GET').get('m', 'view')`. */
  function ModeOf(query: map<string, string>): (m: string)
    ensures "m" in query ==> m == query["m"]
    ensures "m" !in query ==> m == "view"
  {
    if "m" in query then query["m"] else "view"
  }

  /** The first special page, in `pages` order, whose pattern matches the whole path;
      `fullmatch(pattern, path)` gives the groups of `re.match('^' + pattern + '$', path)`. */
  function FirstPage(pages: seq<(string, PageClass)>, path: string, fullmatch: (string, string) -> Option<seq<string>>): (r: Option<nat>)
    ensures r.None? <==> forall j :: 0 <= j < |pages| ==> fullmatch(pages[j].0, path).None?
    ensures r.Some? ==>
      (r.value < |pages| && fullmatch(pages[r.value].0, path).Some? &&
       forall j :: 0 <= j < r.value ==> fullmatch(pages[j].0, path).None?)
  {
    if pages == [] then None
    else if fullmatch(pages[0].0, path).Some? then Some(0)
    else
      match FirstPage(pages[1..], path, fullmatch)
      case None => None
      case Some(i) =>
        assert forall j :: 1 <= j <= i ==> pages[j] == pages[1..][j - 1];
        Some(i + 1)
  }

  /** `delegate()`: the first special page matching the path gets the request with the
      match's groups; otherwise the mode class named by `m` (default "view") gets it with
      the path, and an unknown mode redirects to the same path without `m`. */
  method Delegate(pages: seq<(string, PageClass)>, modes: map<string, PageClass>, path: string, verb: string,
                  query: map<string, string>, fullmatch: (string, string) -> Option<seq<string>>)
      returns (r: Outcome)
    ensures match FirstPage(pages, path, fullmatch)
      case Some(i) => r == Invoke(pages[i].1, verb, fullmatch(pages[i].0, path).value)
      case None =>
        if ModeOf(query) in modes then r == Invoke(modes[ModeOf(query)], verb, [path])
        else r == SeeOther(path, query - {"m"})
  {
    var found := false;
    var cls: PageClass;
    var args: seq<string>;
    for i := 0 to |pages|
      invariant forall j :: 0 <= j < i ==> fullmatch(pages[j].0, path).None?
    {
      var m := fullmatch(pages[i].0, path);
      if m.Some? {
        return Invoke(pages[i].1, verb, m.value);
      }
    }
    var what := ModeOf(query);
    if what !in modes {
      return SeeOther(path, query - {"m"});
    }
    r := Invoke(modes[what], verb, [path]);
  }

  /** HEAD and GET always reach a class: only other methods can be refused. */
  lemma HeadAndGetNeverRefused(c: PageClass, verb: string, args: seq<string>)
    requires verb == "GET" || verb == "HEAD"
    ensures Invoke(c, verb, args).Dispatch?
  {
  }

  /** With no special page matching and no `m`, the request goes to the view mode with the
      path as its argument. */
  lemma ViewIsDefault(pages: seq<(string, PageClass)>, modes: map<string, PageClass>, path: string,
                      query: map<string, string>, fullmatch: (string, string) -> Option<seq<string>>)
    requires forall j :: 0 <= j < |pages| ==> fullmatch(pages[j].0, path).None?
    requires "m" !in query && "view" in modes
    ensures FirstPage(pages, path, fullmatch).None?
    ensures Invoke(modes[ModeOf(query)], "GET", [path]) == Dispatch(modes["view"], "GET", [path])
  {
  }
}
