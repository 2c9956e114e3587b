/** The wikitemplates plugin (infogami/plugins/wikitemplates/code.py): templates and macros
    kept as wiki pages, the mapping between a template's name and the page that holds it,
    and the titles and page names given to templates moved into the wiki. Compiling
    templates and saving pages are not part of this model. */
module WikiTemplates {
  import opened Wrappers
  import opened Strings

  /** `WikiSource.process_key`: a regular template "xxx" lives at "templates/xxx.tmpl", a type
      template "type/xxx/yyy" at "type/xxx/yyy.tmpl". */
  function ProcessKey(key: string): (path: string)
    ensures EndsWith(path, ".tmpl")
    ensures StartsWith(key, "type/") ==> path == key + ".tmpl"
    ensures !StartsWith(key, "type/") ==> path == "templates/" + key + ".tmpl"
  {
    var path := if StartsWith(key, "type/") then key + ".tmpl" else "templates/" + key + ".tmpl";
    assert path[|path| - 5..] == ".tmpl";
    path
  }

  /** `WikiSource.unprocess_key`: "templates/" removed from the front and ".tmpl" from the
      end, each when present. */
  function UnprocessKey(path: string): string {
    RStrips(LStrips(path, "templates/"), ".tmpl")
  }

  /** Every template name comes back from the page that holds it. */
  lemma UnprocessProcess(key: string)
    ensures UnprocessKey(ProcessKey(key)) == key
  {
    var path := ProcessKey(key);
    if StartsWith(key, "type/") {
      NotUnderTemplates(path);
      StripsSuffix(key, ".tmpl");
    } else {
      assert StartsWith(path, "templates/") && path[10..] == key + ".tmpl";
      StripsSuffix(key, ".tmpl");
    }
  }

  /** A type page ("ty...") is never under "templates/". */
  lemma NotUnderTemplates(path: string)
    requires |path| >= 2 && path[1] == 'y'
    ensures !StartsWith(path, "templates/")
  {
  }

  lemma StripsSuffix(s: string, suffix: string)
    ensures RStrips(s + suffix, suffix) == s
  {
    assert (s + suffix)[|s + suffix| - |suffix|..] == suffix;
  }

  /** The mapping is not onto: a page "templates/type/a.tmpl" and the page "type/a.tmpl" both
      read as the template "type/a", which is looked up at the second. */
  lemma UnprocessKeyCollides()
    ensures UnprocessKey("templates/type/a.tmpl") == UnprocessKey("type/a.tmpl") == "type/a"
    ensures ProcessKey(UnprocessKey("templates/type/a.tmpl")) != "templates/type/a.tmpl"
  {
    StripsSuffix("type/a", ".tmpl");
    assert "templates/type/a.tmpl" == "templates/" + "type/a.tmpl";
    assert LStrips("templates/type/a.tmpl", "templates/") == "type/a.tmpl";
    NotUnderTemplates("type/a.tmpl");
    assert "type/a.tmpl" == "type/a" + ".tmpl";
  }

  /** `MacroSource.process_key`: macro "foo" lives at "macros/foo". */
  function MacroProcessKey(key: string): (path: string)
    ensures StartsWith(path, "macros/") && path[7..] == key
  {
    "macros/" + key
  }

  /** `MacroSource.unprocess_key`: "macros/" removed when present. */
  function MacroUnprocessKey(path: string): (key: string)
    ensures StartsWith(path, "macros/") ==> MacroProcessKey(key) == path
    ensures !StartsWith(path, "macros/") ==> key == path
  {
    LStrips(path, "macros/")
  }

  /** Every macro name comes back from its page. */
  lemma MacroRoundTrip(key: string)
    ensures MacroUnprocessKey(MacroProcessKey(key)) == key
  {
    assert ("macros/" + key)[7..] == key;
  }

  /** The template source a lookup goes to: the wiki's own (root "") or a user's. */
  datatype Source = Wiki | User(root: Option<string>) | Macros

  /** `getroot()`: "" for the wiki, the user's "wikitemplates.template_root" preference when it
      is set and not blank (None otherwise, including when nobody is logged in), and "" for
      macros, which inherit the wiki's. */
  function Root(source: Source): (r: Option<string>)
    ensures source.User? ==> (r.Some? <==> source.root.Some? && !IsBlank(source.root.value))
    ensures source.User? && r.Some? ==> r == source.root
    ensures !source.User? ==> r == Some("")
  {
    match source
    case User(root) => if root.Some? && Strip(root.value) != "" then root else None
    case _ => Some("")
  }

  /** The page a name is looked up at in a source. */
  function PathOf(source: Source, key: string): string {
    if source.Macros? then MacroProcessKey(key) else ProcessKey(key)
  }

  /** `source[key]`: the compiled template stored at the root followed by the processed key;
      KeyError when there is no root or no such page. */
  function GetItem<T>(source: Source, templates: map<string, T>, key: string): (r: Result<T, string>)
    ensures Root(source).None? ==> r == Err("KeyError")
    ensures r.Ok? <==> Root(source).Some? && Root(source).value + PathOf(source, key) in templates
    ensures r.Ok? ==> r.value == templates[Root(source).value + PathOf(source, key)]
  {
    match Root(source)
    case None => Err("KeyError")
    case Some(root) =>
      var path := root + PathOf(source, key);
      if path in templates then Ok(templates[path]) else Err("KeyError")
  }

  /** `source.keys()`: each page turned back into a name. */
  function Keys(source: Source, pages: seq<string>): (names: seq<string>)
    ensures |names| == |pages|
  {
    seq(|pages|, i requires 0 <= i < |pages| =>
      if source.Macros? then MacroUnprocessKey(pages[i]) else UnprocessKey(pages[i]))
  }

  /** Every template stored in the wiki under its processed name is listed under its name,
      and looking that name up finds it. */
  lemma StoredTemplateListed<T>(source: Source, templates: map<string, T>, pages: seq<string>, key: string)
    requires !source.User?
    requires forall p :: p in templates <==> p in pages
    requires PathOf(source, key) in templates
    ensures key in Keys(source, pages)
    ensures GetItem(source, templates, key) == Ok(templates[PathOf(source, key)])
  {
    var i :| 0 <= i < |pages| && pages[i] == PathOf(source, key);
    if source.Macros? {
      MacroRoundTrip(key);
    } else {
      UnprocessProcess(key);
    }
    assert Keys(source, pages)[i] == key;
    assert "" + PathOf(source, key) == PathOf(source, key);
  }

  /** A user source without a usable root finds nothing, whatever is stored. */
  lemma NoRootNoTemplate<T>(templates: map<string, T>, key: string, root: Option<string>)
    requires root.None? || IsBlank(root.value)
    ensures GetItem(User(root), templates, key) == Err("KeyError")
  {
  }

  /** `_wikiname(name, prefix, suffix)`: the name without its extension, between the prefix
      and the suffix. */
  function WikiName(name: string, prefix: string, suffix: string): (r: string)
    ensures StartsWith(r, prefix) && EndsWith(r, suffix)
    ensures |r| <= |prefix| + |name| + |suffix|
    ensures '.' !in name ==> r == prefix + name + suffix
  {
    var base := SplitExt(name).0;
    assert base + SplitExt(name).1 == name;
    var r := prefix + base + suffix;
    assert r[..|prefix|] == prefix && r[|r| - |suffix|..] == suffix;
    r
  }

  /** A template file "name.html" moves to the page "templates/name.tmpl". */
  lemma WikiNameOfFile(base: string, ext: string, prefix: string, suffix: string)
    requires base != [] && base[|base| - 1] != '/' && base[|base| - 1] != '.'
    requires '/' !in ext && '.' !in ext
    ensures WikiName(base + "." + ext, prefix, suffix) == prefix + base + suffix
  {
    SplitExtOf(base, ext);
  }

  /** The extension split off "base.ext" is ".ext" when the last component of the base ends
      in something other than '.' or '/'. */
  lemma SplitExtOf(base: string, ext: string)
    requires base != [] && base[|base| - 1] != '/' && base[|base| - 1] != '.'
    requires '/' !in ext && '.' !in ext
    ensures SplitExt(base + "." + ext) == (base, "." + ext)
  {
    var p := base + "." + ext;
    var dot := |base|;
    assert p == base + ['.'] + ext;
    LastIndexOfConcat(base, '.', ext);
    SlashBeforeLastChar(base, ext, p);
    SplitExtAt(p, dot);
    assert p[..dot] == base && p[dot..] == "." + ext;
  }

  /** A path splits at its last '.' when the character before it is not a '.' and belongs
      to the last component. */
  lemma SplitExtAt(p: string, dot: nat)
    requires LastIndexOf(p, '.') == Some(dot) && 1 <= dot && p[dot - 1] != '.'
    requires match LastIndexOf(p, '/') case None => true case Some(i) => i < dot - 1
    ensures SplitExt(p) == (p[..dot], p[dot..])
  {
    var start := match LastIndexOf(p, '/') case None => 0 case Some(i) => i + 1;
    assert start <= dot - 1 < dot && p[dot - 1] != '.';
  }

  /** In "base.ext", no '/' comes at or after the last character of the base. */
  lemma SlashBeforeLastChar(base: string, ext: string, p: string)
    requires base != [] && base[|base| - 1] != '/'
    requires '/' !in ext && p == base + ['.'] + ext
    ensures match LastIndexOf(p, '/') case None => true case Some(i) => i < |base| - 1
  {
    match LastIndexOf(p, '/')
    case None =>
    case Some(i) =>
      assert p[|base| - 1] != '/' && p[|base|] == '.';
      assert forall j :: |base| < j < |p| ==> p[j] == ext[j - |base| - 1];
  }

  /** `get_title(name)` in `movetemplates`: "yyy template for type/xxx" for a type template
      "type/xxx/yyy" (split at its last '/'), "name template" for any other. */
  function GetTitle(name: string): (title: string)
    ensures !StartsWith(name, "type/") ==> title == name + " template"
  {
    if StartsWith(name, "type/") then
      assert name[4] == '/';
      var i := LastIndexOf(name, '/').value;
      name[i + 1..] + " template for " + name[..i]
    else name + " template"
  }

  /** The title of a type template names the template and the type it belongs to. */
  lemma GetTitleOfType(typ: string, name: string)
    requires StartsWith(typ + "/", "type/")
    requires '/' !in name
    ensures GetTitle(typ + "/" + name) == name + " template for " + typ
  {
    var t := typ + "/" + name;
    assert t == typ + ['/'] + name;
    LastIndexOfConcat(typ, '/', name);
    assert StartsWith(t, "type/") by {
      assert t[..5] == (typ + "/")[..5];
    }
    assert t[|typ| + 1..] == name && t[..|typ|] == typ;
  }

  /** `movetemplates`' page name for a disk template: names starting with "type" keep their
      place, others go under "templates/"; the extension becomes ".tmpl". */
  function TemplatePage(name: string): string {
    WikiName(name, if StartsWith(name, "type") then "" else "templates/", ".tmpl")
  }

  /** The page name `movetemplates` evidently means to give: the same test on "type/" that
      `process_key` makes. */
  function TemplatePageIntended(name: string): string {
    WikiName(name, if StartsWith(name, "type/") then "" else "templates/", ".tmpl")
  }

  /** A disk template moved into the wiki is found again under its own name, as long as its
      name does not start with "type" without being a type template. The names of disk
      templates are file names with ".html" removed, so they hold no '.'. */
  lemma MovedTemplateFound(name: string)
    requires '.' !in name
    requires StartsWith(name, "type/") || !StartsWith(name, "type")
    ensures TemplatePage(name) == ProcessKey(name)
  {
    if StartsWith(name, "type/") {
      assert name[..4] == name[..5][..4];
      assert "" + name + ".tmpl" == name + ".tmpl";
    }
  }

  /** With the intended test every disk template is found again under its own name. */
  lemma IntendedTemplateFound(name: string)
    requires '.' !in name
    ensures TemplatePageIntended(name) == ProcessKey(name)
  {
    if StartsWith(name, "type/") {
      assert "" + name + ".tmpl" == name + ".tmpl";
    }
  }

  /** A disk template whose name starts with "type" but not "type/" ("typeahead", say) is
      moved to a page its name is never looked up at. */
  lemma MovedTemplateMisplaced(name: string)
    requires '.' !in name
    requires StartsWith(name, "type") && !StartsWith(name, "type/")
    ensures TemplatePage(name) == name + ".tmpl"
    ensures ProcessKey(name) == "templates/" + name + ".tmpl"
    ensures TemplatePage(name) != ProcessKey(name)
  {
    assert "" + name + ".tmpl" == name + ".tmpl";
    assert |TemplatePage(name)| < |ProcessKey(name)|;
  }

  /** `movemacros`' page name for a disk macro: "macros/" and the name without extension. */
  function MacroPage(name: string): string {
    WikiName(name, "macros/", "")
  }

  /** A disk macro moved into the wiki is found again under its own name (a name without
      '.', as the macro loader gives). */
  lemma MovedMacroFound(name: string)
    requires '.' !in name
    ensures MacroPage(name) == MacroProcessKey(name)
    ensures MacroUnprocessKey(MacroPage(name)) == name
  {
    assert "macros/" + name + "" == "macros/" + name;
    MacroRoundTrip(name);
  }
}
