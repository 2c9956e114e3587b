/** Page helpers (utils/view.py): the space/underscore encoding of page names, the routing of
    a static resource path to a file, and the stylesheet list of a page. Rendering, markdown
    and the template globals are not part of this model. */
module View {
  import opened Wrappers
  import opened Strings

  /** `keyencode(text)`: spaces become underscores. */
  function KeyEncode(text: string): (r: string)
    ensures |r| == |text| && ' ' !in r
  {
    ReplaceChar(text, ' ', '_')
  }

  /** `keydecode(text)`: underscores become spaces. */
  function KeyDecode(text: string): (r: string)
    ensures |r| == |text| && '_' !in r
  {
    ReplaceChar(text, '_', ' ')
  }

  /** Decoding an encoded name gives it back exactly when the name has no underscore. */
  lemma KeyRoundTrip(text: string)
    ensures KeyDecode(KeyEncode(text)) == text <==> '_' !in text
  {
    if '_' in text {
      var i :| 0 <= i < |text| && text[i] == '_';
      assert KeyDecode(KeyEncode(text))[i] == ' ';
    } else {
      assert forall i :: 0 <= i < |text| ==> KeyDecode(KeyEncode(text))[i] == text[i];
    }
  }

  /** What `get_static_resource` answers: not found, or the contents of a file. */
  datatype Response = NotFound | File(path: string)

  /** What `(.*)$` captures of a tail: all of it when it has no newline, all but a final
      newline when that is its only one; otherwise there is no match. */
  function LineOf(tail: string): (r: Option<string>)
    ensures r.Some? ==> '\n' !in r.value && (tail == r.value || tail == r.value + "\n")
  {
    if '\n' !in tail then Some(tail)
    else if tail[|tail| - 1] == '\n' && '\n' !in tail[..|tail| - 1] then
      assert tail == tail[..|tail| - 1] + "\n";
      Some(tail[..|tail| - 1])
    else None
  }

  /** The groups of `^static/([^/]*)/(.*)$` on a path: the plugin up to the next '/', and the
      rest of the line. */
  function MatchStatic(path: string): (r: Option<(string, string)>)
    ensures r.Some? ==> StartsWith(path, "static/") && '/' !in r.value.0 && '\n' !in r.value.1
    ensures r.Some? ==> path == "static/" + r.value.0 + "/" + r.value.1
                        || path == "static/" + r.value.0 + "/" + r.value.1 + "\n"
  {
    if !StartsWith(path, "static/") then None
    else
      var rest := path[7..];
      match IndexOf(rest, '/')
      case None => None
      case Some(i) =>
        var plugin := rest[..i];
        var tail := rest[i + 1..];
        match LineOf(tail)
        case None => None
        case Some(line) =>
          PathParts(path, plugin, tail, line);
          Some((plugin, line))
  }

  lemma PathParts(path: string, plugin: string, tail: string, line: string)
    requires StartsWith(path, "static/") && |plugin| < |path[7..]|
    requires plugin == path[7..][..|plugin|] && path[7..][|plugin|] == '/' && tail == path[7..][|plugin| + 1..]
    requires '/' !in path[7..][..|plugin|]
    requires tail == line || tail == line + "\n"
    ensures '/' !in plugin
    ensures path == "static/" + plugin + "/" + line || path == "static/" + plugin + "/" + line + "\n"
  {
    var rest := path[7..];
    assert path == "static/" + rest;
    assert rest == plugin + "/" + tail;
  }

  /** `get_static_resource(path)`: a matching path names a file under core/static for the
      plugin "core" and under plugins/<plugin>/static otherwise; a path that does not match,
      or a file that does not exist, is not found. Whether a file exists is a parameter. */
  function StaticResource(path: string, exists_: string -> bool): (r: Response)
    ensures MatchStatic(path).None? ==> r == NotFound
    ensures r.File? ==> MatchStatic(path).Some? && exists_(r.path)
    ensures r.File? ==> var (plugin, rest) := MatchStatic(path).value;
      r.path == (if plugin == "core" then "core/static/" + rest else "plugins/" + plugin + "/static/" + rest)
    ensures MatchStatic(path).Some? && r == NotFound ==> var (plugin, rest) := MatchStatic(path).value;
      !exists_(if plugin == "core" then "core/static/" + rest else "plugins/" + plugin + "/static/" + rest)
  {
    match MatchStatic(path)
    case None => NotFound
    case Some((plugin, rest)) =>
      var full := if plugin == "core" then "core/static/" + rest else "plugins/" + plugin + "/static/" + rest;
      if exists_(full) then File(full) else NotFound
  }

  /** The resource path of a plugin's file routes back to that file. */
  lemma StaticRoundTrip(plugin: string, rest: string)
    requires '/' !in plugin && '\n' !in rest
    ensures MatchStatic("static/" + plugin + "/" + rest) == Some((plugin, rest))
  {
    var path := "static/" + plugin + "/" + rest;
    assert StartsWith(path, "static/");
    var tail := path[7..];
    assert tail == plugin + "/" + rest;
    assert forall k :: 0 <= k < |plugin| ==> tail[k] == plugin[k];
    assert tail[|plugin|] == '/';
    FirstSlash(tail, |plugin|);
    assert tail[..|plugin|] == plugin && tail[|plugin| + 1..] == rest;
  }

  lemma FirstSlash(s: string, i: nat)
    requires i < |s| && s[i] == '/' && forall k :: 0 <= k < i ==> s[k] != '/'
    ensures IndexOf(s, '/') == Some(i)
  {
    var j := IndexOf(s, '/');
    assert j.Some?;
  }

  /** The stylesheets of the page being rendered (`web.ctx.stylesheets`). */
  class Stylesheets {
    var paths: seq<string>

    constructor ()
      ensures paths == []
    {
      paths := [];
    }

    /** `add_stylesheet(plugin, path)`: "<homepath>/static/<plugin>/<path>" is appended. */
    method Add(homepath: string, plugin: string, path: string)
      modifies this
      ensures paths == old(paths) + [homepath + "/static/" + plugin + "/" + path]
    {
      paths := paths + [homepath + "/static/" + plugin + "/" + path];
    }
  }
}
