/** The pages plugin (infogami/plugins/pages/code.py), which moves wiki pages between disk and
    the wiki: the mapping between `.page` file names and page names, the reading of a
    directory listing into a dictionary of pages, and the post-order traversal that saves
    every page after the pages it refers to, breaking reference cycles on the way. */
module Pages {
  import opened Strings

  const Suffix: string := ".page"
  const RootFile: string := "__root__"

  // ---------------------------------------------------------------------------
  // Page names and file names
  // ---------------------------------------------------------------------------

  /** The page a `.page` file holds: the suffix cut off, and `__root__` read as the root
      page ''. */
  function PageName(path: string): (name: string)
    requires EndsWith(path, Suffix)
    ensures path == RootFile + Suffix ==> name == ""
    ensures path != RootFile + Suffix ==> name + Suffix == path
  {
    var p := path[..|path| - |Suffix|];
    assert p + Suffix == path;
    if p == RootFile then "" else p
  }

  /** The file a page is written to: the root page '' goes to `__root__.page`. */
  function FileName(name: string): (path: string)
    ensures EndsWith(path, Suffix)
    ensures name != "" ==> path == name + Suffix
  {
    (if name == "" then RootFile else name) + Suffix
  }

  /** The file the reader opens for the stripped path `p`: an empty path opens the root's file. */
  function ReadFile(p: string): (path: string)
    ensures EndsWith(path, Suffix)
  {
    FileName(p)
  }

  /** Writing a page and reading the file back gives the page again, for every name but
      `__root__`, which the reader takes for the root page. */
  lemma NameRoundTrip(name: string)
    ensures PageName(FileName(name)) == name <==> name != RootFile
  {
    var f := FileName(name);
    assert f[..|f| - |Suffix|] == if name == "" then RootFile else name;
  }

  /** Reading a file name and writing the page back gives the same file, for every `.page`
      file but `.page` itself, which is read as the root page. */
  lemma FileRoundTrip(path: string)
    requires EndsWith(path, Suffix)
    ensures FileName(PageName(path)) == path <==> path != Suffix
  {
    var p := path[..|path| - |Suffix|];
    assert path == p + Suffix;
    if path == Suffix {
      assert p == "";
    }
  }

  /** What the reader stores for a `.page` file: the text of the file it opens for the
      stripped path (`text` stands for reading and evaluating a file). */
  function PageText(f: string, text: string -> string): string
    requires EndsWith(f, Suffix)
  {
    text(ReadFile(f[..|f| - |Suffix|]))
  }

  /** The dictionary of pages a listing gives, each `.page` file in turn written over the
      dictionary. */
  function PagesOf(files: seq<string>, text: string -> string): map<string, string>
  {
    if files == [] then map[]
    else
      var m := PagesOf(files[..|files| - 1], text);
      var f := files[|files| - 1];
      if EndsWith(f, Suffix) then m[PageName(f) := PageText(f, text)] else m
  }

  /** `_readpages`: the listing's `.page` files read into a dictionary, one after another. */
  method ReadPages(files: seq<string>, text: string -> string) returns (pages: map<string, string>)
    ensures pages == PagesOf(files, text)
  {
    pages := map[];
    var k := 0;
    while k < |files|
      invariant 0 <= k <= |files|
      invariant pages == PagesOf(files[..k], text)
    {
      var f := files[k];
      assert files[..k + 1][..k] == files[..k];
      if EndsWith(f, Suffix) {
        var path := f[..|f| - |Suffix|];
        var name := if path == RootFile then "" else path;
        assert name == PageName(f);
        pages := pages[name := text(ReadFile(path))];
      }
      k := k + 1;
    }
    assert files[..k] == files;
  }

  /** Entry `i` of `files` is the last `.page` file naming page `name`. */
  predicate LastFileOf(files: seq<string>, name: string, i: int) {
    && 0 <= i < |files|
    && EndsWith(files[i], Suffix) && PageName(files[i]) == name
    && forall j :: i < j < |files| && EndsWith(files[j], Suffix) ==> PageName(files[j]) != name
  }

  /** The pages are exactly the names of the listing's `.page` files. */
  lemma {:induction false} PagesOfKeys(files: seq<string>, text: string -> string, name: string)
    ensures name in PagesOf(files, text) <==>
      exists i :: 0 <= i < |files| && EndsWith(files[i], Suffix) && PageName(files[i]) == name
    decreases |files|
  {
    if files != [] {
      var init := files[..|files| - 1];
      PagesOfKeys(init, text, name);
      assert forall i :: 0 <= i < |init| ==> init[i] == files[i];
    }
  }

  /** A page holds the text of the last file that names it: a later file overwrites an
      earlier one. */
  lemma {:induction false} PagesOfLast(files: seq<string>, text: string -> string, name: string, i: int)
    requires LastFileOf(files, name, i)
    ensures name in PagesOf(files, text) && PagesOf(files, text)[name] == PageText(files[i], text)
    decreases |files|
  {
    var init := files[..|files| - 1];
    if i < |files| - 1 {
      assert forall j :: 0 <= j < |init| ==> init[j] == files[j];
      assert LastFileOf(init, name, i);
      PagesOfLast(init, text, name, i);
    }
  }

  // ---------------------------------------------------------------------------
  // The post-order traversal of `_pushpages`
  // ---------------------------------------------------------------------------

  /** What the traversal does with a node: hand it to the visitor (save the page), or to
      `breakcycle` (create an empty page of that name) when it is reached again on the path
      that is still being visited. */
  datatype Event = Visited(node: string) | BrokeCycle(node: string)

  /** The nodes a node refers to; a name that is not a page refers to nothing. */
  function Children(graph: map<string, seq<string>>, n: string): seq<string> {
    if n in graph then graph[n] else []
  }

  /** Every node the traversal can ever mark as being visited. */
  function Universe(graph: map<string, seq<string>>): set<string> {
    graph.Keys + set n, c | n in graph && c in graph[n] :: c
  }

  /** Node `c` has been handed to the visitor or to `breakcycle` in trace `t`. */
  predicate Settled(t: seq<Event>, c: string) {
    Visited(c) in t || BrokeCycle(c) in t
  }

  /** Every node the visitor received came after all of its children were settled. */
  predicate ChildrenFirst(graph: map<string, seq<string>>, t: seq<Event>) {
    forall i :: 0 <= i < |t| && t[i].Visited? ==>
      forall c :: c in Children(graph, t[i].node) ==> Settled(t[..i], c)
  }

  /** The visitor received each node at most once. */
  predicate VisitedOnce(t: seq<Event>) {
    forall i, j :: 0 <= i < j < |t| && t[i].Visited? ==> t[i] != t[j]
  }

  /** The invariant of the traversal: the visited nodes are those the visitor received,
      none of them is still on the path, each came after its children, and every node sent
      to `breakcycle` is visited or still on the path. */
  ghost predicate ValidState(graph: map<string, seq<string>>, visited: set<string>, visiting: set<string>, trace: seq<Event>) {
    && visited !! visiting
    && (forall n :: Visited(n) in trace <==> n in visited)
    && VisitedOnce(trace)
    && ChildrenFirst(graph, trace)
    && (forall i :: 0 <= i < |trace| && trace[i].BrokeCycle? ==>
          trace[i].node in visited || trace[i].node in visiting)
  }

  /** Entering a node that is not visited keeps the invariant. */
  lemma EnterKeeps(graph: map<string, seq<string>>, visited: set<string>, visiting: set<string>, trace: seq<Event>, n: string)
    requires ValidState(graph, visited, visiting, trace) && n !in visited
    ensures ValidState(graph, visited, visiting + {n}, trace)
  {
  }

  /** Sending a node on the path to `breakcycle` keeps the invariant. */
  lemma BreakKeeps(graph: map<string, seq<string>>, visited: set<string>, visiting: set<string>, trace: seq<Event>, n: string)
    requires ValidState(graph, visited, visiting, trace) && n in visiting
    ensures ValidState(graph, visited, visiting, trace + [BrokeCycle(n)])
  {
    var t := trace + [BrokeCycle(n)];
    Extend(trace, BrokeCycle(n));
    forall i | 0 <= i < |t| && t[i].Visited?
      ensures forall c :: c in Children(graph, t[i].node) ==> Settled(t[..i], c)
    {
      assert t[i] == trace[i] && t[..i] == trace[..i];
    }
    forall i, j | 0 <= i < j < |t| && t[i].Visited?
      ensures t[i] != t[j]
    {
      assert t[i] == trace[i];
    }
  }

  /** Handing a node on the path to the visitor once its children are settled keeps the
      invariant. */
  lemma FinishKeeps(graph: map<string, seq<string>>, visited: set<string>, visiting: set<string>, trace: seq<Event>, n: string)
    requires ValidState(graph, visited, visiting, trace) && n in visiting
    requires forall c :: c in Children(graph, n) ==> Settled(trace, c)
    ensures ValidState(graph, visited + {n}, visiting - {n}, trace + [Visited(n)])
  {
    var t := trace + [Visited(n)];
    Extend(trace, Visited(n));
    assert t[..|trace|] == trace;
    forall i | 0 <= i < |t| && t[i].Visited?
      ensures forall c :: c in Children(graph, t[i].node) ==> Settled(t[..i], c)
    {
      if i < |trace| {
        assert t[i] == trace[i] && t[..i] == trace[..i];
      }
    }
    forall i, j | 0 <= i < j < |t| && t[i].Visited?
      ensures t[i] != t[j]
    {
      assert t[i] == trace[i];
      if j == |trace| {
        assert Visited(t[i].node) in trace;
      }
    }
  }

  /** The traversal state: the `visited` and `visiting` dictionaries of the source, and the
      events the visitor and `breakcycle` have received so far. */
  class Traversal {
    const graph: map<string, seq<string>>
    var visited: set<string>
    var visiting: set<string>
    var trace: seq<Event>

    ghost predicate Valid()
      reads this
    {
      ValidState(graph, visited, visiting, trace)
    }

    constructor (graph: map<string, seq<string>>)
      ensures Valid()
      ensures this.graph == graph
      ensures visited == {} && visiting == {} && trace == []
    {
      this.graph := graph;
      visited := {};
      visiting := {};
      trace := [];
    }

    /** `visit(node)`: a visited node is skipped, a node on the current path goes to
        `breakcycle`, and any other node is marked, its children visited in order, and then
        handed to the visitor. */
    method Visit(n: string)
      requires Valid()
      modifies this
      ensures Valid()
      ensures visiting == old(visiting) && old(visited) <= visited
      ensures |old(trace)| <= |trace| && trace[..|old(trace)|] == old(trace)
      ensures n in old(visited) ==> trace == old(trace)
      ensures n !in old(visited) && n in old(visiting) ==> trace == old(trace) + [BrokeCycle(n)]
      ensures n !in old(visited) && n !in old(visiting) ==>
        n in visited && trace[|trace| - 1] == Visited(n)
      ensures Settled(trace, n)
      decreases Universe(graph) - visiting
    {
      if n in visited {
        return;
      } else if n in visiting {
        Extend(trace, BrokeCycle(n));
        BreakKeeps(graph, visited, visiting, trace, n);
        trace := trace + [BrokeCycle(n)];
        return;
      }
      EnterKeeps(graph, visited, visiting, trace, n);
      visiting := visiting + {n};
      var t0 := trace;
      var cs := Children(graph, n);
      var k := 0;
      while k < |cs|
        invariant 0 <= k <= |cs|
        invariant Valid()
        invariant visiting == old(visiting) + {n} && n !in visited && old(visited) <= visited
        invariant |t0| <= |trace| && trace[..|t0|] == t0
        invariant forall c :: c in cs[..k] ==> Settled(trace, c)
      {
        assert n in Universe(graph) by {
          assert n in graph;
        }
        var t1 := trace;
        Visit(cs[k]);
        PrefixKeeps(t1, trace);
        PrefixOfPrefix(t0, t1, trace);
        assert cs[..k + 1] == cs[..k] + [cs[k]];
        k := k + 1;
      }
      assert cs[..k] == cs;
      Extend(trace, Visited(n));
      FinishKeeps(graph, visited, visiting, trace, n);
      trace := trace + [Visited(n)];
      visited := visited + {n};
      visiting := visiting - {n};
      PrefixOfPrefix(old(trace), t0, trace);
    }
  }

  /** Entries of a trace are still there once it has grown. */
  lemma PrefixKeeps(a: seq<Event>, b: seq<Event>)
    requires |a| <= |b| && b[..|a|] == a
    ensures forall e :: e in a ==> e in b
    ensures forall i :: 0 <= i < |a| ==> b[..i] == a[..i]
  {
    forall e | e in a
      ensures e in b
    {
      var i :| 0 <= i < |a| && a[i] == e;
      assert b[i] == e;
    }
  }

  lemma PrefixOfPrefix(a: seq<Event>, b: seq<Event>, c: seq<Event>)
    requires |a| <= |b| && b[..|a|] == a
    requires |b| <= |c| && c[..|b|] == b
    ensures c[..|a|] == a
  {
    assert c[..|a|] == c[..|b|][..|a|];
  }

  /** Appending one event keeps every earlier prefix of the trace. */
  lemma Extend(t: seq<Event>, e: Event)
    ensures (t + [e])[..|t|] == t
    ensures forall i :: 0 <= i <= |t| ==> (t + [e])[..i] == t[..i]
    ensures forall x :: x in t + [e] <==> x in t || x == e
  {
  }

  /** `bounds[j]..bounds[j + 1]` is the part of trace `t` that start node `j` produced,
      for the first `k` start nodes: the parts follow one another, by the end of its part a
      start node has been visited, and the part is empty when the node was visited before. */
  predicate Segments(t: seq<Event>, bounds: seq<nat>, nodes: seq<string>, k: nat) {
    && k <= |nodes| && |bounds| == k + 1
    && bounds[0] == 0 && bounds[k] == |t|
    && (forall j :: 0 <= j <= k ==> bounds[j] <= |t|)
    && (forall j :: 0 <= j < k ==> bounds[j] <= bounds[j + 1])
    && (forall j :: 0 <= j < k ==> Visited(nodes[j]) in t[..bounds[j + 1]])
    && (forall j :: 0 <= j < k && Visited(nodes[j]) in t[..bounds[j]] ==> bounds[j] == bounds[j + 1])
  }

  /** Processing one more start node adds one part to the segmentation. */
  lemma SegmentsStep(t0: seq<Event>, t1: seq<Event>, bounds: seq<nat>, nodes: seq<string>, k: nat)
    requires Segments(t0, bounds, nodes, k) && k < |nodes|
    requires |t0| <= |t1| && t1[..|t0|] == t0
    requires Visited(nodes[k]) in t1
    requires Visited(nodes[k]) in t0 ==> t1 == t0
    ensures Segments(t1, bounds + [|t1|], nodes, k + 1)
  {
    var b := bounds + [|t1|];
    forall j | 0 <= j <= k
      ensures t1[..b[j]] == t0[..bounds[j]]
    {
      assert b[j] == bounds[j] <= |t0|;
      assert t1[..b[j]] == t1[..|t0|][..b[j]];
    }
    assert t1[..|t1|] == t1;
    assert t0[..bounds[k]] == t0;
  }

  /** `postorder_traversal(nodes, getchildren, visitor, breakcycle)`: the start nodes are
      processed in the given order, as `bounds` divides the trace; the visitor receives each
      node once, after its children; every node sent to `breakcycle` is visited in the end;
      and every start node is visited. */
  method PostorderTraversal(graph: map<string, seq<string>>, nodes: seq<string>)
    returns (trace: seq<Event>, bounds: seq<nat>)
    ensures VisitedOnce(trace) && ChildrenFirst(graph, trace)
    ensures forall n :: n in nodes ==> Visited(n) in trace
    ensures forall n :: BrokeCycle(n) in trace ==> Visited(n) in trace
    ensures Segments(trace, bounds, nodes, |nodes|)
  {
    var t := new Traversal(graph);
    bounds := [0];
    var k := 0;
    while k < |nodes|
      invariant 0 <= k <= |nodes|
      invariant t.Valid() && t.graph == graph && t.visiting == {}
      invariant Segments(t.trace, bounds, nodes, k)
      invariant forall n :: n in nodes[..k] ==> Visited(n) in t.trace
    {
      var t0 := t.trace;
      t.Visit(nodes[k]);
      SegmentsStep(t0, t.trace, bounds, nodes, k);
      assert nodes[..k + 1] == nodes[..k] + [nodes[k]];
      PrefixKeeps(t0, t.trace);
      bounds := bounds + [|t.trace|];
      k := k + 1;
    }
    assert nodes[..k] == nodes;
    trace := t.trace;
    forall n | BrokeCycle(n) in trace
      ensures Visited(n) in trace
    {
      var i :| 0 <= i < |trace| && trace[i] == BrokeCycle(n);
    }
  }
}
