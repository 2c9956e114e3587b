/** The backlinks plugin (plugins/backlinks/code.py): the markdown post-processor that turns
    `[[target]]` and `[[target|anchor]]` in text nodes into internal links, the splice that
    puts the new nodes in place of the old text node, and the collection of the targets of
    a document's internal links. */
module Backlinks {
  import opened Wrappers
  import Json

  /** A node of the markdown document: a text node, or an element with its attributes (in
      the order they were set) and its children. */
  datatype Node =
    | Text(value: string)
    | Element(name: string, attributes: seq<(string, string)>, children: seq<Node>)

  /** The link element the post-processor creates: href is the target, class is 'internal',
      and its one child is the anchor text. */
  function LinkNode(link: string, anchor: string): (n: Node)
    ensures IsLink(n) && Json.Get(n.attributes, "href") == Some(link)
    ensures n.children == [Text(anchor)]
  {
    Element("a", [("href", link), ("class", "internal")], [Text(anchor)])
  }

  // ---------------------------------------------------------------------------
  // The link pattern (?<!\\)\[\[(.*?)(?:\|(.*?))?\]\], matched as Python's `re` does
  // ---------------------------------------------------------------------------

  /** A match: where it starts and ends, the target (group 1) and the anchor part (group 2,
      absent when there is no '|' part). */
  datatype Match = Match(start: nat, end: nat, link: string, alt: Option<string>)

  /** The text a match covers, spelt from its groups. */
  function Raw(m: Match): string {
    "[[" + m.link + (if m.alt.Some? then "|" + m.alt.value else "") + "]]"
  }

  predicate CloseAt(t: string, r: nat) {
    r + 2 <= |t| && t[r] == ']' && t[r + 1] == ']'
  }

  /** `(.*?)\]\]` from position `r`: the first ']]' with no newline before it. */
  function CloseFrom(t: string, r: nat): (e: Option<nat>)
    requires r <= |t|
    ensures e.Some? ==> r <= e.value && CloseAt(t, e.value)
    ensures e.Some? ==> forall q :: r <= q < e.value ==> !CloseAt(t, q) && t[q] != '\n'
    decreases |t| - r
  {
    if r >= |t| then None
    else if CloseAt(t, r) then Some(r)
    else if t[r] == '\n' then None
    else CloseFrom(t, r + 1)
  }

  /** `(.*?)(?:\|(.*?))?\]\]` from position `q0`, trying group 1 shortest first and, at
      each length, the '|' part before going without it: the end of group 1 and, when the
      '|' part matched, the end of group 2. */
  function GroupsFrom(t: string, q0: nat, q: nat): (g: Option<(nat, Option<nat>)>)
    requires q0 <= q <= |t|
    ensures g.Some? ==> q <= g.value.0 < |t|
    ensures g.Some? && g.value.1.Some? ==>
      t[g.value.0] == '|' && g.value.0 + 1 <= g.value.1.value && CloseAt(t, g.value.1.value)
    ensures g.Some? && g.value.1.None? ==> CloseAt(t, g.value.0)
    ensures g.Some? ==> forall p :: q <= p < g.value.0 ==> !CloseAt(t, p) && t[p] != '\n'
    decreases |t| - q
  {
    if q < |t| && t[q] == '|' && CloseFrom(t, q + 1).Some? then Some((q, CloseFrom(t, q + 1)))
    else if CloseAt(t, q) then Some((q, None))
    else if q >= |t| || t[q] == '\n' then None
    else GroupsFrom(t, q0, q + 1)
  }

  /** The match of the pattern starting at position `p`, if there is one. */
  function MatchAt(t: string, p: nat): (m: Option<Match>)
    requires p <= |t|
    ensures p > 0 && t[p - 1] == '\\' ==> m.None?
    ensures m.Some? ==> m.value.start == p && p + 4 <= m.value.end <= |t|
    ensures m.Some? ==> t[p..m.value.end] == Raw(m.value)
    ensures m.Some? ==> '\n' !in m.value.link && forall q :: 0 <= q < |m.value.link| ==> !CloseAt(m.value.link, q)
  {
    if p + 2 <= |t| && t[p] == '[' && t[p + 1] == '[' && (p == 0 || t[p - 1] != '\\') then
      match GroupsFrom(t, p + 2, p + 2)
      case None => None
      case Some((q, None)) =>
        var m := Match(p, q + 2, t[p + 2..q], None);
        RawSlices(t, p, q, q, q + 2, m);
        LinkClean(t, p + 2, q, m.link);
        Some(m)
      case Some((q, Some(r))) =>
        var m := Match(p, r + 2, t[p + 2..q], Some(t[q + 1..r]));
        RawSlices(t, p, q, r, r + 2, m);
        LinkClean(t, p + 2, q, m.link);
        Some(m)
    else None
  }

  lemma RawSlices(t: string, p: nat, q: nat, r: nat, e: nat, m: Match)
    requires p + 2 <= q <= r && e == r + 2 <= |t|
    requires t[p] == '[' && t[p + 1] == '[' && CloseAt(t, r)
    requires m.start == p && m.end == e && m.link == t[p + 2..q]
    requires q == r ==> m.alt.None?
    requires q < r ==> t[q] == '|' && m.alt == Some(t[q + 1..r])
    ensures t[p..e] == Raw(m)
  {
    if q == r {
      assert t[p..e] == t[p..p + 2] + t[p + 2..q] + t[q..e];
    } else {
      assert t[p..e] == t[p..p + 2] + t[p + 2..q] + [t[q]] + t[q + 1..r] + t[r..e];
    }
  }

  lemma LinkClean(t: string, a: nat, b: nat, link: string)
    requires a <= b <= |t| && link == t[a..b]
    requires forall p :: a <= p < b ==> !CloseAt(t, p) && t[p] != '\n'
    ensures '\n' !in link && forall q :: 0 <= q < |link| ==> !CloseAt(link, q)
  {
    forall q | 0 <= q < |link|
      ensures !CloseAt(link, q)
    {
      assert !CloseAt(t, a + q);
    }
  }

  /** `re.search` from position `from`: the leftmost match. */
  function NextMatch(t: string, from: nat): (m: Option<Match>)
    requires from <= |t|
    ensures m.Some? ==> from <= m.value.start <= |t| && MatchAt(t, m.value.start) == m
    ensures m.Some? ==> forall p :: from <= p < m.value.start ==> MatchAt(t, p).None?
    ensures m.None? ==> forall p :: from <= p <= |t| ==> MatchAt(t, p).None?
    decreases |t| - from
  {
    match MatchAt(t, from)
    case Some(m) => Some(m)
    case None => if from == |t| then None else NextMatch(t, from + 1)
  }

  /** Matches that follow one another from position `from` without overlapping, each at
      least as long as '[[]]', all inside `t`. */
  predicate Chain(t: string, ms: seq<Match>, from: nat)
    decreases |ms|
  {
    from <= |t| &&
    (ms != [] ==>
      from <= ms[0].start && ms[0].start + 4 <= ms[0].end <= |t| && Chain(t, ms[1..], ms[0].end))
  }

  /** `Chain` read position by position: each match lies after the text before it. */
  predicate Spaced(t: string, ms: seq<Match>, from: nat) {
    && Prev(ms, |ms|, from) <= |t|
    && forall i :: 0 <= i < |ms| ==> Prev(ms, i, from) <= ms[i].start && ms[i].start + 4 <= ms[i].end <= |t|
  }

  lemma {:induction false} ChainSpaced(t: string, ms: seq<Match>, from: nat)
    requires Chain(t, ms, from)
    ensures Spaced(t, ms, from)
    decreases |ms|
  {
    if ms != [] {
      ChainSpaced(t, ms[1..], ms[0].end);
      forall i | 1 <= i <= |ms|
        ensures Prev(ms, i, from) == Prev(ms[1..], i - 1, ms[0].end)
      {
      }
    }
  }

  /** The matches `re.sub` finds from position `from`, each search starting where the
      previous match ended. */
  function Matches(t: string, from: nat): (ms: seq<Match>)
    requires from <= |t|
    ensures Chain(t, ms, from)
    decreases |t| - from
  {
    match NextMatch(t, from)
    case None => []
    case Some(m) =>
      var rest := Matches(t, m.end);
      assert ([m] + rest)[1..] == rest;
      [m] + rest
  }

  /** Where the text before match `i` begins: the start, or the end of the previous match. */
  function Prev(ms: seq<Match>, i: nat, from: nat): nat
    requires i <= |ms|
  {
    if i == 0 then from else ms[i - 1].end
  }

  /** The matches `re.sub` visits are exactly the matches of the pattern that start where
      the search for them started or later, with none starting in the text between two of
      them or after the last. */
  lemma MatchesExact(t: string, from: nat)
    requires from <= |t|
    ensures Spaced(t, Matches(t, from), from)
    ensures var ms := Matches(t, from);
      forall i :: 0 <= i < |ms| ==> MatchAt(t, ms[i].start) == Some(ms[i])
    ensures var ms := Matches(t, from);
      forall i, p :: 0 <= i < |ms| && Prev(ms, i, from) <= p < ms[i].start ==> MatchAt(t, p).None?
    ensures var ms := Matches(t, from);
      forall p :: Prev(ms, |ms|, from) <= p <= |t| ==> MatchAt(t, p).None?
  {
    var ms := Matches(t, from);
    ChainSpaced(t, ms, from);
    forall i | 0 <= i < |ms|
      ensures MatchAt(t, ms[i].start) == Some(ms[i])
    {
      MatchFound(t, from, i);
    }
    forall i, p | 0 <= i <= |ms| && Prev(ms, i, from) <= p <= |t| && (i < |ms| ==> p < ms[i].start)
      ensures MatchAt(t, p).None?
    {
      NoMatchBetween(t, from, i, p);
    }
  }

  /** Match `i` is a match of the pattern at its start. */
  lemma {:induction false} MatchFound(t: string, from: nat, i: nat)
    requires from <= |t| && i < |Matches(t, from)|
    ensures Matches(t, from)[i].start <= |t|
    ensures MatchAt(t, Matches(t, from)[i].start) == Some(Matches(t, from)[i])
    decreases i
  {
    var ms := Matches(t, from);
    if i > 0 {
      MatchFound(t, ms[0].end, i - 1);
      assert ms[i] == Matches(t, ms[0].end)[i - 1];
    }
  }

  /** No match of the pattern starts in the text before match `i` (after the last match
      when `i` is the number of matches). */
  lemma {:induction false} NoMatchBetween(t: string, from: nat, i: nat, p: nat)
    requires from <= |t| && i <= |Matches(t, from)|
    requires Prev(Matches(t, from), i, from) <= p <= |t|
    requires i < |Matches(t, from)| ==> p < Matches(t, from)[i].start
    ensures MatchAt(t, p).None?
    decreases i
  {
    var ms := Matches(t, from);
    if i > 0 {
      var rest := Matches(t, ms[0].end);
      assert ms == [ms[0]] + rest;
      assert Prev(ms, i, from) == Prev(rest, i - 1, ms[0].end);
      if i < |ms| {
        assert ms[i] == rest[i - 1];
      }
      NoMatchBetween(t, ms[0].end, i - 1, p);
    }
  }

  /** The text between the matches, with each match spelt back from its groups, is the
      text the matches were found in. */
  function Spell(t: string, ms: seq<Match>, from: nat): string
    requires Chain(t, ms, from)
    decreases |ms|
  {
    if ms == [] then t[from..]
    else t[from..ms[0].start] + Raw(ms[0]) + Spell(t, ms[1..], ms[0].end)
  }

  /** Cutting the text at its matches loses nothing: the gaps and the matches, in order,
      spell the text again. */
  lemma {:induction false} MatchesSpellText(t: string, from: nat)
    requires from <= |t|
    ensures Spell(t, Matches(t, from), from) == t[from..]
    decreases |t| - from
  {
    var ms := Matches(t, from);
    if ms != [] {
      var m := ms[0];
      MatchesHead(t, from);
      MatchesSpellText(t, m.end);
      SliceThree(t, from, m.start, m.end);
    }
  }

  /** The first match found from `from`: where it lies, what it spells, and what follows it. */
  lemma MatchesHead(t: string, from: nat)
    requires from <= |t| && Matches(t, from) != []
    ensures var m := Matches(t, from)[0];
      from <= m.start <= m.end <= |t| && t[m.start..m.end] == Raw(m) &&
      Matches(t, from)[1..] == Matches(t, m.end)
  {
    var m := NextMatch(t, from).value;
    assert MatchAt(t, m.start) == Some(m);
  }

  lemma SliceThree(t: string, a: nat, b: nat, c: nat)
    requires a <= b <= c <= |t|
    ensures t[a..] == t[a..b] + t[b..c] + t[c..]
  {
  }

  // ---------------------------------------------------------------------------
  // process_links and replace_node
  // ---------------------------------------------------------------------------

  /** The anchor of a link: the '|' part, or the target when that part is absent or empty. */
  function Anchor(m: Match): (a: string)
    ensures m.alt.None? || m.alt == Some("") ==> a == m.link
    ensures m.alt.Some? && m.alt.value != "" ==> a == m.alt.value
  {
    if m.alt.Some? && m.alt.value != "" then m.alt.value else m.link
  }

  /** The nodes `process_links` builds from the matches `ms`, the current position being
      `pos`: the text up to each match, then the link it makes, and the text after the
      last match. */
  function Nodes(t: string, ms: seq<Match>, pos: nat): (ns: seq<Node>)
    requires Chain(t, ms, pos)
    decreases |ms|
  {
    if ms == [] then [Text(t[pos..])]
    else [Text(t[pos..ms[0].start]), LinkNode(ms[0].link, Anchor(ms[0]))] + Nodes(t, ms[1..], ms[0].end)
  }

  /** `wikilinks.process_links(node)` on a text node holding `text`: `re.sub` hands the
      matches to `mangle` in order, which keeps the position after the last match. */
  method ProcessLinks(text: string) returns (nodes: seq<Node>)
    ensures nodes == Nodes(text, Matches(text, 0), 0)
  {
    var ms := Matches(text, 0);
    var newNodes: seq<Node> := [];
    var position := 0;
    var i := 0;
    while i < |ms|
      invariant 0 <= i <= |ms|
      invariant position == Prev(ms, i, 0) && Chain(text, ms[i..], position)
      invariant newNodes + Nodes(text, ms[i..], position) == Nodes(text, ms, 0)
    {
      var start, end := position, ms[i].start;
      position := ms[i].end;
      var textNode := Text(text[start..end]);
      var linkNode := LinkNode(ms[i].link, Anchor(ms[i]));
      assert ms[i..][1..] == ms[i + 1..] && ms[i..][0] == ms[i];
      newNodes := newNodes + [textNode, linkNode];
      i := i + 1;
    }
    nodes := newNodes + [Text(text[position..])];
  }

  /** The shape of the result: one more text node than there are matches, text nodes and
      links alternating; text node `i` holds exactly the text between match `i - 1` and
      match `i`, and link `i` points at the target of match `i`. */
  lemma {:induction false} NodesShape(t: string, ms: seq<Match>, pos: nat)
    requires Chain(t, ms, pos)
    ensures Spaced(t, ms, pos)
    ensures |Nodes(t, ms, pos)| == 2 * |ms| + 1
    ensures forall i :: 0 <= i < |ms| ==>
      Nodes(t, ms, pos)[2 * i] == Text(t[Prev(ms, i, pos)..ms[i].start]) &&
      Nodes(t, ms, pos)[2 * i + 1] == LinkNode(ms[i].link, Anchor(ms[i]))
    ensures Nodes(t, ms, pos)[2 * |ms|] == Text(t[Prev(ms, |ms|, pos)..])
  {
    ChainSpaced(t, ms, pos);
    NodesLength(t, ms, pos);
    forall i | 0 <= i <= |ms|
      ensures Nodes(t, ms, pos)[2 * i] == Text(t[Prev(ms, i, pos)..if i < |ms| then ms[i].start else |t|])
      ensures i < |ms| ==> Nodes(t, ms, pos)[2 * i + 1] == LinkNode(ms[i].link, Anchor(ms[i]))
    {
      TextNodeAt(t, ms, pos, i);
      if i < |ms| {
        LinkNodeAt(t, ms, pos, i);
      }
    }
  }

  lemma {:induction false} NodesLength(t: string, ms: seq<Match>, pos: nat)
    requires Chain(t, ms, pos)
    ensures |Nodes(t, ms, pos)| == 2 * |ms| + 1
    decreases |ms|
  {
    if ms != [] {
      NodesLength(t, ms[1..], ms[0].end);
    }
  }

  /** Text node `i` of the result. */
  lemma {:induction false} TextNodeAt(t: string, ms: seq<Match>, pos: nat, i: nat)
    requires Chain(t, ms, pos) && i <= |ms|
    ensures Spaced(t, ms, pos) && |Nodes(t, ms, pos)| == 2 * |ms| + 1
    ensures Nodes(t, ms, pos)[2 * i] == Text(t[Prev(ms, i, pos)..if i < |ms| then ms[i].start else |t|])
    decreases i
  {
    ChainSpaced(t, ms, pos);
    NodesLength(t, ms, pos);
    if i > 0 {
      TextNodeAt(t, ms[1..], ms[0].end, i - 1);
      TextNodeStep(t, ms, pos, i);
    }
  }

  /** Text node `i` of the result is text node `i - 1` of the remaining matches. */
  lemma TextNodeStep(t: string, ms: seq<Match>, pos: nat, i: nat)
    requires Chain(t, ms, pos) && 0 < i <= |ms|
    requires Spaced(t, ms, pos) && Spaced(t, ms[1..], ms[0].end)
    requires |Nodes(t, ms[1..], ms[0].end)| == 2 * |ms| - 1
    requires Nodes(t, ms[1..], ms[0].end)[2 * (i - 1)]
      == Text(t[Prev(ms[1..], i - 1, ms[0].end)..if i - 1 < |ms[1..]| then ms[1..][i - 1].start else |t|])
    ensures Nodes(t, ms, pos)[2 * i] == Text(t[Prev(ms, i, pos)..if i < |ms| then ms[i].start else |t|])
  {
    var k := 2 * i - 2;
    assert k == 2 * (i - 1) && k + 2 == 2 * i;
    NodesShift(t, ms, pos, k);
    if i < |ms| {
      assert ms[i] == ms[1..][i - 1];
    }
    assert Prev(ms, i, pos) == Prev(ms[1..], i - 1, ms[0].end);
  }

  /** Past the first text node and link, the nodes are those of the remaining matches. */
  lemma NodesShift(t: string, ms: seq<Match>, pos: nat, k: nat)
    requires Chain(t, ms, pos) && ms != [] && k < |Nodes(t, ms[1..], ms[0].end)|
    ensures Nodes(t, ms, pos)[k + 2] == Nodes(t, ms[1..], ms[0].end)[k]
  {
    var ns := Nodes(t, ms, pos);
    PairIndex(ns[0], ns[1], Nodes(t, ms[1..], ms[0].end), k);
  }

  /** Link `i` of the result. */
  lemma {:induction false} LinkNodeAt(t: string, ms: seq<Match>, pos: nat, i: nat)
    requires Chain(t, ms, pos) && i < |ms|
    ensures |Nodes(t, ms, pos)| == 2 * |ms| + 1
    ensures Nodes(t, ms, pos)[2 * i + 1] == LinkNode(ms[i].link, Anchor(ms[i]))
    decreases i
  {
    NodesLength(t, ms, pos);
    if i > 0 {
      var rest := Nodes(t, ms[1..], ms[0].end);
      LinkNodeAt(t, ms[1..], ms[0].end, i - 1);
      var ns := Nodes(t, ms, pos);
      assert ns == [ns[0], ns[1]] + rest;
      PairIndex(ns[0], ns[1], rest, 2 * (i - 1) + 1);
      assert ms[i] == ms[1..][i - 1];
    }
  }

  lemma PairIndex<T>(x: T, y: T, rest: seq<T>, k: nat)
    requires k < |rest|
    ensures ([x, y] + rest)[k + 2] == rest[k]
  {
  }

  /** The first index of `x` in `s`: `list.index`. */
  function FirstIndex<T(==)>(s: seq<T>, x: T): (i: nat)
    requires x in s
    ensures i < |s| && s[i] == x && x !in s[..i]
  {
    if s[0] == x then 0 else FirstIndex(s[1..], x) + 1
  }

  /** Inserting `x` just after `done` extends it by one, in the middle of the list. */
  lemma InsertAfter<T>(before: seq<T>, done: seq<T>, x: T, after: seq<T>)
    ensures var s := before + done + after;
      s[..|before| + |done|] + [x] + s[|before| + |done|..] == before + (done + [x]) + after
  {
    var s := before + done + after;
    assert s[..|before| + |done|] == before + done;
    assert s[|before| + |done|..] == after;
  }

  /** A parent node whose list of children is updated in place. */
  class Parent {
    var childNodes: seq<Node>

    constructor (children: seq<Node>)
      ensures childNodes == children
    {
      childNodes := children;
    }

    /** `replace_node(node, new_nodes)`: the node is removed and the new nodes inserted,
        one after another, where it stood. A node that is not a child is a ValueError. */
    method ReplaceNode(node: Node, newNodes: seq<Node>) returns (ok: bool)
      modifies this
      ensures ok <==> node in old(childNodes)
      ensures !ok ==> childNodes == old(childNodes)
      ensures ok ==>
        var i := FirstIndex(old(childNodes), node);
        childNodes == old(childNodes)[..i] + newNodes + old(childNodes)[i + 1..]
    {
      if node !in childNodes {
        return false;
      }
      var position := FirstIndex(childNodes, node);
      var before, after := childNodes[..position], childNodes[position + 1..];
      childNodes := before + after;
      var k := 0;
      while k < |newNodes|
        invariant 0 <= k <= |newNodes|
        invariant position == |before| + k
        invariant childNodes == before + newNodes[..k] + after
      {
        InsertAfter(before, newNodes[..k], newNodes[k], after);
        childNodes := childNodes[..position] + [newNodes[k]] + childNodes[position..];
        assert newNodes[..k + 1] == newNodes[..k] + [newNodes[k]];
        position := position + 1;
        k := k + 1;
      }
      assert newNodes[..k] == newNodes;
      return true;
    }
  }

  // ---------------------------------------------------------------------------
  // get_links
  // ---------------------------------------------------------------------------

  /** `is_link(e)`: an 'a' element whose class is 'internal'. */
  predicate IsLink(n: Node) {
    n.Element? && n.name == "a" && Json.Get(n.attributes, "class") == Some("internal")
  }

  /** The href of a node when it is an internal link; a link without one is a KeyError. */
  function Href(n: Node): (r: Result<seq<string>, string>)
    ensures r.Ok? ==> |r.value| == if IsLink(n) then 1 else 0
  {
    if !IsLink(n) then Ok([])
    else match Json.Get(n.attributes, "href")
      case Some(h) => Ok([h])
      case None => Err("KeyError: 'href'")
  }

  /** Two collections one after the other; the first error wins. */
  function Then(a: Result<seq<string>, string>, b: Result<seq<string>, string>): (r: Result<seq<string>, string>)
    ensures r.Ok? <==> a.Ok? && b.Ok?
    ensures r.Ok? ==> r.value == a.value + b.value
  {
    if a.Err? then a else if b.Err? then b else Ok(a.value + b.value)
  }

  /** `get_links(text)` on the parsed document: the href of every internal link, in
      document order (a node before its children, its children before its later
      siblings); an internal link without an href is a KeyError. */
  function GetLinks(ns: seq<Node>): (r: Result<seq<string>, string>)
    ensures r.Ok? ==> |r.value| == CountLinks(ns)
    decreases ns
  {
    if ns == [] then Ok([])
    else
      var n := ns[0];
      assert n in ns;
      var inner := if n.Element? then GetLinks(n.children) else Ok([]);
      Then(Then(Href(n), inner), GetLinks(ns[1..]))
  }

  lemma GetLinksCons(n: Node, rest: seq<Node>)
    ensures GetLinks([n] + rest) ==
      Then(Then(Href(n), if n.Element? then GetLinks(n.children) else Ok([])), GetLinks(rest))
  {
    var l := [n] + rest;
    assert l[0] == n && l[1..] == rest;
  }

  /** The number of internal links in a forest of nodes. */
  function CountLinks(ns: seq<Node>): nat
    decreases ns
  {
    if ns == [] then 0
    else
      var n := ns[0];
      assert n in ns;
      (if IsLink(n) then 1 else 0) + (if n.Element? then CountLinks(n.children) else 0) + CountLinks(ns[1..])
  }

  /** The targets of the matches, in order. */
  function Targets(ms: seq<Match>): (r: seq<string>)
    ensures |r| == |ms| && forall i :: 0 <= i < |ms| ==> r[i] == ms[i].link
  {
    if ms == [] then [] else [ms[0].link] + Targets(ms[1..])
  }

  /** What the post-processor writes is what `get_links` reads: the links collected from
      the nodes `process_links` builds are the targets of the matches, in order. */
  lemma {:induction false} LinksOfProcessedText(t: string, ms: seq<Match>, pos: nat)
    requires Chain(t, ms, pos)
    ensures GetLinks(Nodes(t, ms, pos)) == Ok(Targets(ms))
    decreases |ms|
  {
    if ms == [] {
      GetLinksCons(Text(t[pos..]), []);
    } else {
      var m := ms[0];
      var rest := Nodes(t, ms[1..], m.end);
      LinksOfProcessedText(t, ms[1..], m.end);
      var link := LinkNode(m.link, Anchor(m));
      GetLinksCons(Text(Anchor(m)), []);
      GetLinksCons(link, rest);
      GetLinksCons(Text(t[pos..m.start]), [link] + rest);
      assert link.children == [Text(Anchor(m))];
      assert GetLinks(link.children) == Ok([]);
      assert Href(link) == Ok([m.link]);
      assert GetLinks(rest) == Ok(Targets(ms[1..]));
      assert [m.link] + [] == [m.link];
      assert Then(Href(link), GetLinks(link.children)) == Ok([m.link]);
      assert GetLinks([link] + rest) == Ok([m.link] + Targets(ms[1..]));
      assert Nodes(t, ms, pos) == [Text(t[pos..m.start])] + ([link] + rest);
      assert Targets(ms) == [m.link] + Targets(ms[1..]);
      var v: seq<string> := [];
      assert v + v + Targets(ms) == Targets(ms);
    }
  }
}
