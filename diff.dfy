/** The side-by-side diff of two revisions (infogami/core/diff.py). The matching itself is
    Python's `SequenceMatcher`, which is not part of this model: its opcodes are a parameter,
    and what the model proves is how `better_diff` lays them out as rows and how
    `simple_diff` turns them into word ranges. */
module Diff {
  import opened Wrappers
  import opened Strings

  datatype Tag = Equal | Insert | Replace | Delete

  /** One opcode: `tag` turns `a[i1:i2]` into `b[j1:j2]`. */
  datatype Opcode = Opcode(tag: Tag, i1: int, i2: int, j1: int, j2: int)

  /** A line-number cell: a line, the '' of a padding row, or the '...' of an elided run. */
  datatype LineNo = Line(n: int) | NoLine | Elided

  /** One row of the table: its label, left number and line, right number and line. */
  datatype Row = Row(kind: string, xn: LineNo, x: string, yn: LineNo, y: string)

  /** The ranges of an opcode lie inside the two texts. */
  predicate InBounds<T>(a: seq<T>, b: seq<T>, op: Opcode) {
    0 <= op.i1 <= op.i2 <= |a| && 0 <= op.j1 <= op.j2 <= |b|
  }

  /** The shape `SequenceMatcher` gives each tag: an insertion takes nothing from `a`, a
      deletion nothing from `b`, and an equal run is as long on both sides. */
  predicate Shaped(op: Opcode) {
    match op.tag
    case Insert => op.i1 == op.i2 && op.j1 < op.j2
    case Delete => op.j1 == op.j2 && op.i1 < op.i2
    case Equal => op.i2 - op.i1 == op.j2 - op.j1
    case Replace => true
  }

  /** The row label of each tag. */
  function Label(t: Tag): (l: string)
    ensures t == Equal <==> l == ""
  {
    match t
    case Equal => ""
    case Insert => "add"
    case Replace => "mod"
    case Delete => "rem"
  }

  function Max(x: int, y: int): int {
    if x < y then y else x
  }

  /** `[v] * n`, which is empty for n <= 0. */
  function Pad<T>(n: int, v: T): (r: seq<T>)
    ensures |r| == if n <= 0 then 0 else n
    ensures forall k :: 0 <= k < |r| ==> r[k] == v
  {
    if n <= 0 then [] else seq(n, _ => v)
  }

  /** `list(range(lo, hi))` as line numbers. */
  function Numbers(lo: int, hi: int): (r: seq<LineNo>)
    requires lo <= hi
    ensures |r| == hi - lo && forall k :: 0 <= k < |r| ==> r[k] == Line(lo + k)
  {
    seq(hi - lo, k => Line(lo + k))
  }

  /** The four columns `better_diff` builds for one opcode before zipping them. */
  datatype Columns = Columns(x: seq<string>, xn: seq<LineNo>, y: seq<string>, yn: seq<LineNo>)

  /** The ranges themselves, numbered. */
  function Base(a: seq<string>, b: seq<string>, op: Opcode): Columns
    requires InBounds(a, b, op)
  {
    Columns(a[op.i1..op.i2], Numbers(op.i1, op.i2), b[op.j1..op.j2], Numbers(op.j1, op.j2))
  }

  /** `n` blank cells added under the left side. */
  function PadLeft(c: Columns, n: int): Columns {
    Columns(c.x + Pad(n, ""), c.xn + Pad(n, NoLine), c.y, c.yn)
  }

  /** `n` blank cells added under the right side. */
  function PadRight(c: Columns, n: int): Columns {
    Columns(c.x, c.xn, c.y + Pad(n, ""), c.yn + Pad(n, NoLine))
  }

  /** A long equal run: first line, elision, last line, the same on both sides. */
  function Collapse(a: seq<string>, op: Opcode): Columns
    requires 0 <= op.i1 < op.i2 <= |a|
  {
    var lines, nums := [a[op.i1], "", a[op.i2 - 1]], [Line(op.i1), Elided, Line(op.i2 - 1)];
    Columns(lines, nums, lines, nums)
  }

  /** The four columns of one opcode: an insertion pads the left side, a deletion the
      right side, a replacement the shorter side, and an equal run longer than five lines
      collapses. */
  function Sides(a: seq<string>, b: seq<string>, op: Opcode): Columns
    requires InBounds(a, b, op)
  {
    var isize, jsize := op.i2 - op.i1, op.j2 - op.j1;
    match op.tag
    case Insert => PadLeft(Base(a, b, op), jsize - isize)
    case Delete => PadRight(Base(a, b, op), isize - jsize)
    case Equal => if isize > 5 then Collapse(a, op) else Base(a, b, op)
    case Replace =>
      if isize < jsize then PadLeft(Base(a, b, op), jsize - isize)
      else PadRight(Base(a, b, op), isize - jsize)
  }

  /** `zip([label] * len(x), xn, x, yn, y)`: as many rows as the shortest column. */
  function Zip(kind: string, c: Columns): (r: seq<Row>)
    ensures |r| == Min4(|c.x|, |c.xn|, |c.y|, |c.yn|)
  {
    var m := Min4(|c.x|, |c.xn|, |c.y|, |c.yn|);
    seq(m, k requires 0 <= k < m => Row(kind, c.xn[k], c.x[k], c.yn[k], c.y[k]))
  }

  function Min4(p: int, q: int, r: int, s: int): int {
    var m1 := if p < q then p else q;
    var m2 := if r < s then r else s;
    if m1 < m2 then m1 else m2
  }

  /** The rows one opcode contributes. */
  function Chunk(a: seq<string>, b: seq<string>, op: Opcode): seq<Row>
    requires InBounds(a, b, op)
  {
    Zip(Label(op.tag), Sides(a, b, op))
  }

  /** The rows of the first opcodes, in order. */
  function DiffOf(a: seq<string>, b: seq<string>, ops: seq<Opcode>): seq<Row>
    requires forall k :: 0 <= k < |ops| ==> InBounds(a, b, ops[k])
  {
    if ops == [] then []
    else DiffOf(a, b, ops[..|ops| - 1]) + Chunk(a, b, ops[|ops| - 1])
  }

  /** The body of `better_diff`'s loop for one opcode: its columns, padded or collapsed. */
  method OpColumns(a: seq<string>, b: seq<string>, op: Opcode) returns (c: Columns)
    requires InBounds(a, b, op)
    ensures c == Sides(a, b, op)
  {
    var n := (op.j2 - op.j1) - (op.i2 - op.i1);
    var x, xn := a[op.i1..op.i2], Numbers(op.i1, op.i2);
    var y, yn := b[op.j1..op.j2], Numbers(op.j1, op.j2);
    assert Columns(x, xn, y, yn) == Base(a, b, op);
    match op.tag {
      case Insert =>
        x := x + Pad(n, "");
        xn := xn + Pad(n, NoLine);
        assert Columns(x, xn, y, yn) == PadLeft(Base(a, b, op), n) == Sides(a, b, op);
      case Delete =>
        y := y + Pad(-n, "");
        yn := yn + Pad(-n, NoLine);
        assert Columns(x, xn, y, yn) == PadRight(Base(a, b, op), -n) == Sides(a, b, op);
      case Equal =>
        if op.i2 - op.i1 > 5 {
          x := [a[op.i1], "", a[op.i2 - 1]];
          y := x;
          xn := [Line(op.i1), Elided, Line(op.i2 - 1)];
          yn := xn;
          assert Columns(x, xn, y, yn) == Collapse(a, op) == Sides(a, b, op);
        } else {
          assert Columns(x, xn, y, yn) == Sides(a, b, op);
        }
      case Replace =>
        var isize, jsize := op.i2 - op.i1, op.j2 - op.j1;
        if isize < jsize {
          x := x + Pad(jsize - isize, "");
          xn := xn + Pad(jsize - isize, NoLine);
          assert Columns(x, xn, y, yn) == PadLeft(Base(a, b, op), jsize - isize) == Sides(a, b, op);
        } else {
          y := y + Pad(isize - jsize, "");
          yn := yn + Pad(isize - jsize, NoLine);
          assert Columns(x, xn, y, yn) == PadRight(Base(a, b, op), isize - jsize) == Sides(a, b, op);
        }
    }
    c := Columns(x, xn, y, yn);
  }

  /** `better_diff(a, b)` over the opcodes of the matcher. */
  method BetterDiff(a: seq<string>, b: seq<string>, ops: seq<Opcode>) returns (rows: seq<Row>)
    requires forall k :: 0 <= k < |ops| ==> InBounds(a, b, ops[k])
    ensures rows == DiffOf(a, b, ops)
  {
    rows := [];
    for i := 0 to |ops|
      invariant rows == DiffOf(a, b, ops[..i])
    {
      var op := ops[i];
      var c := OpColumns(a, b, op);
      assert ops[..i + 1][..i] == ops[..i];
      rows := rows + Zip(Label(op.tag), c);
    }
    assert ops[..|ops|] == ops;
  }

  /** How many rows an opcode contributes: the longer of its two ranges, or three for an
      equal run longer than five lines. */
  function RowCount(op: Opcode): nat {
    if op.tag == Equal && op.i2 - op.i1 > 5 then 3
    else if op.i2 - op.i1 < op.j2 - op.j1 then Max(0, op.j2 - op.j1) else Max(0, op.i2 - op.i1)
  }

  /** A matcher-shaped opcode gives `RowCount` rows. */
  lemma ChunkSize(a: seq<string>, b: seq<string>, op: Opcode)
    requires InBounds(a, b, op) && Shaped(op)
    ensures |Chunk(a, b, op)| == RowCount(op)
  {
  }

  function SumRows(ops: seq<Opcode>): nat {
    if ops == [] then 0 else SumRows(ops[..|ops| - 1]) + RowCount(ops[|ops| - 1])
  }

  /** The table has one row per line of each range, three per long equal run. */
  lemma {:induction false} DiffSize(a: seq<string>, b: seq<string>, ops: seq<Opcode>)
    requires forall k :: 0 <= k < |ops| ==> InBounds(a, b, ops[k]) && Shaped(ops[k])
    ensures |DiffOf(a, b, ops)| == SumRows(ops)
  {
    if ops != [] {
      DiffSize(a, b, ops[..|ops| - 1]);
      ChunkSize(a, b, ops[|ops| - 1]);
    }
  }

  /** Outside a long equal run, row k of an opcode shows line i1+k of `a` on the left while
      the left range lasts and a blank padding cell after it, and likewise line j1+k of `b`
      on the right; every row carries the tag's label. */
  lemma ChunkRows(a: seq<string>, b: seq<string>, op: Opcode, k: int)
    requires InBounds(a, b, op) && Shaped(op)
    requires !(op.tag == Equal && op.i2 - op.i1 > 5)
    requires 0 <= k < |Chunk(a, b, op)|
    ensures var r := Chunk(a, b, op)[k];
      r.kind == Label(op.tag)
      && (if k < op.i2 - op.i1 then r.x == a[op.i1 + k] && r.xn == Line(op.i1 + k) else r.x == "" && r.xn == NoLine)
      && (if k < op.j2 - op.j1 then r.y == b[op.j1 + k] && r.yn == Line(op.j1 + k) else r.y == "" && r.yn == NoLine)
  {
    var c := Sides(a, b, op);
    assert Chunk(a, b, op)[k] == Row(Label(op.tag), c.xn[k], c.x[k], c.yn[k], c.y[k]);
    LeftCell(a, b, op, k);
    RightCell(a, b, op, k);
  }

  lemma LeftCell(a: seq<string>, b: seq<string>, op: Opcode, k: int)
    requires InBounds(a, b, op) && Shaped(op)
    requires !(op.tag == Equal && op.i2 - op.i1 > 5)
    requires 0 <= k < |Chunk(a, b, op)|
    ensures var c := Sides(a, b, op);
      k < |c.x| && k < |c.xn|
      && (if k < op.i2 - op.i1 then c.x[k] == a[op.i1 + k] && c.xn[k] == Line(op.i1 + k) else c.x[k] == "" && c.xn[k] == NoLine)
  {
    var base := Base(a, b, op);
    var isize, jsize := op.i2 - op.i1, op.j2 - op.j1;
    match op.tag {
      case Insert => PadCells(base, jsize - isize, k);
      case Delete =>
      case Equal =>
      case Replace =>
        if isize < jsize {
          PadCells(base, jsize - isize, k);
        }
    }
  }

  lemma RightCell(a: seq<string>, b: seq<string>, op: Opcode, k: int)
    requires InBounds(a, b, op) && Shaped(op)
    requires !(op.tag == Equal && op.i2 - op.i1 > 5)
    requires 0 <= k < |Chunk(a, b, op)|
    ensures var c := Sides(a, b, op);
      k < |c.y| && k < |c.yn|
      && (if k < op.j2 - op.j1 then c.y[k] == b[op.j1 + k] && c.yn[k] == Line(op.j1 + k) else c.y[k] == "" && c.yn[k] == NoLine)
  {
    var base := Base(a, b, op);
    var isize, jsize := op.i2 - op.i1, op.j2 - op.j1;
    match op.tag {
      case Insert =>
      case Delete => PadCells(base, isize - jsize, k);
      case Equal =>
      case Replace =>
        if isize >= jsize {
          PadCells(base, isize - jsize, k);
        }
    }
  }

  /** Cell k of a padded side: the original cell while there is one, a blank after. */
  lemma PadCells(c: Columns, n: int, k: int)
    requires |c.x| == |c.xn| && |c.y| == |c.yn|
    requires 0 <= k
    ensures k < |c.x| + Max(0, n) ==>
      PadLeft(c, n).x[k] == (if k < |c.x| then c.x[k] else "")
      && PadLeft(c, n).xn[k] == (if k < |c.x| then c.xn[k] else NoLine)
    ensures k < |c.y| + Max(0, n) ==>
      PadRight(c, n).y[k] == (if k < |c.y| then c.y[k] else "")
      && PadRight(c, n).yn[k] == (if k < |c.y| then c.yn[k] else NoLine)
  {
  }

  /** An equal run longer than five lines collapses to its first line, an elision row and
      its last line, the same on both sides. */
  lemma ChunkCollapsed(a: seq<string>, b: seq<string>, op: Opcode)
    requires InBounds(a, b, op) && op.tag == Equal && op.i2 - op.i1 > 5
    ensures Chunk(a, b, op) == [
      Row("", Line(op.i1), a[op.i1], Line(op.i1), a[op.i1]),
      Row("", Elided, "", Elided, ""),
      Row("", Line(op.i2 - 1), a[op.i2 - 1], Line(op.i2 - 1), a[op.i2 - 1])]
  {
  }

  /** Row k of the table belongs to exactly one opcode's chunk: the table is the chunks in
      order. */
  lemma {:induction false} DiffAppend(a: seq<string>, b: seq<string>, ops: seq<Opcode>, op: Opcode)
    requires forall k :: 0 <= k < |ops| ==> InBounds(a, b, ops[k])
    requires InBounds(a, b, op)
    ensures DiffOf(a, b, ops + [op]) == DiffOf(a, b, ops) + Chunk(a, b, op)
  {
    assert (ops + [op])[..|ops|] == ops;
  }

  // ---------------------------------------------------------------- simple_diff

  /** One entry of `simple_diff`: the tag and the words of each side, joined by spaces. */
  datatype Entry = Entry(tag: Tag, left: string, right: string)

  /** `(a or '').split(' ')`. */
  function Words(s: Option<string>): (r: seq<string>)
    ensures |r| >= 1 && forall k :: 0 <= k < |r| ==> ' ' !in r[k]
  {
    Split(if s.None? then "" else s.value, ' ')
  }

  /** `simple_diff(a, b)` over the opcodes the matcher gives for the two word lists. */
  method SimpleDiff(a: Option<string>, b: Option<string>, ops: seq<Opcode>) returns (out: seq<Entry>)
    requires forall k :: 0 <= k < |ops| ==>
      0 <= ops[k].i1 <= ops[k].i2 <= |Words(a)| && 0 <= ops[k].j1 <= ops[k].j2 <= |Words(b)|
    ensures |out| == |ops|
    ensures forall k :: 0 <= k < |ops| ==> out[k] == EntryOf(Words(a), Words(b), ops[k])
  {
    var wa, wb := Words(a), Words(b);
    out := [];
    for i := 0 to |ops|
      invariant |out| == i
      invariant forall k :: 0 <= k < i ==> out[k] == EntryOf(wa, wb, ops[k])
    {
      var e := EntryOf(wa, wb, ops[i]);
      EntriesSnoc(wa, wb, ops, out, e);
      out := out + [e];
    }
  }

  /** Appending the next opcode's entry keeps the entries in step with the opcodes. */
  lemma EntriesSnoc(wa: seq<string>, wb: seq<string>, ops: seq<Opcode>, out: seq<Entry>, e: Entry)
    requires |out| < |ops|
    requires forall k :: 0 <= k < |ops| ==>
      0 <= ops[k].i1 <= ops[k].i2 <= |wa| && 0 <= ops[k].j1 <= ops[k].j2 <= |wb|
    requires forall k :: 0 <= k < |out| ==> out[k] == EntryOf(wa, wb, ops[k])
    requires e == EntryOf(wa, wb, ops[|out|])
    ensures forall k :: 0 <= k <= |out| ==> (out + [e])[k] == EntryOf(wa, wb, ops[k])
  {
  }

  /** The entry of one opcode over the two word lists: the opcode's tag, and the words of
      each side's range joined by single spaces. */
  function EntryOf(wa: seq<string>, wb: seq<string>, op: Opcode): Entry
    requires 0 <= op.i1 <= op.i2 <= |wa| && 0 <= op.j1 <= op.j2 <= |wb|
  {
    Entry(op.tag, Join(wa[op.i1..op.i2], " "), Join(wb[op.j1..op.j2], " "))
  }

  /** Each side of an entry splits back into exactly the words of its range. */
  lemma EntryWords(s: Option<string>, i1: int, i2: int)
    requires 0 <= i1 < i2 <= |Words(s)|
    ensures Split(Join(Words(s)[i1..i2], " "), ' ') == Words(s)[i1..i2]
  {
    var w := Words(s)[i1..i2];
    assert forall k :: 0 <= k < |w| ==> ' ' !in w[k];
    JoinSplit(w, ' ');
  }

  /** The words of the whole text join back into the text; None counts as "". */
  lemma WordsJoin(s: Option<string>)
    ensures Join(Words(s), " ") == if s.None? then "" else s.value
  {
    SplitJoin(if s.None? then "" else s.value, ' ');
  }
}
