/** The text log of the legacy tdb store (infogami/tdb/logger.py): one item per logged record,
    written as a header line "name id", one "key: value" line per field and a blank line. Field
    names are escaped so that they fit on one line and keep their colon apart from the value. */
module TdbLog {
  import opened Wrappers
  import opened Strings

  // ---------------------------------------------------------------------------------------------
  // Field names: `_keyencode` and `_keydecode`

  /** `s.replace(c, by)` for a one-character pattern. */
  function ReplaceChar(s: string, c: char, sub: string): (r: string)
    ensures c !in s ==> r == s
    ensures c !in sub ==> c !in r
  {
    if s == [] then []
    else (if s[0] == c then sub else [s[0]]) + ReplaceChar(s[1..], c, sub)
  }

  /** `_keyencode`: backslash first, then line feed, tab and colon, each written as a backslash pair. */
  function KeyEncode(k: string): string {
    ReplaceChar(ReplaceChar(ReplaceChar(ReplaceChar(k, '\\', "\\\\"), '\n', "\\n"), '\t', "\\t"), ':', "\\:")
  }

  /** What one character of a name becomes in the log. */
  function Escape(c: char): string {
    if c == '\\' then "\\\\"
    else if c == '\n' then "\\n"
    else if c == '\t' then "\\t"
    else if c == ':' then "\\:"
    else [c]
  }

  /** A name escaped character by character. */
  function Escaped(k: string): (r: string)
    ensures '\n' !in r && '\t' !in r
  {
    if k == [] then [] else Escape(k[0]) + Escaped(k[1..])
  }

  /** The character an escape pair `\x` stands for (the table in `_keydecode`). */
  function Unescape(c: char): char {
    if c == 'n' then '\n' else if c == 't' then '\t' else c
  }

  predicate IsEscapable(c: char) {
    c == '\\' || c == 'n' || c == 't' || c == ':'
  }

  /** `_keydecode`: the substitution of `\\([\\nt:])`, scanning left to right without overlaps. */
  function KeyDecode(s: string): string {
    if s == [] then []
    else if s[0] == '\\' && |s| >= 2 && IsEscapable(s[1]) then [Unescape(s[1])] + KeyDecode(s[2..])
    else [s[0]] + KeyDecode(s[1..])
  }

  lemma {:induction false} ReplaceConcat(a: string, b: string, c: char, sub: string)
    ensures ReplaceChar(a + b, c, sub) == ReplaceChar(a, c, sub) + ReplaceChar(b, c, sub)
  {
    if a == [] {
      assert a + b == b;
    } else {
      var s := a + b;
      assert s[0] == a[0] && s[1..] == a[1..] + b;
      var h := if a[0] == c then sub else [a[0]];
      ReplaceConcat(a[1..], b, c, sub);
      ConsShape(h, ReplaceChar(a[1..], c, sub), ReplaceChar(b, c, sub), ReplaceChar(s[1..], c, sub),
        ReplaceChar(s, c, sub), ReplaceChar(a, c, sub));
    }
  }

  lemma ConsShape(h: string, x: string, y: string, t: string, rs: string, ra: string)
    requires t == x + y && rs == h + t && ra == h + x
    ensures rs == ra + y
  {
    assert h + (x + y) == (h + x) + y;
  }

  /** The four replacements act on each character separately. */
  lemma KeyEncodeConcat(a: string, b: string)
    ensures KeyEncode(a + b) == KeyEncode(a) + KeyEncode(b)
  {
    var s1a := ReplaceChar(a, '\\', "\\\\");
    var s1b := ReplaceChar(b, '\\', "\\\\");
    ReplaceConcat(a, b, '\\', "\\\\");
    var s2a := ReplaceChar(s1a, '\n', "\\n");
    var s2b := ReplaceChar(s1b, '\n', "\\n");
    ReplaceConcat(s1a, s1b, '\n', "\\n");
    var s3a := ReplaceChar(s2a, '\t', "\\t");
    var s3b := ReplaceChar(s2b, '\t', "\\t");
    ReplaceConcat(s2a, s2b, '\t', "\\t");
    ReplaceConcat(s3a, s3b, ':', "\\:");
  }

  /** On one character the chain of replacements is the escape table. */
  lemma KeyEncodeChar(c: char)
    ensures KeyEncode([c]) == Escape(c)
  {
    assert [c][1..] == [];
    var s1 := ReplaceChar([c], '\\', "\\\\");
    var s2 := ReplaceChar(s1, '\n', "\\n");
    var s3 := ReplaceChar(s2, '\t', "\\t");
    if c == '\\' {
      assert s1 == "\\\\";
    } else if c == '\n' {
      assert s1 == [c] && s2 == "\\n";
    } else if c == '\t' {
      assert s1 == [c] && s2 == [c] && s3 == "\\t";
    } else {
      assert s1 == [c] && s2 == [c] && s3 == [c];
    }
  }

  /** `_keyencode` is the character-wise escape. */
  lemma {:induction false} KeyEncodeEscaped(k: string)
    ensures KeyEncode(k) == Escaped(k)
  {
    if k != [] {
      assert k == [k[0]] + k[1..];
      KeyEncodeConcat([k[0]], k[1..]);
      KeyEncodeChar(k[0]);
      KeyEncodeEscaped(k[1..]);
    }
  }

  lemma DecodeEscape(c: char, t: string)
    ensures KeyDecode(Escape(c) + t) == [c] + KeyDecode(t)
  {
    var s := Escape(c) + t;
    if c == '\\' || c == '\n' || c == '\t' || c == ':' {
      assert s[0] == '\\' && s[1] == Escape(c)[1] && s[2..] == t;
    } else {
      assert s[0] == c && s[1..] == t;
    }
  }

  /** Decoding an escaped name gives the name back. */
  lemma {:induction false} DecodeEscaped(k: string)
    ensures KeyDecode(Escaped(k)) == k
  {
    if k != [] {
      DecodeEscape(k[0], Escaped(k[1..]));
      DecodeEscaped(k[1..]);
      assert k == [k[0]] + k[1..];
    }
  }

  /** `_keydecode(_keyencode(k)) == k`, and the encoded name holds no line feed or tab. */
  lemma KeyRoundTrip(k: string)
    ensures KeyDecode(KeyEncode(k)) == k
    ensures '\n' !in KeyEncode(k) && '\t' !in KeyEncode(k)
  {
    KeyEncodeEscaped(k);
    DecodeEscaped(k);
  }

  // ---------------------------------------------------------------------------------------------
  // Field values: `_encode`

  newtype byte = x: int | 0 <= x < 256

  /** A value as `_encode` sees it: None, a boolean (an `int` to Python), an integer, a byte
      string, a reference to a thing by its id, or a list of values. */
  datatype Datum = Null | Bool(b: bool) | Int(i: int) | Bytes(s: seq<byte>) | Ref(id: int) | List(items: seq<Datum>)

  /** `repr(int(i))`: a value outside the 64-bit machine integers stays a `long` and gets an 'L'. */
  function EncodeInt(i: int): (r: string)
    ensures r != [] && !IsSpace(r[|r| - 1]) && '\n' !in r
  {
    var digits := IntToString(i);
    assert forall k :: 0 <= k < |digits| ==> digits[k] == '-' || IsDigit(digits[k]);
    digits + (if -0x8000_0000_0000_0000 <= i < 0x8000_0000_0000_0000 then "" else "L")
  }

  function HexDigit(n: nat): (c: char)
    requires n < 16
  {
    if n < 10 then ('0' as int + n) as char else ('a' as int + n - 10) as char
  }

  /** One byte inside a single-quoted Python 2 `repr`. */
  function ReprByte(b: byte): (r: string)
    ensures '\n' !in r && r != []
  {
    if b == 92 then "\\\\"
    else if b == 39 then "\\'"
    else if b == 9 then "\\t"
    else if b == 10 then "\\n"
    else if b == 13 then "\\r"
    else if b < 32 || b >= 127 then "\\x" + [HexDigit(b as nat / 16), HexDigit(b as nat % 16)]
    else [b as int as char]
  }

  /** The body of `repr(s)` between its single quotes. */
  function ReprBody(s: seq<byte>): (r: string)
    ensures '\n' !in r
  {
    if s == [] then [] else ReprByte(s[0]) + ReprBody(s[1..])
  }

  /** `_encode`: a list as "[a, b]", a byte string by `xrepr` (its `repr` forced into single quotes),
      an integer or boolean by `repr(int(v))`, a thing as 't' and its id, None as "None". */
  function Encode(v: Datum): (r: string)
    ensures r != [] && !IsSpace(r[|r| - 1]) && '\n' !in r
    decreases v, 1
  {
    match v
    case List(items) => "[" + EncodeItems(items) + "]"
    case Bytes(s) => "'" + ReprBody(s) + "'"
    case Int(i) => EncodeInt(i)
    case Bool(b) => if b then "1" else "0"
    case Ref(id) => "t" + EncodeInt(id)
    case Null => "None"
  }

  /** `", ".join` of the encoded items. */
  function EncodeItems(items: seq<Datum>): (r: string)
    ensures '\n' !in r
    decreases items, 0
  {
    if items == [] then []
    else if |items| == 1 then Encode(items[0])
    else Encode(items[0]) + ", " + EncodeItems(items[1..])
  }

  // ---------------------------------------------------------------------------------------------
  // Items: `format`

  /** A logged item: its kind ("thing", "version" or "data"), its id and its fields in order. */
  datatype Item = Item(name: string, id: int, fields: seq<(string, Datum)>)

  function HeaderLine(name: string, id: int): string {
    name + " " + IntToString(id)
  }

  function FieldLine(f: (string, Datum)): string {
    KeyEncode(f.0) + ": " + Encode(f.1)
  }

  function FieldLines(fields: seq<(string, Datum)>): (r: seq<string>)
    ensures |r| == |fields| && forall j :: 0 <= j < |fields| ==> r[j] == FieldLine(fields[j])
  {
    seq(|fields|, j requires 0 <= j < |fields| => FieldLine(fields[j]))
  }

  /** The lines of an item, without the blank line that ends it. */
  function ItemLines(t: Item): seq<string> {
    [HeaderLine(t.name, t.id)] + FieldLines(t.fields)
  }

  /** Lines written out, each followed by a line feed. */
  function Text(ls: seq<string>): string {
    if ls == [] then [] else ls[0] + "\n" + Text(ls[1..])
  }

  /** The text `format` writes for one item. */
  function ItemText(t: Item): string {
    Text(ItemLines(t) + [""])
  }

  /** The log after the given items were written in order. */
  function LogText(items: seq<Item>): string {
    if items == [] then [] else ItemText(items[0]) + LogText(items[1..])
  }

  lemma {:induction false} TextSnoc(ls: seq<string>, l: string)
    ensures Text(ls + [l]) == Text(ls) + l + "\n"
  {
    if ls == [] {
      assert ls + [l] == [l];
    } else {
      assert (ls + [l])[1..] == ls[1..] + [l];
      TextSnoc(ls[1..], l);
      ConsShape(ls[0] + "\n", Text(ls[1..]), l + "\n", Text(ls[1..] + [l]), Text(ls + [l]), Text(ls));
    }
  }

  /** `format`: the header line, a line per field, a blank line. */
  method Format(name: string, id: int, fields: seq<(string, Datum)>) returns (s: string)
    ensures s == ItemText(Item(name, id, fields))
  {
    s := "";
    s := s + HeaderLine(name, id) + "\n";
    assert s == Text([HeaderLine(name, id)]);
    var i := 0;
    while i < |fields|
      invariant 0 <= i <= |fields|
      invariant s == Text([HeaderLine(name, id)] + FieldLines(fields[..i]))
    {
      FormatStep(HeaderLine(name, id), fields, i);
      s := s + FieldLine(fields[i]) + "\n";
      i := i + 1;
    }
    assert fields[..i] == fields;
    TextSnoc(ItemLines(Item(name, id, fields)), "");
    s := s + "\n";
  }

  lemma FormatStep(h: string, fields: seq<(string, Datum)>, i: nat)
    requires i < |fields|
    ensures Text([h] + FieldLines(fields[..i + 1])) == Text([h] + FieldLines(fields[..i])) + FieldLine(fields[i]) + "\n"
  {
    FieldLinesSnoc(fields, i);
    assert [h] + FieldLines(fields[..i + 1]) == ([h] + FieldLines(fields[..i])) + [FieldLine(fields[i])];
    TextSnoc([h] + FieldLines(fields[..i]), FieldLine(fields[i]));
  }

  lemma FieldLinesSnoc(fields: seq<(string, Datum)>, i: nat)
    requires i < |fields|
    ensures FieldLines(fields[..i + 1]) == FieldLines(fields[..i]) + [FieldLine(fields[i])]
  {
    assert fields[..i + 1] == fields[..i] + [fields[i]];
    FieldLinesAppend(fields[..i], fields[i]);
  }

  lemma FieldLinesAppend(x: seq<(string, Datum)>, f: (string, Datum))
    ensures FieldLines(x + [f]) == FieldLines(x) + [FieldLine(f)]
  {
    var a := FieldLines(x + [f]);
    var b := FieldLines(x) + [FieldLine(f)];
    forall j | 0 <= j < |a| ensures a[j] == b[j] {
      if j < |x| {
        assert (x + [f])[j] == x[j];
      }
    }
  }

  // ---------------------------------------------------------------------------------------------
  // Reading: lines, `parse_items`

  /** `fd.xreadlines()` over the text of a file: each line keeps its line feed, the last may lack one. */
  function ReadLines(s: string): seq<string>
    decreases |s|
  {
    if s == [] then []
    else
      match IndexOf(s, '\n')
      case None => [s]
      case Some(i) => [s[..i + 1]] + ReadLines(s[i + 1..])
  }

  /** Every line stripped, as the finite reader does. */
  function StripAll(ls: seq<string>): (r: seq<string>)
    ensures |r| == |ls|
  {
    if ls == [] then [] else [Strip(ls[0])] + StripAll(ls[1..])
  }

  /** The finite reader's lines: the stripped lines of the file. */
  function FileLines(s: string): seq<string> {
    StripAll(ReadLines(s))
  }

  /** `parse_items` from a given buffer: a blank line yields the buffered lines, and lines
      left in the buffer when the input ends are never yielded. */
  function GroupsFrom(lines: seq<string>, buf: seq<string>): seq<seq<string>>
    decreases |lines|
  {
    if lines == [] then []
    else if lines[0] == "" then [buf] + GroupsFrom(lines[1..], [])
    else GroupsFrom(lines[1..], buf + [lines[0]])
  }

  function Groups(lines: seq<string>): seq<seq<string>> {
    GroupsFrom(lines, [])
  }

  /** `parse_items`: buffers non-blank lines and yields the buffer at each blank line. */
  method ParseItems(lines: seq<string>) returns (items: seq<seq<string>>)
    ensures items == Groups(lines)
  {
    items := [];
    var buf: seq<string> := [];
    var i := 0;
    while i < |lines|
      invariant 0 <= i <= |lines|
      invariant items + GroupsFrom(lines[i..], buf) == Groups(lines)
    {
      ParseItemsStep(lines, i, buf, items);
      if lines[i] == "" {
        items := items + [buf];
        buf := [];
      } else {
        buf := buf + [lines[i]];
      }
      i := i + 1;
    }
    assert lines[i..] == [];
  }

  lemma ParseItemsStep(lines: seq<string>, i: nat, buf: seq<string>, items: seq<seq<string>>)
    requires i < |lines|
    ensures lines[i] == "" ==> items + GroupsFrom(lines[i..], buf) == (items + [buf]) + GroupsFrom(lines[i + 1..], [])
    ensures lines[i] != "" ==> GroupsFrom(lines[i..], buf) == GroupsFrom(lines[i + 1..], buf + [lines[i]])
  {
    assert lines[i..][0] == lines[i] && lines[i..][1..] == lines[i + 1..];
    if lines[i] == "" {
      var g := GroupsFrom(lines[i + 1..], []);
      assert items + ([buf] + g) == (items + [buf]) + g;
    }
  }

  /** Items each followed by a blank line. */
  function Terminated(items: seq<seq<string>>): seq<string> {
    if items == [] then [] else items[0] + [""] + Terminated(items[1..])
  }

  predicate NoBlank(lines: seq<string>) {
    forall j :: 0 <= j < |lines| ==> lines[j] != ""
  }

  /** Lines after the last blank line are never yielded. */
  lemma {:induction false} UnterminatedDropped(lines: seq<string>, buf: seq<string>)
    requires NoBlank(lines)
    ensures GroupsFrom(lines, buf) == []
  {
    if lines != [] {
      UnterminatedDropped(lines[1..], buf + [lines[0]]);
    }
  }

  lemma {:induction false} GroupsTerminated(g: seq<string>, rest: seq<string>, buf: seq<string>)
    requires NoBlank(g)
    ensures GroupsFrom(g + [""] + rest, buf) == [buf + g] + GroupsFrom(rest, [])
  {
    var s := g + [""] + rest;
    if g == [] {
      assert s[0] == "" && s[1..] == rest;
      assert buf + g == buf;
    } else {
      assert s[0] == g[0] && s[1..] == g[1..] + [""] + rest;
      GroupsTerminated(g[1..], rest, buf + [g[0]]);
      assert buf + [g[0]] + g[1..] == buf + g;
    }
  }

  /** Items without blank lines, each ended by a blank line, are read back as they were; a
      trailing item with no blank line after it is not read. */
  lemma {:induction false} GroupsOfTerminated(items: seq<seq<string>>, tail: seq<string>)
    requires forall j :: 0 <= j < |items| ==> NoBlank(items[j])
    requires NoBlank(tail)
    ensures Groups(Terminated(items) + tail) == items
  {
    if items == [] {
      assert Terminated(items) + tail == tail;
      UnterminatedDropped(tail, []);
    } else {
      GroupsOfTerminated(items[1..], tail);
      assert Terminated(items) + tail == items[0] + [""] + (Terminated(items[1..]) + tail);
      GroupsTerminated(items[0], Terminated(items[1..]) + tail, []);
      assert [] + items[0] == items[0];
      assert items == [items[0]] + items[1..];
    }
  }

  /** A line `strip()` leaves as it is. */
  predicate CleanEnds(l: string) {
    l == [] || (!IsSpace(l[0]) && !IsSpace(l[|l| - 1]))
  }

  lemma {:induction false} IndexOfLine(l: string, rest: string)
    requires '\n' !in l
    ensures IndexOf(l + "\n" + rest, '\n') == Some(|l|)
  {
    var s := l + "\n" + rest;
    if l == [] {
      assert s[0] == '\n';
    } else {
      assert s[0] == l[0] && s[1..] == l[1..] + "\n" + rest;
      IndexOfLine(l[1..], rest);
    }
  }

  lemma StripLine(l: string)
    requires '\n' !in l && CleanEnds(l)
    ensures Strip(l + "\n") == l
  {
    var s := l + "\n";
    if l == [] {
      assert s[1..] == [];
      assert StripLeft(s) == ([], 1);
    } else {
      assert s[0] == l[0];
      assert StripLeft(s) == (s, 0);
      assert s[..|s| - 1] == l;
      assert StripRight(l) == (l, |l|);
    }
  }

  lemma ReadLinesCons(l: string, rest: string)
    requires '\n' !in l
    ensures ReadLines(l + "\n" + rest) == [l + "\n"] + ReadLines(rest)
  {
    var s := l + "\n" + rest;
    IndexOfLine(l, rest);
    assert s[..|l| + 1] == l + "\n" && s[|l| + 1..] == rest;
  }

  /** The finite reader gets back the lines that were written. */
  lemma {:induction false} FileLinesText(ls: seq<string>)
    requires forall j :: 0 <= j < |ls| ==> '\n' !in ls[j] && CleanEnds(ls[j])
    ensures FileLines(Text(ls)) == ls
  {
    if ls != [] {
      var rest := Text(ls[1..]);
      ReadLinesCons(ls[0], rest);
      var r := ReadLines(rest);
      assert ([ls[0] + "\n"] + r)[1..] == r;
      StripLine(ls[0]);
      FileLinesText(ls[1..]);
      assert ls == [ls[0]] + ls[1..];
    }
  }

  lemma {:induction false} TextConcat(a: seq<string>, b: seq<string>)
    ensures Text(a + b) == Text(a) + Text(b)
  {
    if a == [] {
      assert a + b == b;
    } else {
      assert (a + b)[0] == a[0] && (a + b)[1..] == a[1..] + b;
      TextConcat(a[1..], b);
      ConsShape(a[0] + "\n", Text(a[1..]), Text(b), Text(a[1..] + b), Text(a + b), Text(a));
    }
  }

  function AllItemLines(items: seq<Item>): (r: seq<seq<string>>)
    ensures |r| == |items| && forall j :: 0 <= j < |items| ==> r[j] == ItemLines(items[j])
  {
    seq(|items|, j requires 0 <= j < |items| => ItemLines(items[j]))
  }

  /** The log is the text of its items' lines, each item ended by a blank line. */
  lemma {:induction false} LogTextLines(items: seq<Item>)
    ensures LogText(items) == Text(Terminated(AllItemLines(items)))
  {
    if items != [] {
      LogTextLines(items[1..]);
      var ls := AllItemLines(items);
      assert ls[1..] == AllItemLines(items[1..]);
      assert Terminated(ls) == (ItemLines(items[0]) + [""]) + Terminated(ls[1..]);
      TextConcat(ItemLines(items[0]) + [""], Terminated(ls[1..]));
    }
  }

  // ---------------------------------------------------------------------------------------------
  // Parsing an item: the header's `split()` and `parse_data`

  /** `s.split()` from a partial word `w`: maximal runs of non-whitespace. */
  function WordsFrom(s: string, w: string): seq<string>
    decreases |s|
  {
    if s == [] then (if w == [] then [] else [w])
    else if IsSpace(s[0]) then (if w == [] then [] else [w]) + WordsFrom(s[1..], [])
    else WordsFrom(s[1..], w + [s[0]])
  }

  function Words(s: string): seq<string> {
    WordsFrom(s, [])
  }

  predicate IsWord(s: string) {
    s != [] && forall k :: 0 <= k < |s| ==> !IsSpace(s[k])
  }

  lemma {:induction false} WordsAppend(a: string, rest: string, w: string)
    requires forall k :: 0 <= k < |a| ==> !IsSpace(a[k])
    ensures WordsFrom(a + rest, w) == WordsFrom(rest, w + a)
  {
    if a == [] {
      assert a + rest == rest && w + a == w;
    } else {
      assert (a + rest)[0] == a[0] && (a + rest)[1..] == a[1..] + rest;
      WordsAppend(a[1..], rest, w + [a[0]]);
      assert w + [a[0]] + a[1..] == w + a;
    }
  }

  /** Two words joined by a space split back into the two words. */
  lemma WordsPair(a: string, b: string)
    requires IsWord(a) && IsWord(b)
    ensures Words(a + " " + b) == [a, b]
  {
    WordsAppend(a, " " + b, []);
    assert a + " " + b == a + (" " + b) && [] + a == a;
    assert (" " + b)[0] == ' ' && (" " + b)[1..] == b;
    WordsAppend(b, [], []);
    assert b + [] == b && [] + b == b;
  }

  lemma IntWord(i: int)
    ensures IsWord(IntToString(i))
  {
    var s := IntToString(i);
    if i < 0 {
      assert forall k :: 1 <= k < |s| ==> s[k] == NatToString(-i)[k - 1];
    }
  }

  /** `key, id = item[0].split()`: exactly two words, or Python's ValueError (here `None`). */
  function ParseHeader(line: string): (r: Option<(string, string)>)
    ensures r.Some? ==> Words(line) == [r.value.0, r.value.1]
  {
    var ws := Words(line);
    if |ws| == 2 then Some((ws[0], ws[1])) else None
  }

  /** The split of a field line at its first colon that is not part of an escape pair. */
  function SplitField(s: string): (r: Option<(string, string)>)
    ensures r.Some? ==> r.value.0 + ":" + r.value.1 == s
    decreases |s|
  {
    if s == [] then None
    else if s[0] == ':' then Some(([], s[1..]))
    else if s[0] == '\\' && |s| >= 2 then
      var t := SplitField(s[2..]);
      if t.None? then None
      else
        assert s == s[..2] + s[2..];
        Some((s[..2] + t.value.0, t.value.1))
    else
      var t := SplitField(s[1..]);
      if t.None? then None
      else
        assert s == [s[0]] + s[1..];
        Some(([s[0]] + t.value.0, t.value.1))
  }

  /** An escape pair, or one character that is neither a colon nor a backslash, is passed over. */
  lemma SplitFieldPrefix(e: string, u: string)
    requires (|e| == 2 && e[0] == '\\') || (|e| == 1 && e[0] != ':' && e[0] != '\\')
    requires SplitField(u).Some?
    ensures SplitField(e + u) == Some((e + SplitField(u).value.0, SplitField(u).value.1))
  {
    var s := e + u;
    if |e| == 2 {
      assert s[0] == '\\' && s[..2] == e && s[2..] == u;
    } else {
      assert s[0] == e[0] && s[1..] == u && [s[0]] == e;
    }
  }

  /** An escaped name ends at the colon written after it. */
  lemma {:induction false} SplitFieldEscaped(k: string, rest: string)
    ensures SplitField(Escaped(k) + ":" + rest) == Some((Escaped(k), rest))
  {
    if k == [] {
      var s := Escaped(k) + ":" + rest;
      assert s[0] == ':' && s[1..] == rest;
    } else {
      var e := Escape(k[0]);
      var t := Escaped(k[1..]);
      SplitFieldEscaped(k[1..], rest);
      SplitFieldPrefix(e, t + ":" + rest);
      assert Escaped(k) + ":" + rest == e + (t + ":" + rest);
    }
  }

  /** A field line split at its unescaped colon: the decoded name and the value text. */
  function ParseField(line: string): Option<(string, string)> {
    var t := SplitField(line);
    if t.None? then None else Some((KeyDecode(t.value.0), t.value.1))
  }

  /** `parse_data` as written: `line.split(":", 1)` splits at the first colon, escaped or not. */
  function ParseFieldAsWritten(line: string): Option<(string, string)> {
    var t := SplitOnce(line, ':');
    if t.None? then None else Some((KeyDecode(t.value.0), t.value.1))
  }

  lemma {:induction false} DecodeKeepsColonFree(s: string)
    requires ':' !in s
    ensures ':' !in KeyDecode(s)
  {
    if s != [] {
      if s[0] == '\\' && |s| >= 2 && IsEscapable(s[1]) {
        DecodeKeepsColonFree(s[2..]);
      } else {
        DecodeKeepsColonFree(s[1..]);
      }
    }
  }

  /** The field line of a name with a colon in it is read back as written under another name:
      the split falls on the escaped colon, so the name read has no colon. */
  lemma ParseFieldAsWrittenLosesColonNames(k: string, v: Datum)
    requires ':' in k
    ensures ParseFieldAsWritten(FieldLine((k, v))).Some?
    ensures ParseFieldAsWritten(FieldLine((k, v))).value.0 != k
  {
    var line := FieldLine((k, v));
    assert line[|KeyEncode(k)|] == ':';
    var t := SplitOnce(line, ':');
    DecodeKeepsColonFree(t.value.0);
  }

  lemma ColonSpace(e: string, v: string)
    ensures e + ": " + v == e + ":" + (" " + v)
  {
  }

  /** A field line is read back as its name and the value text after the colon. */
  lemma ParseFieldLine(f: (string, Datum))
    ensures ParseField(FieldLine(f)) == Some((f.0, " " + Encode(f.1)))
  {
    KeyEncodeEscaped(f.0);
    ColonSpace(Escaped(f.0), Encode(f.1));
    SplitFieldEscaped(f.0, " " + Encode(f.1));
    DecodeEscaped(f.0);
  }

  /** `parse_data` from a given dictionary: each field sets its name; a line without a colon is
      Python's ValueError. The value text is kept as read; decoding it is `eval`. */
  function DataFrom(lines: seq<string>, d: map<string, string>): Result<map<string, string>, string>
    decreases |lines|
  {
    if lines == [] then Ok(d)
    else
      var f := ParseField(lines[0]);
      if f.None? then Err("ValueError") else DataFrom(lines[1..], d[f.value.0 := f.value.1])
  }

  /** The dictionary the fields were logged from, each value as its encoded text. */
  function DataOf(fields: seq<(string, Datum)>, d: map<string, string>): map<string, string> {
    if fields == [] then d else DataOf(fields[1..], d[fields[0].0 := " " + Encode(fields[0].1)])
  }

  /** `parse_data`: a loop filling a dictionary from the field lines. */
  method ParseData(lines: seq<string>) returns (r: Result<map<string, string>, string>)
    ensures r == DataFrom(lines, map[])
  {
    var d: map<string, string> := map[];
    var i := 0;
    var failed := false;
    while i < |lines| && !failed
      invariant 0 <= i <= |lines|
      invariant !failed ==> DataFrom(lines[i..], d) == DataFrom(lines, map[])
      invariant failed ==> DataFrom(lines, map[]) == Err("ValueError")
      decreases |lines| - i, if failed then 0 else 1
    {
      assert lines[i..][0] == lines[i] && lines[i..][1..] == lines[i + 1..];
      var f := ParseField(lines[i]);
      if f.None? {
        failed := true;
      } else {
        d := d[f.value.0 := f.value.1];
        i := i + 1;
      }
    }
    if failed {
      r := Err("ValueError");
    } else {
      assert lines[i..] == [];
      r := Ok(d);
    }
  }

  /** Logged fields are read back as the dictionary they came from. */
  lemma {:induction false} DataRoundTrip(fields: seq<(string, Datum)>, d: map<string, string>)
    ensures DataFrom(FieldLines(fields), d) == Ok(DataOf(fields, d))
  {
    if fields != [] {
      var ls := FieldLines(fields);
      assert ls[1..] == FieldLines(fields[1..]);
      ParseFieldLine(fields[0]);
      DataRoundTrip(fields[1..], d[fields[0].0 := " " + Encode(fields[0].1)]);
    }
  }

  /** One item of the log: its kind, its id as text and its fields; an empty item (two blank
      lines in a row) is Python's IndexError. */
  function ParseItem(item: seq<string>): (r: Result<(string, string, map<string, string>), string>)
    ensures item == [] ==> r == Err("IndexError")
    ensures r.Ok? ==> item != [] && ParseHeader(item[0]) == Some((r.value.0, r.value.1))
    ensures r.Ok? ==> DataFrom(item[1..], map[]) == Ok(r.value.2)
  {
    if item == [] then Err("IndexError")
    else
      var h := ParseHeader(item[0]);
      if h.None? then Err("ValueError")
      else
        var d := DataFrom(item[1..], map[]);
        if d.Err? then Err(d.error) else Ok((h.value.0, h.value.1, d.value))
  }

  /** What `parse1` yields for a logged item. */
  function Parsed(t: Item): (string, string, map<string, string>) {
    (t.name, IntToString(t.id), DataOf(t.fields, map[]))
  }

  /** A field name whose escaped form `strip()` leaves alone at the front of its line. */
  predicate LeadsClean(k: string) {
    k == [] || !IsSpace(k[0]) || k[0] == '\n' || k[0] == '\t'
  }

  /** An item the reader gets back: a one-word kind and field names without leading blanks. */
  predicate Sound(t: Item) {
    IsWord(t.name) && forall j :: 0 <= j < |t.fields| ==> LeadsClean(t.fields[j].0)
  }

  /** The lines of an item with a one-word kind parse back into the item. */
  lemma ItemRoundTrip(t: Item)
    requires IsWord(t.name)
    ensures ParseItem(ItemLines(t)) == Ok(Parsed(t))
  {
    var ls := ItemLines(t);
    IntWord(t.id);
    WordsPair(t.name, IntToString(t.id));
    assert ls[1..] == FieldLines(t.fields);
    DataRoundTrip(t.fields, map[]);
  }

  // ---------------------------------------------------------------------------------------------
  // The whole log: `parse1`

  /** `parse1` over a finite log: the items in order, stopping at the first that fails. */
  function ParseAll(items: seq<seq<string>>): (r: Result<seq<(string, string, map<string, string>)>, string>)
    ensures r.Ok? ==> |r.value| == |items|
  {
    if items == [] then Ok([])
    else
      var first := ParseItem(items[0]);
      if first.Err? then Err(first.error)
      else
        var rest := ParseAll(items[1..]);
        if rest.Err? then rest else Ok([first.value] + rest.value)
  }

  /** `parse1` over the whole text of a log: one triple per item. */
  function ParseLog(text: string): (r: Result<seq<(string, string, map<string, string>)>, string>)
    ensures r.Ok? ==> |r.value| == |Groups(FileLines(text))|
  {
    ParseAll(Groups(FileLines(text)))
  }

  /** A line that survives writing and reading unchanged. */
  predicate LineOk(l: string) {
    '\n' !in l && CleanEnds(l)
  }

  lemma HeaderOk(t: Item)
    requires Sound(t)
    ensures LineOk(HeaderLine(t.name, t.id)) && HeaderLine(t.name, t.id) != ""
  {
    var n := IntToString(t.id);
    IntWord(t.id);
    var h := HeaderLine(t.name, t.id);
    assert h[0] == t.name[0] && h[|h| - 1] == n[|n| - 1];
    assert '\n' !in t.name by {
      assert forall k :: 0 <= k < |t.name| ==> t.name[k] != '\n';
    }
    assert '\n' !in n by {
      assert forall k :: 0 <= k < |n| ==> n[k] != '\n';
    }
  }

  lemma FieldOk(f: (string, Datum))
    requires LeadsClean(f.0)
    ensures LineOk(FieldLine(f)) && FieldLine(f) != ""
  {
    var e := KeyEncode(f.0);
    var v := Encode(f.1);
    KeyRoundTrip(f.0);
    KeyEncodeEscaped(f.0);
    var l := FieldLine(f);
    assert l == e + ": " + v;
    assert l[|l| - 1] == v[|v| - 1];
    if f.0 == [] {
      assert l[0] == ':';
    } else {
      assert e == Escape(f.0[0]) + Escaped(f.0[1..]);
      assert l[0] == e[0];
    }
  }

  lemma ItemLinesOk(t: Item)
    requires Sound(t)
    ensures forall j :: 0 <= j < |ItemLines(t)| ==> LineOk(ItemLines(t)[j]) && ItemLines(t)[j] != ""
  {
    HeaderOk(t);
    forall j | 0 <= j < |t.fields|
      ensures LineOk(FieldLine(t.fields[j])) && FieldLine(t.fields[j]) != ""
    {
      FieldOk(t.fields[j]);
    }
  }

  lemma {:induction false} TerminatedOk(ls: seq<seq<string>>)
    requires forall i :: 0 <= i < |ls| ==> forall j :: 0 <= j < |ls[i]| ==> LineOk(ls[i][j])
    ensures forall j :: 0 <= j < |Terminated(ls)| ==> LineOk(Terminated(ls)[j])
  {
    if ls != [] {
      TerminatedOk(ls[1..]);
      var a := ls[0] + [""];
      var b := Terminated(ls[1..]);
      assert Terminated(ls) == a + b;
      assert forall j :: 0 <= j < |a| ==> LineOk(a[j]);
    }
  }

  function AllParsed(items: seq<Item>): (r: seq<(string, string, map<string, string>)>)
    ensures |r| == |items| && forall j :: 0 <= j < |items| ==> r[j] == Parsed(items[j])
  {
    seq(|items|, j requires 0 <= j < |items| => Parsed(items[j]))
  }

  lemma {:induction false} ParseAllItems(items: seq<Item>)
    requires forall j :: 0 <= j < |items| ==> Sound(items[j])
    ensures ParseAll(AllItemLines(items)) == Ok(AllParsed(items))
  {
    if items != [] {
      var ls := AllItemLines(items);
      assert ls[0] == ItemLines(items[0]);
      ItemRoundTrip(items[0]);
      AllItemLinesTail(items);
      ParseAllItems(items[1..]);
      AllParsedCons(items);
    }
  }

  lemma AllItemLinesTail(items: seq<Item>)
    requires items != []
    ensures AllItemLines(items)[1..] == AllItemLines(items[1..])
  {
  }

  lemma AllParsedCons(items: seq<Item>)
    requires items != []
    ensures AllParsed(items) == [Parsed(items[0])] + AllParsed(items[1..])
  {
  }

  /** Reading a log back gives each logged item's kind, id and fields, in the order logged. */
  lemma LogRoundTrip(items: seq<Item>)
    requires forall j :: 0 <= j < |items| ==> Sound(items[j])
    ensures ParseLog(LogText(items)) == Ok(AllParsed(items))
  {
    var ls := AllItemLines(items);
    forall i | 0 <= i < |ls|
      ensures NoBlank(ls[i]) && forall j :: 0 <= j < |ls[i]| ==> LineOk(ls[i][j])
    {
      ItemLinesOk(items[i]);
    }
    LogTextLines(items);
    TerminatedOk(ls);
    FileLinesText(Terminated(ls));
    assert Terminated(ls) + [] == Terminated(ls);
    GroupsOfTerminated(ls, []);
    ParseAllItems(items);
  }
}
