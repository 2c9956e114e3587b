/** `bulkupload.py`: the SQL `IN` list, the PostgreSQL COPY text `multiple_insert` writes, and
    the walks `BulkUpload` makes over an upload query (keys, creates and datum rows). */
module BulkUpload {
  import opened Wrappers
  import opened Strings
  import Json

  // ---------------------------------------------------------------------------------------
  // sqlin

  /** The queries from the first non-empty one on: `sqljoin` adds the separator only once the
      result so far is non-empty, so leading empty queries vanish and later ones do not. */
  function SkipEmpty(qs: seq<string>): (r: seq<string>)
    ensures r == [] || r[0] != []
    ensures (forall i :: 0 <= i < |qs| ==> qs[i] != []) ==> r == qs
  {
    if qs == [] then [] else if qs[0] == [] then SkipEmpty(qs[1..]) else qs
  }

  lemma {:induction false} SkipEmptySnoc(a: seq<string>, q: string)
    ensures SkipEmpty(a + [q]) == if SkipEmpty(a) == [] then (if q == [] then [] else [q]) else SkipEmpty(a) + [q]
  {
    if a != [] {
      assert (a + [q])[1..] == a[1..] + [q];
      SkipEmptySnoc(a[1..], q);
    } else {
      assert [] + [q] == [q];
    }
  }

  /** One more query joined: a separator first unless the result so far is empty. */
  lemma SqlJoinStep(a: seq<string>, q: string, sep: string)
    ensures Join(SkipEmpty(a + [q]), sep) == (if Join(SkipEmpty(a), sep) != [] then Join(SkipEmpty(a), sep) + sep else []) + q
  {
    SkipEmptySnoc(a, q);
    var p := SkipEmpty(a);
    if p != [] {
      JoinSnoc(p, q, sep);
      assert |Join(p, sep)| >= |p[0]| by {
        if |p| > 1 { assert Join(p, sep) == p[0] + sep + Join(p[1..], sep); }
      }
    }
  }

  /** `sqljoin(queries, sep)`: the loop that joins the queries with the separator. */
  method SqlJoin(queries: seq<string>, sep: string) returns (result: string)
    ensures result == Join(SkipEmpty(queries), sep)
  {
    result := "";
    var i := 0;
    while i < |queries|
      invariant 0 <= i <= |queries|
      invariant result == Join(SkipEmpty(queries[..i]), sep)
    {
      SqlJoinStep(queries[..i], queries[i], sep);
      assert queries[..i + 1] == queries[..i] + [queries[i]];
      if result != "" {
        result := result + sep;
      }
      result := result + queries[i];
      i := i + 1;
    }
    assert queries[..i] == queries;
  }

  /** The integer parameters as `web.reparam('$v', ...)` shows them. */
  function Rendered(values: seq<int>): (r: seq<string>)
    ensures |r| == |values| && forall i :: 0 <= i < |values| ==> r[i] == IntToString(values[i])
  {
    seq(|values|, i requires 0 <= i < |values| => IntToString(values[i]))
  }

  /** `sqlin(name, values)`: an always-false condition for no values, else `name IN (...)`. */
  method SqlIn(name: string, values: seq<int>) returns (r: string)
    ensures values == [] ==> r == "1 = 2"
    ensures values != [] ==> r == name + " IN (" + Join(Rendered(values), ", ") + ")"
  {
    if values == [] {
      return "1 = 2";
    }
    var joined := SqlJoin(Rendered(values), ", ");
    r := name + " IN (" + joined + ")";
  }

  /** The docstring's list: ids 1 to 4 joined with ", ". */
  lemma SqlInExample()
    ensures Join(Rendered([1, 2, 3, 4]), ", ") == "1, 2, 3, 4"
  {
    var r := Rendered([1, 2, 3, 4]);
    assert NatToString(1) == "1" && NatToString(2) == "2" && NatToString(3) == "3" && NatToString(4) == "4";
    assert r == ["1", "2", "3", "4"];
    assert r[1..] == ["2", "3", "4"] && r[2..] == ["3", "4"] && r[3..] == ["4"];
  }

  // ---------------------------------------------------------------------------------------
  // COPY escaping

  /** A value `multiple_insert` writes: None, a string, a bool, an int, or any other value
      through the text `str` gives it. */
  datatype Cell = NullCell | TextCell(s: string) | BoolCell(b: bool) | IntCell(i: int) | OtherCell(shown: string)

  type Row = map<string, Cell>

  /** `s.replace(c, by)` for a one-character pattern. */
  function Replace(s: string, c: char, with: string): string {
    if s == [] then [] else (if s[0] == c then with else [s[0]]) + Replace(s[1..], c, with)
  }

  lemma {:induction false} ReplaceAppend(a: string, b: string, c: char, with: string)
    ensures Replace(a + b, c, with) == Replace(a, c, with) + Replace(b, c, with)
  {
    if a != [] {
      assert (a + b)[1..] == a[1..] + b;
      ReplaceAppend(a[1..], b, c, with);
    } else {
      assert a + b == b;
    }
  }

  /** `escape` on a string: backslash first, then tab, carriage return and newline. */
  function EscapeText(s: string): string {
    Replace(Replace(Replace(Replace(s, '\\', "\\\\"), '\t', "\\t"), '\r', "\\r"), '\n', "\\n")
  }

  /** What one character becomes in COPY text. */
  function EscapeChar(x: char): string {
    if x == '\\' then "\\\\"
    else if x == '\t' then "\\t"
    else if x == '\r' then "\\r"
    else if x == '\n' then "\\n"
    else [x]
  }

  function Charwise(s: string): string {
    if s == [] then [] else EscapeChar(s[0]) + Charwise(s[1..])
  }

  lemma EscapeAppend(a: string, b: string)
    ensures EscapeText(a + b) == EscapeText(a) + EscapeText(b)
  {
    var r1a, r1b := Replace(a, '\\', "\\\\"), Replace(b, '\\', "\\\\");
    ReplaceAppend(a, b, '\\', "\\\\");
    var r2a, r2b := Replace(r1a, '\t', "\\t"), Replace(r1b, '\t', "\\t");
    ReplaceAppend(r1a, r1b, '\t', "\\t");
    var r3a, r3b := Replace(r2a, '\r', "\\r"), Replace(r2b, '\r', "\\r");
    ReplaceAppend(r2a, r2b, '\r', "\\r");
    ReplaceAppend(r3a, r3b, '\n', "\\n");
  }

  lemma ReplaceTwo(x: char, y: char, c: char, with: string)
    requires x != c && y != c
    ensures Replace([x, y], c, with) == [x, y]
  {
    assert [x, y][1..] == [y];
    assert Replace([y], c, with) == [y] + Replace([], c, with);
  }

  lemma ReplaceOne(x: char, c: char, with: string)
    ensures Replace([x], c, with) == if x == c then with else [x]
  {
    assert [x][1..] == [];
  }

  lemma EscapeOne(x: char)
    ensures EscapeText([x]) == EscapeChar(x)
  {
    ReplaceOne(x, '\\', "\\\\");
    if x == '\\' {
      ReplaceTwo('\\', '\\', '\t', "\\t");
      ReplaceTwo('\\', '\\', '\r', "\\r");
      ReplaceTwo('\\', '\\', '\n', "\\n");
    } else {
      ReplaceOne(x, '\t', "\\t");
      if x == '\t' {
        ReplaceTwo('\\', 't', '\r', "\\r");
        ReplaceTwo('\\', 't', '\n', "\\n");
      } else {
        ReplaceOne(x, '\r', "\\r");
        if x == '\r' {
          ReplaceTwo('\\', 'r', '\n', "\\n");
        } else {
          ReplaceOne(x, '\n', "\\n");
        }
      }
    }
  }

  /** Because backslashes are replaced first, the four replacements together escape each
      character on its own: no backslash they add is escaped again. */
  lemma {:induction false} EscapeIsCharwise(s: string)
    ensures EscapeText(s) == Charwise(s)
  {
    if s != [] {
      assert s == [s[0]] + s[1..];
      EscapeAppend([s[0]], s[1..]);
      EscapeOne(s[0]);
      EscapeIsCharwise(s[1..]);
    } else {
      assert EscapeText(s) == [];
    }
  }

  /** PostgreSQL's reading of COPY text: a backslash and the letter after it stand for one
      character (t, r and n the control characters, anything else itself). */
  function Unescape(t: string): string
    decreases |t|
  {
    if t == [] then []
    else if t[0] == '\\' && |t| >= 2 then [Unbackslash(t[1])] + Unescape(t[2..])
    else [t[0]] + Unescape(t[1..])
  }

  function Unbackslash(c: char): char {
    if c == 't' then '\t' else if c == 'r' then '\r' else if c == 'n' then '\n' else c
  }

  lemma UnescapeChar(x: char, t: string)
    ensures Unescape(EscapeChar(x) + t) == [x] + Unescape(t)
  {
    var e := EscapeChar(x);
    if |e| == 2 {
      assert (e + t)[2..] == t;
    } else {
      assert (e + t)[1..] == t;
    }
  }

  lemma {:induction false} UnescapeCharwise(s: string)
    ensures Unescape(Charwise(s)) == s
  {
    if s != [] {
      UnescapeChar(s[0], Charwise(s[1..]));
      UnescapeCharwise(s[1..]);
      assert s == [s[0]] + s[1..];
    }
  }

  lemma {:induction false} CharwiseClean(s: string)
    ensures forall k :: 0 <= k < |Charwise(s)| ==> Charwise(s)[k] !in {'\t', '\n', '\r'}
  {
    if s != [] {
      CharwiseClean(s[1..]);
      var e := EscapeChar(s[0]);
      assert forall k :: 0 <= k < |e| ==> e[k] !in {'\t', '\n', '\r'};
      assert Charwise(s) == e + Charwise(s[1..]);
    }
  }

  /** Escaped text reads back as the original, holds no tab, newline or carriage return, and
      is never the NULL marker. */
  lemma EscapeTextRoundTrip(s: string)
    ensures Unescape(EscapeText(s)) == s
    ensures forall k :: 0 <= k < |EscapeText(s)| ==> EscapeText(s)[k] !in {'\t', '\n', '\r'}
    ensures EscapeText(s) != "\\N"
  {
    EscapeIsCharwise(s);
    UnescapeCharwise(s);
    CharwiseClean(s);
    CharwiseBackslash(s);
  }

  /** A backslash at the front of escaped text is followed by one of the escaped letters. */
  lemma CharwiseBackslash(s: string)
    ensures |Charwise(s)| >= 1 && Charwise(s)[0] == '\\' ==> |Charwise(s)| >= 2 && Charwise(s)[1] != 'N'
  {
    if s != [] {
      assert Charwise(s) == EscapeChar(s[0]) + Charwise(s[1..]);
    }
  }

  /** `escape(value)`. */
  function EscapeCell(c: Cell): string {
    match c
    case NullCell => "\\N"
    case TextCell(s) => EscapeText(s)
    case BoolCell(b) => if b then "t" else "f"
    case IntCell(i) => IntToString(i)
    case OtherCell(shown) => shown
  }

  /** The text a cell stands for in the table, None for NULL. */
  function CellText(c: Cell): Option<string> {
    match c
    case NullCell => None
    case TextCell(s) => Some(s)
    case BoolCell(b) => Some(if b then "t" else "f")
    case IntCell(i) => Some(IntToString(i))
    case OtherCell(shown) => Some(shown)
  }

  /** `str` of a value other than a string holds no backslash, tab or line break. */
  predicate PlainCell(c: Cell) {
    c.OtherCell? ==> forall k :: 0 <= k < |c.shown| ==> c.shown[k] !in {'\\', '\t', '\n', '\r'}
  }

  /** PostgreSQL's reading of one COPY field. */
  function DecodeCell(t: string): Option<string> {
    if t == "\\N" then None else Some(Unescape(t))
  }

  lemma {:induction false} UnescapePlain(t: string)
    requires forall k :: 0 <= k < |t| ==> t[k] != '\\'
    ensures Unescape(t) == t
  {
    if t != [] {
      UnescapePlain(t[1..]);
      assert t == [t[0]] + t[1..];
    }
  }

  lemma IntTextPlain(i: int)
    ensures forall k :: 0 <= k < |IntToString(i)| ==> IntToString(i)[k] !in {'\\', '\t', '\n', '\r'}
  {
    if i < 0 {
      var d := NatToString(-i);
      assert IntToString(i) == "-" + d;
      assert forall k :: 1 <= k < |IntToString(i)| ==> IntToString(i)[k] == d[k - 1];
    }
  }

  /** Every cell reads back as the text it stands for, and its field holds no separator. */
  lemma DecodeEscapeCell(c: Cell)
    requires PlainCell(c)
    ensures DecodeCell(EscapeCell(c)) == CellText(c)
    ensures forall k :: 0 <= k < |EscapeCell(c)| ==> EscapeCell(c)[k] !in {'\t', '\n'}
  {
    match c
    case NullCell =>
    case TextCell(s) => EscapeTextRoundTrip(s);
    case BoolCell(b) =>
      UnescapePlain(EscapeCell(c));
    case IntCell(i) =>
      IntTextPlain(i);
      UnescapePlain(IntToString(i));
      assert IntToString(i)[0] != '\\';
    case OtherCell(shown) =>
      UnescapePlain(shown);
  }

  /** `row` has exactly the table's columns. */
  predicate HasColumns(row: Row, columns: seq<string>) {
    && (forall i :: 0 <= i < |columns| ==> columns[i] in row)
    && (forall k :: k in row ==> k in columns)
  }

  /** Every row has exactly the table's columns. */
  predicate Fit(rows: seq<Row>, columns: seq<string>) {
    forall j :: 0 <= j < |rows| ==> HasColumns(rows[j], columns)
  }

  function Fields(row: Row, columns: seq<string>): (r: seq<string>)
    requires forall i :: 0 <= i < |columns| ==> columns[i] in row
    ensures |r| == |columns|
  {
    seq(|columns|, i requires 0 <= i < |columns| => EscapeCell(row[columns[i]]))
  }

  /** `"\t".join([escape(v[c]) for c in columns])`. */
  function CopyLine(row: Row, columns: seq<string>): string
    requires forall i :: 0 <= i < |columns| ==> columns[i] in row
  {
    Join(Fields(row, columns), "\t")
  }

  function Lines(rows: seq<Row>, columns: seq<string>): (r: seq<string>)
    requires forall r :: 0 <= r < |rows| ==> HasColumns(rows[r], columns)
    ensures |r| == |rows|
  {
    seq(|rows|, r requires 0 <= r < |rows| && HasColumns(rows[r], columns) => CopyLine(rows[r], columns))
  }

  /** `"\n".join(data)`: the rows in order, one line each. */
  function CopyText(rows: seq<Row>, columns: seq<string>): string
    requires forall r :: 0 <= r < |rows| ==> HasColumns(rows[r], columns)
  {
    Join(Lines(rows, columns), "\n")
  }

  /** PostgreSQL's reading of one COPY line: tab-separated fields, decoded. */
  function ReadLine(line: string): seq<Option<string>> {
    var fields := Split(line, '\t');
    seq(|fields|, i requires 0 <= i < |fields| => DecodeCell(fields[i]))
  }

  /** PostgreSQL's reading of a COPY file, line by line. */
  function ReadCopy(data: string): seq<seq<Option<string>>> {
    var lines := Split(data, '\n');
    seq(|lines|, r requires 0 <= r < |lines| => ReadLine(lines[r]))
  }

  /** The text each column of a row stands for. */
  function RowText(row: Row, columns: seq<string>): seq<Option<string>>
    requires forall i :: 0 <= i < |columns| ==> columns[i] in row
  {
    seq(|columns|, i requires 0 <= i < |columns| => CellText(row[columns[i]]))
  }

  predicate PlainRow(row: Row, columns: seq<string>)
    requires forall i :: 0 <= i < |columns| ==> columns[i] in row
  {
    forall i :: 0 <= i < |columns| ==> PlainCell(row[columns[i]])
  }

  lemma {:induction false} JoinClean(parts: seq<string>, sep: char, c: char)
    requires sep != c
    requires forall i :: 0 <= i < |parts| ==> c !in parts[i]
    ensures c !in Join(parts, [sep])
  {
    if |parts| > 1 {
      JoinClean(parts[1..], sep, c);
    }
  }

  /** One COPY line reads back as the text of the row's columns and holds no newline. */
  lemma CopyLineRoundTrip(row: Row, columns: seq<string>)
    requires columns != [] && forall i :: 0 <= i < |columns| ==> columns[i] in row
    requires PlainRow(row, columns)
    ensures ReadLine(CopyLine(row, columns)) == RowText(row, columns)
    ensures '\n' !in CopyLine(row, columns)
  {
    var f := Fields(row, columns);
    forall i | 0 <= i < |f| ensures '\t' !in f[i] && '\n' !in f[i] && DecodeCell(f[i]) == CellText(row[columns[i]]) {
      DecodeEscapeCell(row[columns[i]]);
    }
    JoinSplit(f, '\t');
    JoinClean(f, '\t', '\n');
  }

  /** The COPY file `multiple_insert` writes reads back, row by row and column by column, as
      the text of the values it was given. */
  lemma CopyRoundTrip(rows: seq<Row>, columns: seq<string>)
    requires rows != [] && columns != []
    requires forall r :: 0 <= r < |rows| ==> HasColumns(rows[r], columns) && PlainRow(rows[r], columns)
    ensures ReadCopy(CopyText(rows, columns)) == seq(|rows|, r requires 0 <= r < |rows| => RowText(rows[r], columns))
  {
    var lines := Lines(rows, columns);
    forall r | 0 <= r < |rows| ensures '\n' !in lines[r] && ReadLine(lines[r]) == RowText(rows[r], columns) {
      CopyLineRoundTrip(rows[r], columns);
    }
    JoinSplit(lines, '\n');
  }

  // ---------------------------------------------------------------------------------------
  // multiple_insert

  /** `seqname`: None (the table's own `<table>_id_seq`), a name, or False (no ids). */
  datatype SeqName = DefaultSeq | SeqCalled(name: string) | NoSeq

  /** A table's own sequence, `<table>_id_seq`. */
  function IdSeq(table: string): (r: string)
    ensures |r| == |table| + 7
  {
    table + "_id_seq"
  }

  /** The sequence ids are drawn from; the empty name stands for none, as a falsy name does. */
  function SequenceOf(table: string, seqname: SeqName): string {
    match seqname
    case DefaultSeq => IdSeq(table)
    case SeqCalled(name) => name
    case NoSeq => ""
  }

  /** `range(start, start + n)`. */
  function IdRange(start: int, n: nat): (r: seq<int>)
    ensures |r| == n && forall i :: 0 <= i < n ==> r[i] == start + i
  {
    seq(n, i requires 0 <= i < n => start + i)
  }

  /** The rows with their ids set: `v['id'] = id` for each row and id in turn. */
  function WithIds(values: seq<Row>, start: int): (r: seq<Row>)
    ensures |r| == |values|
  {
    seq(|values|, i requires 0 <= i < |values| => values[i]["id" := IntCell(start + i)])
  }

  /** What `multiple_insert` leaves behind: the ids it returns, the rows as the caller's dicts
      now read, the COPY file it loads (none for no rows) and the sequences' last values. */
  datatype Inserted = Inserted(ids: Option<seq<int>>, rows: seq<Row>, copy: Option<string>, sequences: map<string, int>)

  /** `multiple_insert(table, values, seqname)`: draws `len(values)` consecutive ids from the
      sequence (`setval(seq, last + n) + 1 - n`), stores each row's id under 'id', checks that
      every row has exactly the table's columns and writes the COPY text. */
  method MultipleInsert(table: string, values: seq<Row>, seqname: SeqName, columns: seq<string>, sequences: map<string, int>)
    returns (r: Result<Inserted, string>)
    ensures values == [] ==> r == Ok(Inserted(Some([]), [], None, sequences))
    ensures values != [] && SequenceOf(table, seqname) != [] && SequenceOf(table, seqname) !in sequences ==>
      r == Err("ProgrammingError")
    ensures values != [] && SequenceOf(table, seqname) == [] ==> r == Written(values, columns, None, sequences)
    ensures values != [] && SequenceOf(table, seqname) != [] && SequenceOf(table, seqname) in sequences ==>
      var s := SequenceOf(table, seqname);
      var start := sequences[s] + 1;
      r == Written(WithIds(values, start), columns, Some(IdRange(start, |values|)), sequences[s := sequences[s] + |values|])
  {
    if values == [] {
      return Ok(Inserted(Some([]), [], None, sequences));
    }
    var s := SequenceOf(table, seqname);
    if s == [] {
      r := WriteRows(values, columns, None, sequences);
    } else if s !in sequences {
      r := Err("ProgrammingError");
    } else {
      var n := |values|;
      var start := sequences[s] + 1;
      var rows := AssignIds(values, start);
      r := WriteRows(rows, columns, Some(IdRange(start, n)), sequences[s := sequences[s] + n]);
    }
  }

  /** The `for v, id in zip(values, ids)` loop. */
  method AssignIds(values: seq<Row>, start: int) returns (rows: seq<Row>)
    ensures rows == WithIds(values, start)
  {
    rows := values;
    var i := 0;
    while i < |values|
      invariant 0 <= i <= |values| && |rows| == |values|
      invariant forall j :: 0 <= j < i ==> rows[j] == values[j]["id" := IntCell(start + j)]
      invariant forall j :: i <= j < |values| ==> rows[j] == values[j]
    {
      rows := rows[i := rows[i]["id" := IntCell(start + i)]];
      i := i + 1;
    }
  }

  /** The `for v in values` loop: check each row's columns and collect its COPY line. */
  method WriteRows(rows: seq<Row>, columns: seq<string>, ids: Option<seq<int>>, sequences: map<string, int>)
    returns (r: Result<Inserted, string>)
    ensures r == Written(rows, columns, ids, sequences)
  {
    var data: seq<string> := [];
    var i := 0;
    while i < |rows|
      invariant 0 <= i <= |rows|
      invariant forall j :: 0 <= j < i ==> HasColumns(rows[j], columns)
      invariant data == Lines(rows[..i], columns)
    {
      if !HasColumns(rows[i], columns) {
        return Err("AssertionError");
      }
      assert Lines(rows[..i + 1], columns) == Lines(rows[..i], columns) + [CopyLine(rows[i], columns)];
      data := data + [CopyLine(rows[i], columns)];
      i := i + 1;
    }
    assert rows[..i] == rows;
    r := Ok(Inserted(ids, rows, Some(Join(data, "\n")), sequences));
  }

  /** The outcome once the ids are set: an AssertionError at a row whose keys are not the
      table's columns, else the COPY text of the rows. */
  function Written(rows: seq<Row>, columns: seq<string>, ids: Option<seq<int>>, sequences: map<string, int>): (r: Result<Inserted, string>)
    ensures r.Err? <==> exists j :: 0 <= j < |rows| && !HasColumns(rows[j], columns)
    ensures r.Err? ==> r.error == "AssertionError"
  {
    if forall j :: 0 <= j < |rows| ==> HasColumns(rows[j], columns) then
      Ok(Inserted(ids, rows, Some(CopyText(rows, columns)), sequences))
    else Err("AssertionError")
  }

  /** The ids `multiple_insert` hands out are consecutive from one past the sequence's last
      value, in row order, and each row carries its own. */
  lemma MultipleInsertIds(values: seq<Row>, columns: seq<string>, s: string, sequences: map<string, int>)
    requires values != [] && s in sequences
    requires forall j :: 0 <= j < |values| ==> HasColumns(values[j], columns)
    requires "id" in columns
    ensures var start := sequences[s] + 1;
      var r := Written(WithIds(values, start), columns, Some(IdRange(start, |values|)), sequences[s := sequences[s] + |values|]);
      && r.Ok? && r.value.ids.Some?
      && r.value.sequences[s] == sequences[s] + |values|
      && forall i :: 0 <= i < |values| ==> r.value.ids.value[i] == sequences[s] + 1 + i && r.value.rows[i]["id"] == IntCell(r.value.ids.value[i])
  {
    var start := sequences[s] + 1;
    var rows := WithIds(values, start);
    forall j | 0 <= j < |rows| ensures HasColumns(rows[j], columns) {
      assert rows[j] == values[j]["id" := IntCell(start + j)];
    }
  }

  // ---------------------------------------------------------------------------------------
  // find_keys

  /** No space, tab or newline. */
  predicate NoBlank(s: string) {
    forall i :: 0 <= i < |s| ==> s[i] !in {' ', '\t', '\n'}
  }

  /** `re.match('^/[^ \t\n]*$', key)` as Python evaluates it: `$` also matches just before a
      final newline, so a key may end in one newline. */
  predicate KeyMatchesAsWritten(key: string) {
    |key| >= 1 && key[0] == '/' &&
    (NoBlank(key[1..]) || (|key| >= 2 && key[|key| - 1] == '\n' && NoBlank(key[1..|key| - 1])))
  }

  /** The key check `find_keys` means: a slash and then no space, tab or newline at all. */
  predicate KeyMatches(key: string) {
    |key| >= 1 && key[0] == '/' && NoBlank(key[1..])
  }

  /** The check as written lets a key with a trailing newline through. */
  lemma KeyMatchesAsWrittenAdmitsNewline()
    ensures KeyMatchesAsWritten("/a\n") && !KeyMatches("/a\n")
  {
    var k := "/a\n";
    assert k[1..|k| - 1] == "a";
    assert k[1..][1] == '\n';
  }

  /** The intended check accepts what the written one accepts, except keys ending in a
      newline, and a key it accepts holds no blank at all. */
  lemma KeyMatchesSound(key: string)
    ensures KeyMatches(key) ==> KeyMatchesAsWritten(key)
    ensures KeyMatchesAsWritten(key) && !KeyMatches(key) ==> key[|key| - 1] == '\n'
    ensures KeyMatches(key) ==> ' ' !in key && '\t' !in key && '\n' !in key
  {
    if KeyMatches(key) {
      assert forall i :: 1 <= i < |key| ==> key[i] == key[1..][i - 1];
    }
  }

  /** The keys `find_keys` collects: depth first, a dict's own key before the keys inside it;
      a dict without 'key' is not looked into. */
  function KeysOf(q: Json.Value): (r: Result<seq<string>, string>)
    ensures r.Ok? ==> forall i :: 0 <= i < |r.value| ==> KeyMatches(r.value[i])
    ensures r.Ok? && q.Dict? && Json.Get(q.entries, "key").Some? && Json.IsText(Json.Get(q.entries, "key").value) ==>
      r.value != [] && r.value[0] == Json.TextOf(Json.Get(q.entries, "key").value)
    decreases q, 1
  {
    match q
    case List(items) => KeysOfList(items)
    case Dict(entries) =>
      var key := Json.Get(entries, "key");
      if key.None? then Ok([])
      else if !Json.IsText(key.value) then Err("TypeError")
      else if !KeyMatches(Json.TextOf(key.value)) then Err("AssertionError")
      else Then(Ok([Json.TextOf(key.value)]), KeysOfEntries(entries))
    case _ => Ok([])
  }

  /** The keys of the first walk, then of the second; the first error stops the walk. */
  function Then(a: Result<seq<string>, string>, b: Result<seq<string>, string>): (r: Result<seq<string>, string>)
    ensures r.Ok? <==> a.Ok? && b.Ok?
    ensures r.Ok? ==> r.value == a.value + b.value
  {
    if a.Err? then a else if b.Err? then b else Ok(a.value + b.value)
  }

  function KeysOfList(items: seq<Json.Value>): (r: Result<seq<string>, string>)
    ensures r.Ok? ==> forall i :: 0 <= i < |r.value| ==> KeyMatches(r.value[i])
    decreases items, 0
  {
    if items == [] then Ok([])
    else
      assert items[|items| - 1] in items;
      Then(KeysOfList(items[..|items| - 1]), KeysOf(items[|items| - 1]))
  }

  function KeysOfEntries(entries: seq<(string, Json.Value)>): (r: Result<seq<string>, string>)
    ensures r.Ok? ==> forall i :: 0 <= i < |r.value| ==> KeyMatches(r.value[i])
    decreases entries, 0
  {
    if entries == [] then Ok([])
    else
      var e := entries[|entries| - 1];
      assert e in entries && e.1 < e;
      Then(KeysOfEntries(entries[..|entries| - 1]), KeysOf(e.1))
  }

  lemma ThenAssoc(a: Result<seq<string>, string>, b: Result<seq<string>, string>, c: Result<seq<string>, string>)
    ensures Then(a, Then(b, c)) == Then(Then(a, b), c)
  {
    if a.Ok? && b.Ok? && c.Ok? {
      assert a.value + (b.value + c.value) == (a.value + b.value) + c.value;
    }
  }

  /** Once a prefix of the list fails, the whole list fails with the same error. */
  lemma KeysOfListErr(items: seq<Json.Value>, j: nat)
    requires j <= |items| && KeysOfList(items[..j]).Err?
    ensures KeysOfList(items) == KeysOfList(items[..j])
    decreases |items| - j
  {
    if j == |items| {
      assert items[..j] == items;
    } else {
      var pre := items[..|items| - 1];
      assert pre[..j] == items[..j];
      KeysOfListErr(pre, j);
    }
  }

  lemma KeysOfEntriesErr(entries: seq<(string, Json.Value)>, j: nat)
    requires j <= |entries| && KeysOfEntries(entries[..j]).Err?
    ensures KeysOfEntries(entries) == KeysOfEntries(entries[..j])
    decreases |entries| - j
  {
    if j == |entries| {
      assert entries[..j] == entries;
    } else {
      var pre := entries[..|entries| - 1];
      assert pre[..j] == entries[..j];
      KeysOfEntriesErr(pre, j);
    }
  }

  /** `find_keys(query, result)`: appends the keys found to `result`. */
  method FindKeys(query: Json.Value, result: seq<string>) returns (r: Result<seq<string>, string>)
    ensures r == Then(Ok(result), KeysOf(query))
    decreases query, 2
  {
    match query
    case List(items) =>
      r := FindKeysList(items, result);
    case Dict(entries) =>
      var key := Json.Get(entries, "key");
      if key.None? {
        assert result + [] == result;
        return Ok(result);
      }
      if !Json.IsText(key.value) {
        return Err("TypeError");
      }
      if !KeyMatches(Json.TextOf(key.value)) {
        return Err("AssertionError");
      }
      r := FindKeysEntries(entries, result + [Json.TextOf(key.value)]);
      ThenAssoc(Ok(result), Ok([Json.TextOf(key.value)]), KeysOfEntries(entries));
    case _ =>
      assert result + [] == result;
      r := Ok(result);
  }

  /** `for q in query: self.find_keys(q, result)`. */
  method FindKeysList(items: seq<Json.Value>, result: seq<string>) returns (r: Result<seq<string>, string>)
    ensures r == Then(Ok(result), KeysOfList(items))
    decreases items, 1
  {
    r := Ok(result);
    var i := 0;
    assert result + [] == result;
    while i < |items|
      invariant 0 <= i <= |items|
      invariant Then(Ok(result), KeysOfList(items[..i])) == r
      invariant r.Ok?
    {
      assert items[i] in items;
      assert items[..i + 1][..i] == items[..i];
      var next := FindKeys(items[i], r.value);
      ThenAssoc(Ok(result), KeysOfList(items[..i]), KeysOf(items[i]));
      if next.Err? {
        KeysOfListErr(items, i + 1);
        return next;
      }
      r := next;
      i := i + 1;
    }
    assert items[..i] == items;
  }

  /** `for k, v in query.items(): self.find_keys(v, result)`. */
  method FindKeysEntries(entries: seq<(string, Json.Value)>, result: seq<string>) returns (r: Result<seq<string>, string>)
    ensures r == Then(Ok(result), KeysOfEntries(entries))
    decreases entries, 1
  {
    r := Ok(result);
    var i := 0;
    assert result + [] == result;
    while i < |entries|
      invariant 0 <= i <= |entries|
      invariant Then(Ok(result), KeysOfEntries(entries[..i])) == r
      invariant r.Ok?
    {
      assert entries[i] in entries && entries[i].1 < entries[i];
      assert entries[..i + 1][..i] == entries[..i];
      var next := FindKeys(entries[i].1, r.value);
      ThenAssoc(Ok(result), KeysOfEntries(entries[..i]), KeysOf(entries[i].1));
      if next.Err? {
        KeysOfEntriesErr(entries, i + 1);
        return next;
      }
      r := next;
      i := i + 1;
    }
    assert entries[..i] == entries;
  }

  // ---------------------------------------------------------------------------------------
  // find_creates

  /** `self.comment` and `self.machine_comment`: the comments popped from created dicts. */
  datatype Notes = Notes(comment: map<string, Json.Value>, machine: map<string, Json.Value>)

  /** Notes only gain keys. */
  predicate Grows(a: Notes, b: Notes) {
    a.comment.Keys <= b.comment.Keys && a.machine.Keys <= b.machine.Keys
  }

  /** Every key has both its comments noted. */
  predicate Noted(keys: seq<string>, n: Notes) {
    forall i :: 0 <= i < |keys| ==> keys[i] in n.comment && keys[i] in n.machine
  }

  /** Where a walk of `find_creates` stops: the keys found or the error, the query as the walk
      left it (comments popped in place) and the notes. */
  datatype CreateWalk = CreateWalk(res: Result<seq<string>, string>, query: Json.Value, notes: Notes)
  datatype ItemsWalk = ItemsWalk(res: Result<seq<string>, string>, items: seq<Json.Value>, notes: Notes)
  datatype EntriesWalk = EntriesWalk(res: Result<seq<string>, string>, entries: seq<(string, Json.Value)>, notes: Notes)

  /** `d.pop(k, None)`'s value. */
  function Popped(entries: seq<(string, Json.Value)>, k: string): Json.Value {
    match Json.Get(entries, k)
    case None => Json.Null
    case Some(v) => v
  }

  /** `find_creates`: a dict with 'create' contributes its key, then the keys inside its values;
      afterwards its 'comment' and 'machine_comment' are popped into the notes under its key.
      A dict without 'create' is not looked into. */
  function CreatesOf(q: Json.Value, notes: Notes): (w: CreateWalk)
    ensures Grows(notes, w.notes)
    ensures w.res.Ok? ==> Noted(w.res.value, w.notes)
    decreases q, 1
  {
    match q
    case List(items) =>
      var w := CreatesOfList(items, notes);
      CreateWalk(w.res, Json.List(w.items), w.notes)
    case Dict(entries) =>
      var key := Json.Get(entries, "key");
      if !Json.HasKey(entries, "create") then CreateWalk(Ok([]), q, notes)
      else if key.None? then CreateWalk(Err("KeyError"), q, notes)
      else
        var w := CreatesOfEntries(entries, notes);
        if w.res.Err? then CreateWalk(w.res, Json.Dict(w.entries), w.notes)
        else
          var c := Popped(w.entries, "comment");
          var e1 := Json.Remove(w.entries, "comment");
          if !Json.IsText(key.value) then CreateWalk(Err("TypeError"), Json.Dict(e1), w.notes)
          else
            var k := Json.TextOf(key.value);
            var m := Popped(e1, "machine_comment");
            var e2 := Json.Remove(e1, "machine_comment");
            CreateWalk(Ok([k] + w.res.value), Json.Dict(e2), Notes(w.notes.comment[k := c], w.notes.machine[k := m]))
    case _ => CreateWalk(Ok([]), q, notes)
  }

  function CreatesOfList(items: seq<Json.Value>, notes: Notes): (w: ItemsWalk)
    ensures |w.items| == |items|
    ensures Grows(notes, w.notes)
    ensures w.res.Ok? ==> Noted(w.res.value, w.notes)
    decreases items, 0
  {
    if items == [] then ItemsWalk(Ok([]), [], notes)
    else
      var last := items[|items| - 1];
      assert last in items;
      var pre := CreatesOfList(items[..|items| - 1], notes);
      if pre.res.Err? then ItemsWalk(pre.res, pre.items + [last], pre.notes)
      else
        var w := CreatesOf(last, pre.notes);
        ItemsWalk(Then(pre.res, w.res), pre.items + [w.query], w.notes)
  }

  function CreatesOfEntries(entries: seq<(string, Json.Value)>, notes: Notes): (w: EntriesWalk)
    ensures |w.entries| == |entries| && forall i :: 0 <= i < |entries| ==> w.entries[i].0 == entries[i].0
    ensures Grows(notes, w.notes)
    ensures w.res.Ok? ==> Noted(w.res.value, w.notes)
    decreases entries, 0
  {
    if entries == [] then EntriesWalk(Ok([]), [], notes)
    else
      var last := entries[|entries| - 1];
      assert last in entries && last.1 < last;
      var pre := CreatesOfEntries(entries[..|entries| - 1], notes);
      if pre.res.Err? then EntriesWalk(pre.res, pre.entries + [last], pre.notes)
      else
        var w := CreatesOf(last.1, pre.notes);
        EntriesWalk(Then(pre.res, w.res), pre.entries + [(last.0, w.query)], w.notes)
  }

  /** A created dict's walk pops its comments and records its key first. */
  lemma CreatesPopsComments(entries: seq<(string, Json.Value)>, notes: Notes)
    requires Json.HasKey(entries, "create")
    requires Json.Get(entries, "key").Some? && Json.IsText(Json.Get(entries, "key").value)
    ensures var w := CreatesOf(Json.Dict(entries), notes);
      w.res.Ok? ==>
        && w.res.value[0] == Json.TextOf(Json.Get(entries, "key").value)
        && w.query.Dict? && !Json.HasKey(w.query.entries, "comment") && !Json.HasKey(w.query.entries, "machine_comment")
  {
    var w := CreatesOfEntries(entries, notes);
    var e1 := Json.Remove(w.entries, "comment");
    var e2 := Json.Remove(e1, "machine_comment");
    Json.GetRemove(e1, "machine_comment", "comment");
    Json.GetRemove(w.entries, "comment", "comment");
  }

  /** Once a prefix of the list fails, the walk of the whole list ends with the same error and notes. */
  lemma CreatesOfListErr(items: seq<Json.Value>, j: nat, notes: Notes)
    requires j <= |items| && CreatesOfList(items[..j], notes).res.Err?
    ensures CreatesOfList(items, notes).res == CreatesOfList(items[..j], notes).res
    ensures CreatesOfList(items, notes).notes == CreatesOfList(items[..j], notes).notes
    decreases |items| - j
  {
    if j == |items| {
      assert items[..j] == items;
    } else {
      var pre := items[..|items| - 1];
      assert pre[..j] == items[..j];
      CreatesOfListErr(pre, j, notes);
    }
  }

  lemma CreatesOfEntriesErr(entries: seq<(string, Json.Value)>, j: nat, notes: Notes)
    requires j <= |entries| && CreatesOfEntries(entries[..j], notes).res.Err?
    ensures CreatesOfEntries(entries, notes).res == CreatesOfEntries(entries[..j], notes).res
    ensures CreatesOfEntries(entries, notes).notes == CreatesOfEntries(entries[..j], notes).notes
    decreases |entries| - j
  {
    if j == |entries| {
      assert entries[..j] == entries;
    } else {
      var pre := entries[..|entries| - 1];
      assert pre[..j] == entries[..j];
      CreatesOfEntriesErr(pre, j, notes);
    }
  }

  // ---------------------------------------------------------------------------------------
  // prepare_datum

  /** `TYPES` and `DATATYPE_REFERENCE`, defined in a module that is not part of this model. */
  datatype Codes = Codes(types: map<string, int>, reference: int)

  /** `max_rev = 2 ** 31 - 1`: a datum row is valid from revision 1 on, for good. */
  const MaxRev: int := 0x7fff_ffff

  /** One row `prepare_datum` appends for the datum table. */
  datatype DatumRow = DatumRow(thingId: int, begin: int, end: int, key: string, value: Json.Value, code: int, ordering: Option<nat>)

  /** `TYPES[name]`. */
  function TypeCode(codes: Codes, name: string): Result<int, string> {
    if name in codes.types then Ok(codes.types[name]) else Err("KeyError")
  }

  function Tag(v: Json.Value, codes: Codes, name: string): (r: Result<(Json.Value, int), string>)
    ensures r.Ok? <==> name in codes.types
    ensures r.Ok? ==> r.value == (v, codes.types[name])
  {
    match TypeCode(codes, name)
    case Ok(c) => Ok((v, c))
    case Err(e) => Err(e)
  }

  /** `prepare_datum` on a value that is not a dict, as written: every string-like value
      (`str`, `Text`, `Reference`) is a string, a bool passes the int test first, and the
      error for anything else, a `long` included, is built by calling a string, a TypeError. */
  function ScalarAsWritten(q: Json.Value, codes: Codes): Result<(Json.Value, int), string> {
    match q
    case Str(_) => Tag(q, codes, "/type/string")
    case Text(_) => Tag(q, codes, "/type/string")
    case Ref(_) => Tag(q, codes, "/type/string")
    case Int(i) => if Json.IsShortInt(i) then Tag(q, codes, "/type/int") else Err("TypeError")
    case Bool(_) => Tag(q, codes, "/type/int")
    case Float(_) => Tag(q, codes, "/type/float")
    case _ => Err("TypeError")
  }

  /** `prepare_datum` on a value that is not a dict, as meant: a bool is stored as 0 or 1
      tagged boolean, and anything else, a `long` included, fails with the path in the message. */
  function Scalar(q: Json.Value, codes: Codes, path: string): (r: Result<(Json.Value, int), string>)
    ensures q.Bool? && "/type/boolean" in codes.types ==> r == Ok((Json.Int(if q.b then 1 else 0), codes.types["/type/boolean"]))
    ensures Json.IsText(q) ==> r == Tag(q, codes, "/type/string")
    ensures !q.Bool? && (q.List? || q.Null? || q.Dict? || (q.Int? && !Json.IsShortInt(q.i))) ==> r == Err(path + ": invalid value")
    ensures !q.Bool? && r.Ok? ==> r.value.0 == q
  {
    match q
    case Str(_) => Tag(q, codes, "/type/string")
    case Text(_) => Tag(q, codes, "/type/string")
    case Ref(_) => Tag(q, codes, "/type/string")
    case Int(i) => if Json.IsShortInt(i) then Tag(q, codes, "/type/int") else Err(path + ": invalid value")
    case Float(_) => Tag(q, codes, "/type/float")
    case Bool(b) => Tag(Json.Int(if b then 1 else 0), codes, "/type/boolean")
    case _ => Err(path + ": invalid value")
  }

  /** As written, a bool is stored as itself under the int type and the boolean branch is never
      reached; where the int and boolean codes differ the row's datatype is wrong. */
  lemma ScalarAsWrittenTagsBoolAsInt(b: bool, codes: Codes, path: string)
    requires "/type/int" in codes.types && "/type/boolean" in codes.types
    requires codes.types["/type/int"] != codes.types["/type/boolean"]
    ensures ScalarAsWritten(Json.Bool(b), codes) == Ok((Json.Bool(b), codes.types["/type/int"]))
    ensures ScalarAsWritten(Json.Bool(b), codes) != Scalar(Json.Bool(b), codes, path)
    ensures ScalarAsWritten(Json.Null, codes) == Err("TypeError")
  {
  }

  /** Where a datum walk stops: the (value, datatype) pair or the error, the keys still to be
      expanded (`self.created`) and the rows appended so far. */
  datatype DatumState = DatumState(created: set<string>, rows: seq<DatumRow>)
  datatype DatumWalk = DatumWalk(res: Result<(Json.Value, int), string>, st: DatumState)
  datatype RowsWalk = RowsWalk(err: Option<string>, st: DatumState)

  /** The walk only removes keys from `created` and only appends rows, each valid from
      revision 1 to `MaxRev`. */
  predicate Extends(a: DatumState, b: DatumState) {
    && b.created <= a.created
    && a.rows <= b.rows
    && forall i :: |a.rows| <= i < |b.rows| ==> b.rows[i].begin == 1 && b.rows[i].end == MaxRev
  }

  lemma ExtendsTrans(a: DatumState, b: DatumState, c: DatumState)
    requires Extends(a, b) && Extends(b, c)
    ensures Extends(a, c)
  {
    forall i | |a.rows| <= i < |c.rows| ensures c.rows[i].begin == 1 && c.rows[i].end == MaxRev {
      if i < |b.rows| {
        assert c.rows[i] == b.rows[i];
      }
    }
  }

  /** The error of `TYPES[v]` or `key2id[v]` when the lookup fails: a list or a dict is
      unhashable, a TypeError; a missing entry or any other value is a KeyError. */
  function LookupError(v: Option<Json.Value>): (e: string)
    ensures e == "TypeError" || e == "KeyError"
    ensures e == "TypeError" <==> v.Some? && (v.value.List? || v.value.Dict?)
  {
    if v.Some? && (v.value.List? || v.value.Dict?) then "TypeError" else "KeyError"
  }

  /** `prepare_datum(query, result, path)`: a dict with 'value' is a typed value; any other dict
      names a thing by its key, whose rows are appended the first time it is met while it is
      still to be created; every other value is a scalar. */
  function DatumOf(q: Json.Value, path: string, st: DatumState, codes: Codes, key2id: map<string, int>): (w: DatumWalk)
    ensures Extends(st, w.st)
    decreases q, 2
  {
    match q
    case Dict(entries) =>
      if Json.HasKey(entries, "value") then
        var t := Json.Get(entries, "type");
        if t.None? || !Json.IsText(t.value) then DatumWalk(Err(LookupError(t)), st)
        else DatumWalk(Tag(Json.Get(entries, "value").value, codes, Json.TextOf(t.value)), st)
      else
        var key := Json.Get(entries, "key");
        if key.None? || !Json.IsText(key.value) || Json.TextOf(key.value) !in key2id then DatumWalk(Err(LookupError(key)), st)
        else
          var k := Json.TextOf(key.value);
          var id := key2id[k];
          if k !in st.created then DatumWalk(Ok((Json.Int(id), codes.reference)), st)
          else
            var w := DatumEntries(id, entries, path, DatumState(st.created - {k}, st.rows), codes, key2id);
            ExtendsTrans(st, DatumState(st.created - {k}, st.rows), w.st);
            if w.err.Some? then DatumWalk(Err(w.err.value), w.st)
            else DatumWalk(Ok((Json.Int(id), codes.reference)), w.st)
    case _ => DatumWalk(Scalar(q, codes, path), st)
  }

  /** The `for key, value in query.items()` loop of a thing being created: 'create' is skipped,
      a list gives one row per item with its position, any other value one row without, and
      the 'key' row is forced to datatype 1. */
  function DatumEntries(id: int, entries: seq<(string, Json.Value)>, path: string, st: DatumState, codes: Codes, key2id: map<string, int>): (w: RowsWalk)
    ensures Extends(st, w.st)
    ensures w.err.None? && entries != [] && entries[|entries| - 1].0 == "key" && !entries[|entries| - 1].1.List? ==>
      w.st.rows != [] && w.st.rows[|w.st.rows| - 1].key == "key" && w.st.rows[|w.st.rows| - 1].code == 1
    decreases entries, 1
  {
    if entries == [] then RowsWalk(None, st)
    else
      var last := entries[|entries| - 1];
      assert last in entries && last.1 < last;
      var pre := DatumEntries(id, entries[..|entries| - 1], path, st, codes, key2id);
      if pre.err.Some? || last.0 == "create" then pre
      else if last.1.List? then
        var w := DatumItems(id, last.0, last.1.items, path + "/" + last.0, pre.st, codes, key2id);
        ExtendsTrans(st, pre.st, w.st);
        w
      else
        var sub := DatumOf(last.1, path + "/" + last.0, pre.st, codes, key2id);
        ExtendsTrans(st, pre.st, sub.st);
        if sub.res.Err? then RowsWalk(Some(sub.res.error), sub.st)
        else
          var code := if last.0 == "key" then 1 else sub.res.value.1;
          var row := DatumRow(id, 1, MaxRev, last.0, sub.res.value.0, code, None);
          ExtendsTrans(st, sub.st, DatumState(sub.st.created, sub.st.rows + [row]));
          RowsWalk(None, DatumState(sub.st.created, sub.st.rows + [row]))
  }

  /** `for i, v in enumerate(value)`: each item's row carries its position. */
  function DatumItems(id: int, key: string, items: seq<Json.Value>, path: string, st: DatumState, codes: Codes, key2id: map<string, int>): (w: RowsWalk)
    ensures Extends(st, w.st)
    decreases items, 1
  {
    if items == [] then RowsWalk(None, st)
    else
      var i := |items| - 1;
      assert items[i] in items;
      var pre := DatumItems(id, key, items[..i], path, st, codes, key2id);
      if pre.err.Some? then pre
      else
        var sub := DatumOf(items[i], path + "#" + NatToString(i), pre.st, codes, key2id);
        ExtendsTrans(st, pre.st, sub.st);
        if sub.res.Err? then RowsWalk(Some(sub.res.error), sub.st)
        else
          var row := DatumRow(id, 1, MaxRev, key, sub.res.value.0, sub.res.value.1, Some(i));
          ExtendsTrans(st, sub.st, DatumState(sub.st.created, sub.st.rows + [row]));
          RowsWalk(None, DatumState(sub.st.created, sub.st.rows + [row]))
  }

  /** A thing's rows are emitted once: after its dict has been walked, walking it again only
      yields the reference, with no rows and nothing else changed. */
  lemma DatumOnce(entries: seq<(string, Json.Value)>, path: string, again: string, st: DatumState, codes: Codes, key2id: map<string, int>)
    requires !Json.HasKey(entries, "value")
    requires Json.Get(entries, "key").Some? && Json.IsText(Json.Get(entries, "key").value) && Json.TextOf(Json.Get(entries, "key").value) in key2id
    ensures var w := DatumOf(Json.Dict(entries), path, st, codes, key2id);
      w.res.Ok? ==> DatumOf(Json.Dict(entries), again, w.st, codes, key2id) == w
  {
    var k := Json.TextOf(Json.Get(entries, "key").value);
    if k in st.created {
      var w := DatumEntries(key2id[k], entries, path, DatumState(st.created - {k}, st.rows), codes, key2id);
      assert k !in w.st.created;
    }
  }

  /** A typed value whose 'type' is a list or a dict, and a thing reference whose 'key' is
      one, fail with TypeError and change nothing; any other failed lookup is a KeyError. */
  lemma DatumLookupErrors(entries: seq<(string, Json.Value)>, path: string, st: DatumState, codes: Codes, key2id: map<string, int>)
    ensures var w := DatumOf(Json.Dict(entries), path, st, codes, key2id);
      var t, key := Json.Get(entries, "type"), Json.Get(entries, "key");
      && (Json.HasKey(entries, "value") && t.Some? && (t.value.List? || t.value.Dict?) ==> w == DatumWalk(Err("TypeError"), st))
      && (Json.HasKey(entries, "value") && t.None? ==> w == DatumWalk(Err("KeyError"), st))
      && (!Json.HasKey(entries, "value") && key.Some? && (key.value.List? || key.value.Dict?) ==> w == DatumWalk(Err("TypeError"), st))
      && (!Json.HasKey(entries, "value") && key.Some? && !key.value.List? && !key.value.Dict? && !Json.IsText(key.value) ==> w == DatumWalk(Err("KeyError"), st))
  {
  }

  /** Scalars are tagged the same whatever their path. */
  predicate ScalarsOk(items: seq<Json.Value>, codes: Codes) {
    forall i :: 0 <= i < |items| ==> !items[i].Dict? && Scalar(items[i], codes, "").Ok?
  }

  lemma ScalarPath(q: Json.Value, codes: Codes, path: string)
    requires !q.Dict? && Scalar(q, codes, "").Ok?
    ensures Scalar(q, codes, path) == Scalar(q, codes, "")
  {
  }

  /** The rows of a list of scalars under `key`: one per item, in order, at its position. */
  function ItemRows(id: int, key: string, items: seq<Json.Value>, codes: Codes): (r: seq<DatumRow>)
    requires ScalarsOk(items, codes)
    ensures |r| == |items|
  {
    seq(|items|, i requires 0 <= i < |items| && ScalarsOk(items, codes) =>
      DatumRow(id, 1, MaxRev, key, Scalar(items[i], codes, "").value.0, Scalar(items[i], codes, "").value.1, Some(i)))
  }

  /** List items get their position as ordering: a list of scalars appends exactly one row per
      item, item i with ordering i. */
  lemma {:induction false} DatumItemsOrdering(id: int, key: string, items: seq<Json.Value>, path: string, st: DatumState, codes: Codes, key2id: map<string, int>)
    requires ScalarsOk(items, codes)
    ensures DatumItems(id, key, items, path, st, codes, key2id) == RowsWalk(None, DatumState(st.created, st.rows + ItemRows(id, key, items, codes)))
    decreases |items|
  {
    if items == [] {
      assert st.rows + [] == st.rows;
    } else {
      var i := |items| - 1;
      var pre := items[..i];
      assert ScalarsOk(pre, codes);
      DatumItemsOrdering(id, key, pre, path, st, codes, key2id);
      ScalarPath(items[i], codes, path + "#" + NatToString(i));
      assert ItemRows(id, key, items, codes) == ItemRows(id, key, pre, codes) + [ItemRows(id, key, items, codes)[i]];
    }
  }

  /** Once a prefix of a thing's entries fails, the walk of all of them ends the same way. */
  lemma DatumEntriesErr(id: int, entries: seq<(string, Json.Value)>, j: nat, path: string, st: DatumState, codes: Codes, key2id: map<string, int>)
    requires j <= |entries| && DatumEntries(id, entries[..j], path, st, codes, key2id).err.Some?
    ensures DatumEntries(id, entries, path, st, codes, key2id) == DatumEntries(id, entries[..j], path, st, codes, key2id)
    decreases |entries| - j
  {
    if j == |entries| {
      assert entries[..j] == entries;
    } else {
      var pre := entries[..|entries| - 1];
      assert pre[..j] == entries[..j];
      DatumEntriesErr(id, pre, j, path, st, codes, key2id);
    }
  }

  lemma DatumItemsErr(id: int, key: string, items: seq<Json.Value>, j: nat, path: string, st: DatumState, codes: Codes, key2id: map<string, int>)
    requires j <= |items| && DatumItems(id, key, items[..j], path, st, codes, key2id).err.Some?
    ensures DatumItems(id, key, items, path, st, codes, key2id) == DatumItems(id, key, items[..j], path, st, codes, key2id)
    decreases |items| - j
  {
    if j == |items| {
      assert items[..j] == items;
    } else {
      var pre := items[..|items| - 1];
      assert pre[..j] == items[..j];
      DatumItemsErr(id, key, pre, j, path, st, codes, key2id);
    }
  }

  // ---------------------------------------------------------------------------------------
  // The BulkUpload object

  /** A JSON value as a COPY cell; `show` stands for `str` on the values COPY has no form for. */
  function ValueCell(v: Json.Value, show: Json.Value -> string): Cell {
    match v
    case Null => NullCell
    case Str(s) => TextCell(s)
    case Text(t) => TextCell(t)
    case Bool(b) => BoolCell(b)
    case Int(i) => IntCell(i)
    case _ => OtherCell(show(v))
  }

  /** The datum table row of a `DatumRow`. */
  function DatumCells(d: DatumRow, show: Json.Value -> string): Row {
    map[
      "thing_id" := IntCell(d.thingId), "begin_revision" := IntCell(d.begin), "end_revision" := IntCell(d.end),
      "key" := TextCell(d.key), "value" := ValueCell(d.value, show), "datatype" := IntCell(d.code),
      "ordering" := if d.ordering.Some? then IntCell(d.ordering.value) else NullCell]
  }

  function DatumTable(rows: seq<DatumRow>, show: Json.Value -> string): (r: seq<Row>)
    ensures |r| == |rows|
  {
    seq(|rows|, i requires 0 <= i < |rows| => DatumCells(rows[i], show))
  }

  /** The keys to create: those found, once each, that the key cache does not know yet. */
  function ToBeCreated(found: seq<string>, key2id: map<string, int>): (r: seq<string>)
    ensures forall k :: k in r <==> k in found && k !in key2id
    ensures forall i, j :: 0 <= i < j < |r| ==> r[i] != r[j]
  {
    var d := Dedup(found);
    var r := seq(|d|, i requires 0 <= i < |d| => d[i]);
    assert r == d;
    Filter(d, key2id)
  }

  function Filter(d: seq<string>, key2id: map<string, int>): (r: seq<string>)
    requires forall x :: x in d ==> multiset(d)[x] == 1
    ensures forall k :: k in r <==> k in d && k !in key2id
    ensures forall i, j :: 0 <= i < j < |r| ==> r[i] != r[j]
  {
    if d == [] then []
    else
      var rest := d[..|d| - 1];
      var x := d[|d| - 1];
      assert d == rest + [x];
      assert multiset(d) == multiset(rest) + multiset{x};
      assert forall y :: y in rest ==> multiset(rest)[y] == 1 by {
        forall y | y in rest ensures multiset(rest)[y] == 1 {
          assert multiset(d)[y] == multiset(rest)[y] + (if y == x then 1 else 0);
        }
      }
      assert x !in rest by {
        assert multiset(d)[x] == multiset(rest)[x] + 1;
      }
      var r := Filter(rest, key2id);
      if x in key2id then r else r + [x]
  }

  /** `get_table_columns(table)`: the table's columns, none for a table that does not exist. */
  function TableColumns(columns: map<string, seq<string>>, table: string): seq<string> {
    if table in columns then columns[table] else []
  }

  /** The sequences after `multiple_insert` drew its ids: `setval` is not undone by a rollback,
      and it happens before the rows are checked, so this holds whether or not the insert fails. */
  function Drawn(table: string, n: nat, seqname: SeqName, sequences: map<string, int>): (r: map<string, int>)
    ensures r.Keys == sequences.Keys
  {
    var s := SequenceOf(table, seqname);
    if n == 0 || s == [] || s !in sequences then sequences else sequences[s := sequences[s] + n]
  }

  /** One `multiple_insert` as the database sees it: the result it returns and the COPY load it
      adds, none for no rows and none when it fails. */
  predicate Loaded(table: string, values: seq<Row>, seqname: SeqName, columns: seq<string>, sequences: map<string, int>,
                   r: Result<Option<seq<int>>, string>, before: seq<(string, string)>, after: seq<(string, string)>)
  {
    var s := SequenceOf(table, seqname);
    if values == [] then r == Ok(Some([])) && after == before
    else if s != [] && s !in sequences then r == Err("ProgrammingError") && after == before
    else
      var start := if s == [] then 0 else sequences[s] + 1;
      var rows := if s == [] then values else WithIds(values, start);
      if Fit(rows, columns) then
        && r == Ok(if s == [] then None else Some(IdRange(start, |values|)))
        && after == before + [(table, CopyText(rows, columns))]
      else r == Err("AssertionError") && after == before
  }

  /** The result `multiple_insert` returns: no ids for no rows, a ProgrammingError for a
      sequence the database does not have, an AssertionError for a row whose columns are not
      the table's, the ids drawn otherwise. */
  function InsertResult(table: string, values: seq<Row>, seqname: SeqName, columns: seq<string>,
                        sequences: map<string, int>): Result<Option<seq<int>>, string>
  {
    var s := SequenceOf(table, seqname);
    if values == [] then Ok(Some([]))
    else if s != [] && s !in sequences then Err("ProgrammingError")
    else
      var start := if s == [] then 0 else sequences[s] + 1;
      var rows := if s == [] then values else WithIds(values, start);
      if Fit(rows, columns) then
        Ok(if s == [] then None else Some(IdRange(start, |values|)))
      else Err("AssertionError")
  }

  /** The error a result carries, if any. */
  function ErrOf<T>(r: Result<T, string>): (e: Option<string>)
    ensures e.Some? <==> r.Err?
  {
    if r.Err? then Some(r.error) else None
  }

  /** A load leaves one result possible: the one `InsertResult` gives. */
  lemma LoadedResult(table: string, values: seq<Row>, seqname: SeqName, columns: seq<string>, sequences: map<string, int>,
                     r: Result<Option<seq<int>>, string>, before: seq<(string, string)>, after: seq<(string, string)>)
    requires Loaded(table, values, seqname, columns, sequences, r, before, after)
    ensures r == InsertResult(table, values, seqname, columns, sequences)
    ensures r.Err? ==> after == before
  {
  }

  /** An insert without a sequence does not depend on the sequences. */
  lemma InsertNoSeq(table: string, values: seq<Row>, columns: seq<string>, sequences: map<string, int>, others: map<string, int>)
    ensures InsertResult(table, values, NoSeq, columns, sequences) == InsertResult(table, values, NoSeq, columns, others)
  {
  }

  /** An insert of no rows returns no ids and loads nothing. */
  lemma LoadedNone(table: string, values: seq<Row>, seqname: SeqName, columns: seq<string>, sequences: map<string, int>,
                   r: Result<Option<seq<int>>, string>, before: seq<(string, string)>, after: seq<(string, string)>)
    requires values == [] && Loaded(table, values, seqname, columns, sequences, r, before, after)
    ensures r == Ok(Some([])) && after == before && Drawn(table, |values|, seqname, sequences) == sequences
  {
  }

  /** A successful insert of rows with the table's own sequence drew consecutive ids and loaded
      the rows carrying them. */
  lemma LoadedSome(table: string, values: seq<Row>, columns: seq<string>, sequences: map<string, int>, drawn: map<string, int>,
                   r: Result<Option<seq<int>>, string>, before: seq<(string, string)>, after: seq<(string, string)>)
    requires values != [] && r.Ok? && Loaded(table, values, DefaultSeq, columns, sequences, r, before, after)
    requires drawn == Drawn(table, |values|, DefaultSeq, sequences)
    ensures IdSeq(table) in sequences && r == Ok(Some(IdRange(sequences[IdSeq(table)] + 1, |values|)))
    ensures LoadedRows(table, values, columns, sequences, drawn, before, after)
  {
  }

  /** The rows went in with ids from the table's own sequence, one past its last value on, in
      one COPY load. */
  predicate LoadedRows(table: string, values: seq<Row>, columns: seq<string>, sequences0: map<string, int>, sequences: map<string, int>,
                       before: seq<(string, string)>, after: seq<(string, string)>)
  {
    && IdSeq(table) in sequences0
    && var start := sequences0[IdSeq(table)] + 1;
    && sequences == sequences0[IdSeq(table) := start - 1 + |values|]
    && (forall j :: 0 <= j < |values| ==> HasColumns(WithIds(values, start)[j], columns))
    && after == before + [(table, CopyText(WithIds(values, start), columns))]
  }

  /** `dict(d, key=k)` for the thing table. */
  function ThingRow(siteId: int, now: string, k: string): Row {
    map["site_id" := IntCell(siteId), "created" := TextCell(now), "last_modified" := TextCell(now),
        "latest_revision" := IntCell(1), "deleted" := BoolCell(false), "key" := TextCell(k)]
  }

  function ThingRows(siteId: int, now: string, keys: seq<string>): (r: seq<Row>)
    ensures |r| == |keys| && forall i :: 0 <= i < |keys| ==> "key" in r[i] && r[i]["key"] == TextCell(keys[i])
  {
    seq(|keys|, i requires 0 <= i < |keys| => ThingRow(siteId, now, keys[i]))
  }

  /** `dict(d, thing_id=..., comment=..., machine_comment=...)` for the version table: the
      first revision of a thing, with the comments popped from its query. */
  function VersionRow(now: string, authorId: Option<int>, id: int, c: Json.Value, m: Json.Value, show: Json.Value -> string): Row {
    map["created" := TextCell(now), "revision" := IntCell(1),
        "author_id" := if authorId.Some? then IntCell(authorId.value) else NullCell, "ip" := NullCell,
        "comment" := ValueCell(c, show), "machine_comment" := ValueCell(m, show), "thing_id" := IntCell(id)]
  }

  /** The key cache after the ids of `keys` were stored: the old entries kept, key i bound to
      `start + i`, nothing else added. */
  ghost predicate Registered(before: map<string, int>, after: map<string, int>, keys: seq<string>, start: int) {
    && (forall k :: k in after <==> k in before || k in keys)
    && Keeps(before, after)
    && (forall i :: 0 <= i < |keys| ==> after[keys[i]] == start + i)
  }

  /** The key cache after `keys[i]` was bound to `start + i`, one key after the other. */
  function Assigned(key2id: map<string, int>, keys: seq<string>, start: int): (r: map<string, int>)
    ensures forall k :: k in r <==> k in key2id || k in keys
  {
    if keys == [] then key2id
    else
      var last := keys[|keys| - 1];
      assert keys == keys[..|keys| - 1] + [last];
      Assigned(key2id, keys[..|keys| - 1], start)[last := start + |keys| - 1]
  }

  /** Binding distinct new keys one after the other keeps the old entries and binds key i to
      `start + i`. */
  lemma AssignedRegistered(key2id: map<string, int>, keys: seq<string>, start: int)
    requires forall k :: k in keys ==> k !in key2id
    requires forall i, j :: 0 <= i < j < |keys| ==> keys[i] != keys[j]
    ensures Registered(key2id, Assigned(key2id, keys, start), keys, start)
  {
    AssignedKeeps(key2id, keys, start);
    AssignedIds(key2id, keys, start);
  }

  lemma {:induction false} AssignedKeeps(key2id: map<string, int>, keys: seq<string>, start: int)
    requires forall k :: k in keys ==> k !in key2id
    ensures Keeps(key2id, Assigned(key2id, keys, start))
  {
    if keys != [] {
      var rest := keys[..|keys| - 1];
      assert forall k :: k in rest ==> k in keys;
      AssignedKeeps(key2id, rest, start);
      assert keys[|keys| - 1] !in key2id;
    }
  }

  lemma {:induction false} AssignedIds(key2id: map<string, int>, keys: seq<string>, start: int)
    requires forall i, j :: 0 <= i < j < |keys| ==> keys[i] != keys[j]
    ensures forall i :: 0 <= i < |keys| ==> Assigned(key2id, keys, start)[keys[i]] == start + i
  {
    if keys != [] {
      var n := |keys|;
      var rest := keys[..n - 1];
      AssignedIds(key2id, rest, start);
      var mid := Assigned(key2id, rest, start);
      forall i | 0 <= i < n ensures Assigned(key2id, keys, start)[keys[i]] == start + i {
        if i < n - 1 {
          assert keys[i] == rest[i] && keys[i] != keys[n - 1];
          assert mid[rest[i]] == start + i;
        }
      }
    }
  }

  /** Where the thing sequence hands out its next id. */
  function ThingStart(sequences: map<string, int>): int {
    if IdSeq("thing") in sequences then sequences[IdSeq("thing")] + 1 else 0
  }

  function VersionRows(now: string, authorId: Option<int>, keys: seq<string>, key2id: map<string, int>, notes: Notes,
                       show: Json.Value -> string): (r: seq<Row>)
    requires forall k :: k in keys ==> k in key2id && k in notes.comment && k in notes.machine
    ensures |r| == |keys|
  {
    seq(|keys|, i requires 0 <= i < |keys| =>
      VersionRow(now, authorId, key2id[keys[i]], notes.comment[keys[i]], notes.machine[keys[i]], show))
  }

  /** The inserts of `process_creates` for keys `tobe`, none of them known before, with
      `things` and `versions` their rows: each key is in the cache under an id from the thing
      sequence, and one COPY load each put the rows in, carrying ids from the two sequences. */
  ghost predicate ThingsCreated(tobe: seq<string>, things: seq<Row>, versions: seq<Row>, columns: map<string, seq<string>>,
                                key2id0: map<string, int>, key2id: map<string, int>, sequences0: map<string, int>, sequences: map<string, int>,
                                loads0: seq<(string, string)>, loads: seq<(string, string)>)
  {
    && IdSeq("thing") in sequences0 && IdSeq("version") in sequences0
    && var start := sequences0[IdSeq("thing")] + 1;
    && var vstart := sequences0[IdSeq("version")] + 1;
    && Registered(key2id0, key2id, tobe, start)
    && sequences == sequences0[IdSeq("thing") := start - 1 + |tobe|][IdSeq("version") := vstart - 1 + |tobe|]
    && (forall j :: 0 <= j < |things| ==> HasColumns(WithIds(things, start)[j], TableColumns(columns, "thing")))
    && (forall j :: 0 <= j < |versions| ==> HasColumns(WithIds(versions, vstart)[j], TableColumns(columns, "version")))
    && loads == loads0 + [("thing", CopyText(WithIds(things, start), TableColumns(columns, "thing"))),
                          ("version", CopyText(WithIds(versions, vstart), TableColumns(columns, "version")))]
  }

  /** Two successful inserts, things then versions, leave `ThingsCreated`. */
  lemma ThingsCreatedHolds(tobe: seq<string>, things: seq<Row>, versions: seq<Row>, columns: map<string, seq<string>>,
                           key2id0: map<string, int>, key2id: map<string, int>,
                           sequences0: map<string, int>, sequences1: map<string, int>, sequences: map<string, int>,
                           loads0: seq<(string, string)>, loads1: seq<(string, string)>, loads: seq<(string, string)>)
    requires |things| == |tobe| && |versions| == |tobe| && tobe != []
    requires LoadedRows("thing", things, TableColumns(columns, "thing"), sequences0, sequences1, loads0, loads1)
    requires Registered(key2id0, key2id, tobe, sequences0[IdSeq("thing")] + 1)
    requires LoadedRows("version", versions, TableColumns(columns, "version"), sequences1, sequences, loads1, loads)
    ensures ThingsCreated(tobe, things, versions, columns, key2id0, key2id, sequences0, sequences, loads0, loads)
  {
    assert IdSeq("thing") != IdSeq("version") by {
      assert |IdSeq("thing")| != |IdSeq("version")|;
    }
    var start, vstart := sequences0[IdSeq("thing")] + 1, sequences0[IdSeq("version")] + 1;
    assert sequences1[IdSeq("version")] == vstart - 1;
    var a := ("thing", CopyText(WithIds(things, start), TableColumns(columns, "thing")));
    var b := ("version", CopyText(WithIds(versions, vstart), TableColumns(columns, "version")));
    assert loads0 + [a] + [b] == loads0 + [a, b];
  }

  /** The key cache only gains entries. */
  predicate Keeps(before: map<string, int>, after: map<string, int>) {
    forall k :: k in before ==> k in after && after[k] == before[k]
  }

  /** Every key found has both its comments noted. */
  lemma NotedKeys(keys: seq<string>, n: Notes)
    requires Noted(keys, n)
    ensures forall k :: k in keys ==> k in n.comment && k in n.machine
  {
    forall k | k in keys ensures k in n.comment && k in n.machine {
      var i :| 0 <= i < |keys| && keys[i] == k;
    }
  }

  /** The `for q in query: self.prepare_datum(q, values)` loop of `process_inserts`: each
      top-level query in turn, the value it names discarded. */
  function DatumTop(items: seq<Json.Value>, st: DatumState, codes: Codes, key2id: map<string, int>): (w: RowsWalk)
    ensures Extends(st, w.st)
  {
    if items == [] then RowsWalk(None, st)
    else
      var pre := DatumTop(items[..|items| - 1], st, codes, key2id);
      if pre.err.Some? then pre
      else
        var sub := DatumOf(items[|items| - 1], "", pre.st, codes, key2id);
        ExtendsTrans(st, pre.st, sub.st);
        RowsWalk(if sub.res.Err? then Some(sub.res.error) else None, sub.st)
  }

  lemma DatumTopErr(items: seq<Json.Value>, j: nat, st: DatumState, codes: Codes, key2id: map<string, int>)
    requires j <= |items| && DatumTop(items[..j], st, codes, key2id).err.Some?
    ensures DatumTop(items, st, codes, key2id) == DatumTop(items[..j], st, codes, key2id)
    decreases |items| - j
  {
    if j == |items| {
      assert items[..j] == items;
    } else {
      var pre := items[..|items| - 1];
      assert pre[..j] == items[..j];
      DatumTopErr(pre, j, st, codes, key2id);
    }
  }

  class BulkUpload {
    /** The site, author and time every created thing and version is stamped with. */
    const siteId: int
    const authorId: Option<int>
    const now: string
    /** `TYPES`/`DATATYPE_REFERENCE` and the columns of each table, from the database. */
    const codes: Codes
    const columns: map<string, seq<string>>
    const show: Json.Value -> string
    var comment: map<string, Json.Value>
    var machineComment: map<string, Json.Value>
    var created: set<string>
    /** The module-level key-to-id cache. */
    var key2id: map<string, int>
    /** The database as the upload changes it: the sequences' last values and the COPY loads
        made, each a table and its text. */
    var sequences: map<string, int>
    var loads: seq<(string, string)>

    /** `BulkUpload(site, author)`; `key2id` is the cache loaded once per process. */
    constructor(siteId: int, authorId: Option<int>, now: string, codes: Codes, columns: map<string, seq<string>>,
                show: Json.Value -> string, key2id: map<string, int>, sequences: map<string, int>)
      ensures this.siteId == siteId && this.authorId == authorId && this.now == now
      ensures this.codes == codes && this.columns == columns && this.show == show
      ensures comment == map[] && machineComment == map[] && created == {}
      ensures this.key2id == key2id && this.sequences == sequences && loads == []
    {
      this.siteId := siteId;
      this.authorId := authorId;
      this.now := now;
      this.codes := codes;
      this.columns := columns;
      this.show := show;
      comment := map[];
      machineComment := map[];
      created := {};
      this.key2id := key2id;
      this.sequences := sequences;
      loads := [];
    }

    /** `find_creates(query, result)`: the keys of created dicts appended to `result`; the
        query comes back with the comments popped, and the notes record them. */
    method FindCreates(query: Json.Value, result: seq<string>) returns (r: Result<seq<string>, string>, after: Json.Value)
      modifies this`comment, this`machineComment
      ensures var w := CreatesOf(query, Notes(old(comment), old(machineComment)));
        && r == Then(Ok(result), w.res) && Notes(comment, machineComment) == w.notes
        && (w.res.Ok? ==> after == w.query)
      decreases query, 2
    {
      match query
      case List(items) =>
        var walked;
        r, walked := FindCreatesList(items, result);
        after := Json.List(walked);
      case Dict(entries) =>
        r, after := FindCreatesDict(entries, result);
      case _ =>
        assert result + [] == result;
        return Ok(result), query;
    }

    /** `for q in query: self.find_creates(q, result)`. */
    method FindCreatesList(items: seq<Json.Value>, result: seq<string>) returns (r: Result<seq<string>, string>, walked: seq<Json.Value>)
      modifies this`comment, this`machineComment
      ensures var w := CreatesOfList(items, Notes(old(comment), old(machineComment)));
        && r == Then(Ok(result), w.res) && Notes(comment, machineComment) == w.notes
        && (w.res.Ok? ==> walked == w.items)
      decreases items, 1
    {
      var notes := Notes(comment, machineComment);
      walked := [];
      r := Ok(result);
      var i := 0;
      assert result + [] == result;
      while i < |items|
        invariant 0 <= i <= |items|
        invariant var w := CreatesOfList(items[..i], notes);
          r == Then(Ok(result), w.res) && r.Ok? && walked == w.items && Notes(comment, machineComment) == w.notes
      {
        assert items[i] in items;
        assert items[..i + 1][..i] == items[..i];
        var pre := CreatesOfList(items[..i], notes);
        var next, one := FindCreates(items[i], r.value);
        ThenAssoc(Ok(result), pre.res, CreatesOf(items[i], pre.notes).res);
        if next.Err? {
          CreatesOfListErr(items, i + 1, notes);
          return next, walked;
        }
        r := next;
        walked := walked + [one];
        i := i + 1;
      }
      assert items[..i] == items;
    }

    /** A dict with 'create': its key, the keys inside its values, then its comments popped
        into the notes. */
    method FindCreatesDict(entries: seq<(string, Json.Value)>, result: seq<string>) returns (r: Result<seq<string>, string>, after: Json.Value)
      modifies this`comment, this`machineComment
      ensures var w := CreatesOf(Json.Dict(entries), Notes(old(comment), old(machineComment)));
        && r == Then(Ok(result), w.res) && Notes(comment, machineComment) == w.notes
        && (w.res.Ok? ==> after == w.query)
      decreases entries, 1
    {
      if !Json.HasKey(entries, "create") {
        assert result + [] == result;
        return Ok(result), Json.Dict(entries);
      }
      var key := Json.Get(entries, "key");
      if key.None? {
        return Err("KeyError"), Json.Dict(entries);
      }
      var walked;
      r, walked := FindCreatesEntries(entries);
      if r.Err? {
        return r, Json.Dict(entries);
      }
      var c := Popped(walked, "comment");
      var e1 := Json.Remove(walked, "comment");
      if !Json.IsText(key.value) {
        return Err("TypeError"), Json.Dict(e1);
      }
      var k := Json.TextOf(key.value);
      comment := comment[k := c];
      var m := Popped(e1, "machine_comment");
      var e2 := Json.Remove(e1, "machine_comment");
      machineComment := machineComment[k := m];
      r := Ok(result + ([k] + r.value));
      after := Json.Dict(e2);
    }

    /** `self.find_creates(query.values(), result)`: the walk over a created dict's values. */
    method FindCreatesEntries(entries: seq<(string, Json.Value)>) returns (r: Result<seq<string>, string>, walked: seq<(string, Json.Value)>)
      modifies this`comment, this`machineComment
      ensures var w := CreatesOfEntries(entries, Notes(old(comment), old(machineComment)));
        && r == w.res && Notes(comment, machineComment) == w.notes
        && (w.res.Ok? ==> walked == w.entries)
      decreases entries, 0
    {
      var notes := Notes(comment, machineComment);
      r := Ok([]);
      walked := [];
      var i := 0;
      while i < |entries|
        invariant 0 <= i <= |entries|
        invariant var w := CreatesOfEntries(entries[..i], notes);
          r == w.res && r.Ok? && walked == w.entries && Notes(comment, machineComment) == w.notes
      {
        assert entries[i] in entries && entries[i].1 < entries[i];
        assert entries[..i + 1][..i] == entries[..i];
        var next, one := FindCreates(entries[i].1, r.value);
        if next.Err? {
          CreatesOfEntriesErr(entries, i + 1, notes);
          return next, walked;
        }
        r := next;
        walked := walked + [(entries[i].0, one)];
        i := i + 1;
      }
      assert entries[..i] == entries;
    }

    /** `prepare_datum(query, result, path)`: the (value, datatype) pair of `query`, with the
        rows of the things it creates appended to `result`. */
    method PrepareDatum(query: Json.Value, result: seq<DatumRow>, path: string) returns (r: Result<(Json.Value, int), string>, rows: seq<DatumRow>)
      modifies this`created
      ensures DatumWalk(r, DatumState(created, rows)) == DatumOf(query, path, DatumState(old(created), result), codes, key2id)
      decreases query, 2
    {
      rows := result;
      match query
      case Dict(entries) =>
        if Json.HasKey(entries, "value") {
          var t := Json.Get(entries, "type");
          if t.None? || !Json.IsText(t.value) {
            return Err(LookupError(t)), rows;
          }
          return Tag(Json.Get(entries, "value").value, codes, Json.TextOf(t.value)), rows;
        }
        var key := Json.Get(entries, "key");
        if key.None? || !Json.IsText(key.value) || Json.TextOf(key.value) !in key2id {
          return Err(LookupError(key)), rows;
        }
        var k := Json.TextOf(key.value);
        var id := key2id[k];
        r := Ok((Json.Int(id), codes.reference));
        if k in created {
          created := created - {k};
          var err;
          err, rows := PrepareEntries(id, entries, path, rows);
          if err.Some? {
            return Err(err.value), rows;
          }
        }
      case _ =>
        r := Scalar(query, codes, path);
    }

    /** The `for key, value in query.items()` loop of a thing being created. */
    method PrepareEntries(id: int, entries: seq<(string, Json.Value)>, path: string, result: seq<DatumRow>) returns (err: Option<string>, rows: seq<DatumRow>)
      modifies this`created
      ensures RowsWalk(err, DatumState(created, rows)) == DatumEntries(id, entries, path, DatumState(old(created), result), codes, key2id)
      decreases entries, 1
    {
      ghost var st := DatumState(created, result);
      rows := result;
      var i := 0;
      while i < |entries|
        invariant 0 <= i <= |entries|
        invariant DatumEntries(id, entries[..i], path, st, codes, key2id) == RowsWalk(None, DatumState(created, rows))
      {
        var (name, value) := entries[i];
        assert entries[i] in entries && entries[i].1 < entries[i];
        assert entries[..i + 1][..i] == entries[..i];
        if name != "create" {
          if value.List? {
            err, rows := PrepareItems(id, name, value.items, path + "/" + name, rows);
            if err.Some? {
              DatumEntriesErr(id, entries, i + 1, path, st, codes, key2id);
              return err, rows;
            }
          } else {
            var sub;
            sub, rows := PrepareDatum(value, rows, path + "/" + name);
            if sub.Err? {
              DatumEntriesErr(id, entries, i + 1, path, st, codes, key2id);
              return Some(sub.error), rows;
            }
            var code := if name == "key" then 1 else sub.value.1;
            rows := rows + [DatumRow(id, 1, MaxRev, name, sub.value.0, code, None)];
          }
        }
        i := i + 1;
      }
      assert entries[..i] == entries;
      err := None;
    }

    /** `for i, v in enumerate(value)`: the rows of the list under `key`, each at its position. */
    method PrepareItems(id: int, key: string, items: seq<Json.Value>, path: string, result: seq<DatumRow>) returns (err: Option<string>, rows: seq<DatumRow>)
      modifies this`created
      ensures RowsWalk(err, DatumState(created, rows)) == DatumItems(id, key, items, path, DatumState(old(created), result), codes, key2id)
      decreases items, 1
    {
      ghost var st := DatumState(created, result);
      rows := result;
      var i := 0;
      while i < |items|
        invariant 0 <= i <= |items|
        invariant DatumItems(id, key, items[..i], path, st, codes, key2id) == RowsWalk(None, DatumState(created, rows))
      {
        assert items[i] in items;
        assert items[..i + 1][..i] == items[..i];
        var sub;
        sub, rows := PrepareDatum(items[i], rows, path + "#" + NatToString(i));
        if sub.Err? {
          DatumItemsErr(id, key, items, i + 1, path, st, codes, key2id);
          return Some(sub.error), rows;
        }
        rows := rows + [DatumRow(id, 1, MaxRev, key, sub.value.0, sub.value.1, Some(i))];
        i := i + 1;
      }
      assert items[..i] == items;
      err := None;
    }

    /** `multiple_insert(table, values, seqname)` against this upload's database. */
    method Insert(table: string, values: seq<Row>, seqname: SeqName) returns (r: Result<Option<seq<int>>, string>)
      modifies this`sequences, this`loads
      ensures sequences == Drawn(table, |values|, seqname, old(sequences))
      ensures Loaded(table, values, seqname, TableColumns(columns, table), old(sequences), r, old(loads), loads)
    {
      var cols := TableColumns(columns, table);
      var ins := MultipleInsert(table, values, seqname, cols, sequences);
      sequences := Drawn(table, |values|, seqname, sequences);
      if ins.Err? {
        return Err(ins.error);
      }
      if ins.value.copy.Some? {
        loads := loads + [(table, ins.value.copy.value)];
      }
      r := Ok(ins.value.ids);
    }

    /** The `for v, id in zip(values, ids)` loop: the new things' ids go into the key cache. */
    method Register(keys: seq<string>, ids: seq<int>, ghost start: int)
      requires |ids| == |keys| && forall i :: 0 <= i < |ids| ==> ids[i] == start + i
      requires forall k :: k in keys ==> k !in key2id
      requires forall i, j :: 0 <= i < j < |keys| ==> keys[i] != keys[j]
      modifies this`key2id
      ensures Registered(old(key2id), key2id, keys, start)
      ensures key2id == Assigned(old(key2id), keys, start)
    {
      var i := 0;
      while i < |keys|
        invariant 0 <= i <= |keys|
        invariant key2id == Assigned(old(key2id), keys[..i], start)
      {
        assert keys[..i + 1][..i] == keys[..i];
        key2id := key2id[keys[i] := ids[i]];
        i := i + 1;
      }
      assert keys[..i] == keys;
      AssignedRegistered(old(key2id), keys, start);
    }

    /** `process_inserts(query)`: the datum rows of every top-level query, loaded in one go
        without ids. */
    method ProcessInserts(query: seq<Json.Value>) returns (err: Option<string>)
      modifies this`created, this`sequences, this`loads
      ensures sequences == old(sequences)
      ensures var w := DatumTop(query, DatumState(old(created), []), codes, key2id);
        && created == w.st.created
        && (w.err.Some? ==> err == w.err && sequences == old(sequences) && loads == old(loads))
        && (w.err.None? ==>
              var r := InsertResult("datum", DatumTable(w.st.rows, show), NoSeq, TableColumns(columns, "datum"), old(sequences));
              Loaded("datum", DatumTable(w.st.rows, show), NoSeq, TableColumns(columns, "datum"), old(sequences), r, old(loads), loads)
                && err == ErrOf(r))
    {
      ghost var st := DatumState(created, []);
      var values: seq<DatumRow> := [];
      var i := 0;
      while i < |query|
        invariant 0 <= i <= |query|
        invariant DatumTop(query[..i], st, codes, key2id) == RowsWalk(None, DatumState(created, values))
        invariant sequences == old(sequences) && loads == old(loads)
      {
        assert query[..i + 1][..i] == query[..i];
        var sub;
        sub, values := PrepareDatum(query[i], values, "");
        if sub.Err? {
          DatumTopErr(query, i + 1, st, codes, key2id);
          return Some(sub.error);
        }
        i := i + 1;
      }
      assert query[..i] == query;
      var r := Insert("datum", DatumTable(values, show), NoSeq);
      LoadedResult("datum", DatumTable(values, show), NoSeq, TableColumns(columns, "datum"), old(sequences), r, old(loads), loads);
      err := if r.Err? then Some(r.error) else None;
    }

    /** The error the inserts of `process_creates` stop with for keys `tobe`, none of them
        cached before, and their notes: the thing insert's, else the version insert's, made
        once the new ids are in the cache and drawn from the thing sequence. */
    function CreatesError(tobe: seq<string>, key2id0: map<string, int>, sequences0: map<string, int>, notes: Notes): (err: Option<string>)
      requires forall k :: k in tobe ==> k in notes.comment && k in notes.machine
      ensures tobe == [] ==> err.None?
    {
      var t := InsertResult("thing", ThingRows(siteId, now, tobe), DefaultSeq, TableColumns(columns, "thing"), sequences0);
      if t.Err? then Some(t.error)
      else
        var versions := VersionRows(now, authorId, tobe, Assigned(key2id0, tobe, ThingStart(sequences0)), notes, show);
        ErrOf(InsertResult("version", versions, DefaultSeq, TableColumns(columns, "version"), Drawn("thing", |tobe|, DefaultSeq, sequences0)))
    }

    /** The error `upload(query)` stops with, none when it succeeds: an invalid key, then a
        create dict the walk rejects, then the inserts of the new things, then the data walk
        over the query with the new ids cached, then the datum insert. */
    function UploadError(query: seq<Json.Value>, notes0: Notes, key2id0: map<string, int>, sequences0: map<string, int>): Option<string> {
      var keys := KeysOf(Json.List(query));
      if keys.Err? then Some(keys.error)
      else
        var w := CreatesOf(Json.List(query), notes0);
        if w.res.Err? then Some(w.res.error)
        else
          var tobe := ToBeCreated(w.res.value, key2id0);
          NotedKeys(w.res.value, w.notes);
          var c := CreatesError(tobe, key2id0, sequences0, w.notes);
          if c.Some? then c
          else
            var d := DatumTop(w.query.items, DatumState(set k | k in tobe, []), codes, Assigned(key2id0, tobe, ThingStart(sequences0)));
            if d.err.Some? then d.err
            else ErrOf(InsertResult("datum", DatumTable(d.st.rows, show), NoSeq, TableColumns(columns, "datum"), sequences0))
    }

    /** What a successful `process_creates` leaves: the new keys (those found with 'create' that
        the cache did not know) are the things to expand, each is in the cache under an id from
        the thing sequence, and one COPY load each put their thing and first version rows in. */
    ghost predicate CreatedThings(tobe: seq<string>, key2id0: map<string, int>, sequences0: map<string, int>, loads0: seq<(string, string)>)
      reads this
    {
      created == (set k | k in tobe) && CreatedThingsUpTo(tobe, key2id0, sequences0, loads0, loads)
    }

    /** The cache and sequences `process_creates` leaves, and the loads it made: `upto` is the
        list of loads just after it. */
    ghost predicate CreatedThingsUpTo(tobe: seq<string>, key2id0: map<string, int>, sequences0: map<string, int>,
                                      loads0: seq<(string, string)>, upto: seq<(string, string)>)
      reads this
    {
      if tobe == [] then key2id == key2id0 && sequences == sequences0 && upto == loads0
      else
        && (forall k :: k in tobe ==> k in key2id && k in comment && k in machineComment)
        && ThingsCreated(tobe, ThingRows(siteId, now, tobe), VersionRows(now, authorId, tobe, key2id, Notes(comment, machineComment), show),
                         columns, key2id0, key2id, sequences0, sequences, loads0, upto)
    }

    /** What a successful `upload(query)` leaves: every key is valid and the creates were found;
        the new keys got their things and first versions, in the loads up to some point; the
        data walk over the query (comments popped) succeeded from those keys, and its rows are
        the one further load, into the datum table. */
    ghost predicate Uploaded(query: seq<Json.Value>, comment0: map<string, Json.Value>, machineComment0: map<string, Json.Value>,
                             key2id0: map<string, int>, sequences0: map<string, int>, loads0: seq<(string, string)>)
      reads this
    {
      var w := CreatesOf(Json.List(query), Notes(comment0, machineComment0));
      && KeysOf(Json.List(query)).Ok? && w.res.Ok? && w.query.List?
      && Notes(comment, machineComment) == w.notes
      && var tobe := ToBeCreated(w.res.value, key2id0);
      && var d := DatumTop(w.query.items, DatumState(set k | k in tobe, []), codes, key2id);
      && d.err.None? && created == d.st.created
      && exists mid: seq<(string, string)>, r: Result<Option<seq<int>>, string> :: CreatedThingsUpTo(tobe, key2id0, sequences0, loads0, mid) && r.Ok?
           && Loaded("datum", DatumTable(d.st.rows, show), NoSeq, TableColumns(columns, "datum"), sequences, r, mid, loads)
    }

    /** `process_creates(query)`: checks every key, collects the created ones, and inserts a
        thing and its first version for each that is new. */
    method ProcessCreates(query: seq<Json.Value>) returns (err: Option<string>, after: seq<Json.Value>)
      modifies this
      ensures var keys := KeysOf(Json.List(query));
        keys.Err? ==>
          && err == Some(keys.error) && after == query && created == old(created)
          && comment == old(comment) && machineComment == old(machineComment)
          && key2id == old(key2id) && sequences == old(sequences) && loads == old(loads)
      ensures var w := CreatesOf(Json.List(query), Notes(old(comment), old(machineComment)));
        KeysOf(Json.List(query)).Ok? ==>
          && Notes(comment, machineComment) == w.notes
          && (w.res.Err? ==> err == Some(w.res.error) && created == old(created) && key2id == old(key2id) && sequences == old(sequences) && loads == old(loads))
          && (w.res.Ok? ==> w.query.List? && after == w.query.items)
          && (w.res.Ok? && err.None? ==> CreatedThings(ToBeCreated(w.res.value, old(key2id)), old(key2id), old(sequences), old(loads)))
      ensures var w := CreatesOf(Json.List(query), Notes(old(comment), old(machineComment)));
        KeysOf(Json.List(query)).Ok? && w.res.Ok? ==>
          var tobe := ToBeCreated(w.res.value, old(key2id));
          && (forall k :: k in tobe ==> k in w.notes.comment && k in w.notes.machine)
          && err == CreatesError(tobe, old(key2id), old(sequences), w.notes)
          && (err.None? ==> key2id == Assigned(old(key2id), tobe, ThingStart(old(sequences))))
      ensures Keeps(old(key2id), key2id)
    {
      var keys := FindKeys(Json.List(query), []);
      if keys.Err? {
        return Some(keys.error), query;
      }
      ghost var w := CreatesOf(Json.List(query), Notes(comment, machineComment));
      var creates, walked := FindCreates(Json.List(query), []);
      if creates.Err? {
        return Some(creates.error), query;
      }
      assert creates.value == w.res.value by {
        assert [] + w.res.value == w.res.value;
      }
      after := walked.items;
      var tobe := ToBeCreated(creates.value, key2id);
      NotedKeys(creates.value, Notes(comment, machineComment));
      err := CreateThings(tobe);
    }

    /** The inserts of `process_creates`: a thing row for each new key, their ids into the
        cache, then a version row for each. */
    method CreateThings(tobe: seq<string>) returns (err: Option<string>)
      requires forall k :: k in tobe ==> k !in key2id && k in comment && k in machineComment
      requires forall i, j :: 0 <= i < j < |tobe| ==> tobe[i] != tobe[j]
      modifies this`key2id, this`sequences, this`loads, this`created
      ensures err == CreatesError(tobe, old(key2id), old(sequences), Notes(comment, machineComment))
      ensures err.None? ==> CreatedThings(tobe, old(key2id), old(sequences), old(loads))
      ensures err.None? ==> key2id == Assigned(old(key2id), tobe, ThingStart(old(sequences)))
      ensures Keeps(old(key2id), key2id)
    {
      if tobe == [] {
        err := CreateNothing(tobe);
        return;
      }
      ghost var key2id0, sequences0, loads0 := key2id, sequences, loads;
      err := InsertThings(tobe);
      if err.Some? {
        return;
      }
      err := CreateVersions(tobe, key2id0, sequences0, loads0);
    }

    /** `process_creates` with nothing to create: both inserts are of no rows. */
    method CreateNothing(tobe: seq<string>) returns (err: Option<string>)
      requires tobe == []
      modifies this`sequences, this`loads, this`created
      ensures err.None? && CreatedThings(tobe, key2id, old(sequences), old(loads))
    {
      ghost var sequences0, loads0 := sequences, loads;
      var things := ThingRows(siteId, now, tobe);
      var ids := Insert("thing", things, DefaultSeq);
      LoadedNone("thing", things, DefaultSeq, TableColumns(columns, "thing"), sequences0, ids, loads0, loads);
      var versions := VersionRows(now, authorId, tobe, key2id, Notes(comment, machineComment), show);
      var vids := Insert("version", versions, DefaultSeq);
      LoadedNone("version", versions, DefaultSeq, TableColumns(columns, "version"), sequences0, vids, loads0, loads);
      created := set k | k in tobe;
      err := None;
    }

    /** The thing rows of the new keys, and their ids into the cache. */
    method InsertThings(tobe: seq<string>) returns (err: Option<string>)
      requires tobe != [] && forall k :: k in tobe ==> k !in key2id
      requires forall i, j :: 0 <= i < j < |tobe| ==> tobe[i] != tobe[j]
      modifies this`key2id, this`sequences, this`loads
      ensures Keeps(old(key2id), key2id)
      ensures err == ErrOf(InsertResult("thing", ThingRows(siteId, now, tobe), DefaultSeq, TableColumns(columns, "thing"), old(sequences)))
      ensures sequences == Drawn("thing", |tobe|, DefaultSeq, old(sequences))
      ensures err.Some? ==> key2id == old(key2id) && loads == old(loads)
      ensures err.None? ==>
        && LoadedRows("thing", ThingRows(siteId, now, tobe), TableColumns(columns, "thing"), old(sequences), sequences, old(loads), loads)
        && Registered(old(key2id), key2id, tobe, old(sequences)[IdSeq("thing")] + 1)
        && key2id == Assigned(old(key2id), tobe, ThingStart(old(sequences)))
    {
      ghost var sequences0, loads0 := sequences, loads;
      var things := ThingRows(siteId, now, tobe);
      var ids := Insert("thing", things, DefaultSeq);
      LoadedResult("thing", things, DefaultSeq, TableColumns(columns, "thing"), sequences0, ids, loads0, loads);
      if ids.Err? {
        return Some(ids.error);
      }
      LoadedSome("thing", things, TableColumns(columns, "thing"), sequences0, sequences, ids, loads0, loads);
      ghost var start := sequences0[IdSeq("thing")] + 1;
      assert ThingStart(sequences0) == start;
      Register(tobe, ids.value.value, start);
      err := None;
    }

    /** The rest of `process_creates` once the things are in and their ids in the cache: a
        version row for each. */
    method CreateVersions(tobe: seq<string>, ghost key2id0: map<string, int>, ghost sequences0: map<string, int>,
                          ghost loads0: seq<(string, string)>)
        returns (err: Option<string>)
      requires tobe != [] && forall k :: k in tobe ==> k in comment && k in machineComment
      requires LoadedRows("thing", ThingRows(siteId, now, tobe), TableColumns(columns, "thing"), sequences0, sequences, loads0, loads)
      requires Registered(key2id0, key2id, tobe, sequences0[IdSeq("thing")] + 1)
      modifies this`sequences, this`loads, this`created
      ensures err == ErrOf(InsertResult("version", VersionRows(now, authorId, tobe, key2id, Notes(comment, machineComment), show),
                                        DefaultSeq, TableColumns(columns, "version"), old(sequences)))
      ensures err.Some? ==> loads == old(loads)
      ensures err.None? ==> CreatedThings(tobe, key2id0, sequences0, loads0)
    {
      ghost var sequences1, loads1 := sequences, loads;
      var versions := VersionRows(now, authorId, tobe, key2id, Notes(comment, machineComment), show);
      var vids := Insert("version", versions, DefaultSeq);
      LoadedResult("version", versions, DefaultSeq, TableColumns(columns, "version"), sequences1, vids, loads1, loads);
      if vids.Err? {
        return Some(vids.error);
      }
      LoadedSome("version", versions, TableColumns(columns, "version"), sequences1, sequences, vids, loads1, loads);
      ThingsCreatedHolds(tobe, ThingRows(siteId, now, tobe), versions, columns, key2id0, key2id, sequences0, sequences1, sequences,
                         loads0, loads1, loads);
      created := set k | k in tobe;
      err := None;
    }

    /** Once the creates succeeded, the upload's outcome is that of the inserts: its error, and
        what a success leaves. */
    lemma InsertsDone(query: seq<Json.Value>, notes0: Notes, key2id0: map<string, int>, sequences0: map<string, int>,
                      loads0: seq<(string, string)>, mid: seq<(string, string)>, created1: set<string>,
                      sequences1: map<string, int>, after: seq<Json.Value>, err: Option<string>)
      requires KeysOf(Json.List(query)).Ok?
      requires var w := CreatesOf(Json.List(query), notes0);
        && w.res.Ok? && w.query.List? && after == w.query.items && Notes(comment, machineComment) == w.notes
        && var tobe := ToBeCreated(w.res.value, key2id0);
        && (forall k :: k in tobe ==> k in w.notes.comment && k in w.notes.machine)
        && CreatesError(tobe, key2id0, sequences0, w.notes).None?
        && key2id == Assigned(key2id0, tobe, ThingStart(sequences0))
        && created1 == (set k | k in tobe)
        && CreatedThingsUpTo(tobe, key2id0, sequences0, loads0, mid)
      requires sequences == sequences1
      requires var d := DatumTop(after, DatumState(created1, []), codes, key2id);
        && created == d.st.created
        && (d.err.Some? ==> err == d.err)
        && (d.err.None? ==>
              var r := InsertResult("datum", DatumTable(d.st.rows, show), NoSeq, TableColumns(columns, "datum"), sequences1);
              Loaded("datum", DatumTable(d.st.rows, show), NoSeq, TableColumns(columns, "datum"), sequences1, r, mid, loads)
                && err == ErrOf(r))
      ensures err == UploadError(query, notes0, key2id0, sequences0)
      ensures err.None? ==> Uploaded(query, notes0.comment, notes0.machine, key2id0, sequences0, loads0)
    {
      var d := DatumTop(after, DatumState(created1, []), codes, key2id);
      InsertNoSeq("datum", DatumTable(d.st.rows, show), TableColumns(columns, "datum"), sequences1, sequences0);
      if err.None? {
        var w := CreatesOf(Json.List(query), notes0);
        var tobe := ToBeCreated(w.res.value, key2id0);
        var r := InsertResult("datum", DatumTable(d.st.rows, show), NoSeq, TableColumns(columns, "datum"), sequences1);
        assert CreatedThingsUpTo(tobe, key2id0, sequences0, loads0, mid) && r.Ok?
          && Loaded("datum", DatumTable(d.st.rows, show), NoSeq, TableColumns(columns, "datum"), sequences, r, mid, loads);
      }
    }

    /** The `process_inserts` half of `upload`, once `process_creates` succeeded. */
    method InsertAfterCreates(query: seq<Json.Value>, after: seq<Json.Value>, ghost notes0: Notes, ghost key2id0: map<string, int>,
                              ghost sequences0: map<string, int>, ghost loads0: seq<(string, string)>)
        returns (err: Option<string>)
      requires KeysOf(Json.List(query)).Ok?
      requires var w := CreatesOf(Json.List(query), notes0);
        && w.res.Ok? && w.query.List? && after == w.query.items && Notes(comment, machineComment) == w.notes
        && var tobe := ToBeCreated(w.res.value, key2id0);
        && (forall k :: k in tobe ==> k in w.notes.comment && k in w.notes.machine)
        && CreatesError(tobe, key2id0, sequences0, w.notes).None?
        && key2id == Assigned(key2id0, tobe, ThingStart(sequences0))
        && created == (set k | k in tobe)
        && CreatedThingsUpTo(tobe, key2id0, sequences0, loads0, loads)
      modifies this`created, this`sequences, this`loads
      ensures err == UploadError(query, notes0, key2id0, sequences0)
      ensures err.None? ==> Uploaded(query, notes0.comment, notes0.machine, key2id0, sequences0, loads0)
    {
      ghost var mid, sequences1, created1 := loads, sequences, created;
      err := ProcessInserts(after);
      InsertsDone(query, notes0, key2id0, sequences0, loads0, mid, created1, sequences1, after, err);
    }

    /** `upload(query)`: creates the things, then inserts their data, in one transaction; on
        failure the loads are rolled back. */
    method Upload(query: seq<Json.Value>) returns (err: Option<string>)
      modifies this
      ensures err == UploadError(query, Notes(old(comment), old(machineComment)), old(key2id), old(sequences))
      ensures err.Some? ==> loads == old(loads)
      ensures err.None? ==> Uploaded(query, old(comment), old(machineComment), old(key2id), old(sequences), old(loads))
      ensures Keeps(old(key2id), key2id)
    {
      var saved := loads;
      ghost var notes0, key2id0, sequences0 := Notes(comment, machineComment), key2id, sequences;
      var after;
      err, after := ProcessCreates(query);
      if err.None? {
        err := InsertAfterCreates(query, after, notes0, key2id0, sequences0, saved);
      }
      if err.Some? {
        loads := saved;
      }
    }
  }
}
