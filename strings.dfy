/** String helpers shared by the modules of the model: Python's `startswith`, `endswith`,
    `split`/`join` on one separator character, ASCII `lower`, and decimal rendering and
    parsing of integers (`str(n)`, `'%0Nd' % n`, `int(s)`). */
module Strings {
  import opened Wrappers

  predicate StartsWith(s: string, prefix: string) {
    |prefix| <= |s| && s[..|prefix|] == prefix
  }

  /** `web.lstrips(s, prefix)`: the prefix removed once when present. */
  function LStrips(s: string, prefix: string): (r: string)
    ensures StartsWith(s, prefix) ==> prefix + r == s
    ensures !StartsWith(s, prefix) ==> r == s
  {
    if StartsWith(s, prefix) then
      assert s == s[..|prefix|] + s[|prefix|..];
      s[|prefix|..]
    else s
  }

  predicate EndsWith(s: string, suffix: string) {
    |suffix| <= |s| && s[|s| - |suffix|..] == suffix
  }

  /** `web.rstrips(s, suffix)`: the suffix removed once when present. */
  function RStrips(s: string, suffix: string): (r: string)
    ensures EndsWith(s, suffix) ==> r + suffix == s
    ensures !EndsWith(s, suffix) ==> r == s
  {
    if EndsWith(s, suffix) then
      assert s == s[..|s| - |suffix|] + s[|s| - |suffix|..];
      s[..|s| - |suffix|]
    else s
  }

  /** `s.replace(a, b)` for single characters. */
  function ReplaceChar(s: string, a: char, b: char): (r: string)
    ensures |r| == |s|
    ensures forall i :: 0 <= i < |s| ==> r[i] == if s[i] == a then b else s[i]
  {
    if s == [] then [] else [if s[0] == a then b else s[0]] + ReplaceChar(s[1..], a, b)
  }

  /** `os.path.dirname(p)`: everything up to the last '/', with trailing slashes removed
      unless that leaves nothing but slashes. */
  function DirName(p: string): (r: string)
    ensures '/' !in p ==> r == ""
    ensures '/' in p ==> StartsWith(p, r)
  {
    match LastIndexOf(p, '/')
    case None => ""
    case Some(i) =>
      var head := p[..i + 1];
      if forall k :: 0 <= k < |head| ==> head[k] == '/' then head else RStripSlashes(head)
  }

  /** `s.rstrip('/')`. */
  function RStripSlashes(s: string): (r: string)
    ensures StartsWith(s, r)
    ensures r == [] || r[|r| - 1] != '/'
    ensures forall k :: |r| <= k < |s| ==> s[k] == '/'
  {
    if s == [] || s[|s| - 1] != '/' then s
    else
      var r := RStripSlashes(s[..|s| - 1]);
      assert s[..|s| - 1][..|r|] == s[..|r|];
      r
  }

  /** `os.path.splitext(p)`: the extension is the last '.' of the last path component and
      what follows it, provided something other than dots comes before it in that component. */
  function SplitExt(p: string): (r: (string, string))
    ensures r.0 + r.1 == p
    ensures r.1 == [] || (r.1[0] == '.' && '/' !in r.1 && '.' !in r.1[1..])
  {
    var start := match LastIndexOf(p, '/') case None => 0 case Some(i) => i + 1;
    match LastIndexOf(p, '.')
    case None => (p, [])
    case Some(dot) =>
      if dot >= start && exists k :: start <= k < dot && p[k] != '.' then
        assert p == p[..dot] + p[dot..];
        (p[..dot], p[dot..])
      else (p, [])
  }

  /** ASCII lower-casing of one character. */
  function LowerChar(c: char): char {
    if 'A' <= c <= 'Z' then (c as int + 32) as char else c
  }

  /** The whitespace of a Python 2 byte string: tab, line feed, vertical tab, form feed,
      carriage return, space. */
  predicate IsSpace(c: char) {
    9 <= c as int <= 13 || c == ' '
  }

  /** Text that `strip()` turns into the empty string. */
  predicate IsBlank(s: string) {
    forall i :: 0 <= i < |s| ==> IsSpace(s[i])
  }

  /** `s.strip()`: leading and trailing whitespace removed. */
  function Strip(s: string): (r: string)
    ensures r == [] <==> IsBlank(s)
    ensures r != [] ==> !IsSpace(r[0]) && !IsSpace(r[|r| - 1])
    ensures exists i, j :: 0 <= i <= j <= |s| && r == s[i..j] && IsBlank(s[..i]) && IsBlank(s[j..])
  {
    var t := StripLeft(s);
    var u := StripRight(t.0);
    assert s[t.1..][..u.1] == s[t.1..t.1 + u.1];
    u.0
  }

  /** `strip()` leaves text that neither begins nor ends with whitespace alone. */
  lemma StripUnspaced(s: string)
    requires s != [] && !IsSpace(s[0]) && !IsSpace(s[|s| - 1])
    ensures Strip(s) == s
  {
    var r := Strip(s);
    var i, j :| 0 <= i <= j <= |s| && r == s[i..j] && IsBlank(s[..i]) && IsBlank(s[j..]);
  }

  /** Stripping twice is stripping once. */
  lemma StripIdempotent(s: string)
    ensures Strip(Strip(s)) == Strip(s)
  {
    if Strip(s) != [] {
      StripUnspaced(Strip(s));
    }
  }

  /** `s.lstrip()` and the number of characters it removed. */
  function StripLeft(s: string): (r: (string, nat))
    ensures r.1 <= |s| && r.0 == s[r.1..] && IsBlank(s[..r.1])
    ensures r.0 != [] ==> !IsSpace(r.0[0])
  {
    if s != [] && IsSpace(s[0]) then
      var t := StripLeft(s[1..]);
      assert s[..t.1 + 1] == [s[0]] + s[1..][..t.1];
      (t.0, t.1 + 1)
    else (s, 0)
  }

  /** `s.rstrip()` and the length it keeps. */
  function StripRight(s: string): (r: (string, nat))
    ensures r.1 <= |s| && r.0 == s[..r.1] && IsBlank(s[r.1..])
    ensures r.0 != [] ==> !IsSpace(r.0[|r.0| - 1])
    ensures r.0 == [] ==> IsBlank(s)
  {
    if s != [] && IsSpace(s[|s| - 1]) then
      var t := StripRight(s[..|s| - 1]);
      assert s[t.1..] == s[..|s| - 1][t.1..] + [s[|s| - 1]];
      t
    else (s, |s|)
  }

  /** `s.lower()` for ASCII text. */
  function Lower(s: string): (r: string)
    ensures |r| == |s|
    ensures forall i :: 0 <= i < |s| ==> r[i] == LowerChar(s[i])
  {
    if s == [] then [] else [LowerChar(s[0])] + Lower(s[1..])
  }

  /** `sep.join(parts)`. */
  function Join(parts: seq<string>, sep: string): string {
    if |parts| == 0 then []
    else if |parts| == 1 then parts[0]
    else parts[0] + sep + Join(parts[1..], sep)
  }

  /** Joining one more part adds the separator and the part. */
  lemma {:induction false} JoinSnoc(p: seq<string>, x: string, sep: string)
    requires p != []
    ensures Join(p + [x], sep) == Join(p, sep) + sep + x
  {
    if |p| > 1 {
      assert (p + [x])[1..] == p[1..] + [x];
      JoinSnoc(p[1..], x, sep);
    } else {
      assert p + [x] == [p[0], x];
    }
  }

  /** `re.split` on a set of one-character separators: the maximal runs between them, at least one. */
  function SplitAny(s: string, seps: set<char>): (r: seq<string>)
    ensures |r| >= 1
    ensures forall i :: 0 <= i < |r| ==> forall k :: 0 <= k < |r[i]| ==> r[i][k] !in seps
  {
    if s == [] then [[]]
    else
      var rest := SplitAny(s[1..], seps);
      if s[0] in seps then [[]] + rest else [[s[0]] + rest[0]] + rest[1..]
  }

  /** `s.split(c)`. */
  function Split(s: string, c: char): (r: seq<string>)
    ensures |r| >= 1
    ensures forall i :: 0 <= i < |r| ==> c !in r[i]
  {
    var r := SplitAny(s, {c});
    assert forall i :: 0 <= i < |r| ==> c !in r[i] by {
      forall i | 0 <= i < |r| ensures c !in r[i] {
        assert forall k :: 0 <= k < |r[i]| ==> r[i][k] != c;
      }
    }
    r
  }

  /** Joining the pieces of a split with the separator gives back the string. */
  lemma SplitJoin(s: string, c: char)
    ensures Join(Split(s, c), [c]) == s
  {
    SplitAnyJoin(s, c);
  }

  lemma {:induction false} SplitAnyJoin(s: string, c: char)
    ensures Join(SplitAny(s, {c}), [c]) == s
  {
    if s != [] {
      var rest := SplitAny(s[1..], {c});
      SplitAnyJoin(s[1..], c);
      if s[0] == c {
        assert SplitAny(s, {c}) == [[]] + rest;
        assert ([[]] + rest)[1..] == rest;
      } else {
        var r := SplitAny(s, {c});
        assert r == [[s[0]] + rest[0]] + rest[1..];
        if |rest| > 1 {
          assert r[1..] == rest[1..];
          assert Join(rest, [c]) == rest[0] + [c] + Join(rest[1..], [c]);
        }
      }
    }
  }

  /** A string without separators splits into itself. */
  lemma {:induction false} SplitAnyNone(s: string, seps: set<char>)
    requires forall k :: 0 <= k < |s| ==> s[k] !in seps
    ensures SplitAny(s, seps) == [s]
  {
    if s != [] {
      SplitAnyNone(s[1..], seps);
      assert [s[0]] + s[1..] == s;
    }
  }

  /** Splitting at the first separator: the part before it, then the split of the rest. */
  lemma {:induction false} SplitAnyConcat(a: string, c: char, b: string, seps: set<char>)
    requires c in seps && forall k :: 0 <= k < |a| ==> a[k] !in seps
    ensures SplitAny(a + [c] + b, seps) == [a] + SplitAny(b, seps)
  {
    if a == [] {
      assert a + [c] + b == [c] + b;
      assert ([c] + b)[1..] == b;
    } else {
      var s := a + [c] + b;
      assert s[0] == a[0];
      assert s[1..] == a[1..] + [c] + b;
      SplitAnyConcat(a[1..], c, b, seps);
      assert [a[0]] + a[1..] == a;
    }
  }

  /** Splitting a join of separator-free parts gives back the parts. */
  lemma {:induction false} JoinSplit(parts: seq<string>, c: char)
    requires |parts| >= 1
    requires forall i :: 0 <= i < |parts| ==> c !in parts[i]
    ensures Split(Join(parts, [c]), c) == parts
  {
    if |parts| == 1 {
      SplitAnyNone(parts[0], {c});
    } else {
      JoinSplit(parts[1..], c);
      assert Join(parts, [c]) == parts[0] + [c] + Join(parts[1..], [c]);
      SplitAnyConcat(parts[0], c, Join(parts[1..], [c]), {c});
      assert [parts[0]] + parts[1..] == parts;
    }
  }

  /** The position of the first `c` in `s`, if any (`s.find(c)`). */
  function IndexOf(s: string, c: char): (r: Option<nat>)
    ensures r.None? <==> c !in s
    ensures r.Some? ==> r.value < |s| && s[r.value] == c && c !in s[..r.value]
  {
    if s == [] then None
    else if s[0] == c then Some(0)
    else
      var r := IndexOf(s[1..], c);
      if r.None? then None
      else
        assert s[..r.value + 1] == [s[0]] + s[1..][..r.value];
        Some(r.value + 1)
  }

  /** The position of the last `c` in `s`, if any (`s.rfind(c)`). */
  function LastIndexOf(s: string, c: char): (r: Option<nat>)
    ensures r.None? <==> c !in s
    ensures r.Some? ==> r.value < |s| && s[r.value] == c && c !in s[r.value + 1..]
  {
    if s == [] then None
    else if s[|s| - 1] == c then Some(|s| - 1)
    else
      var r := LastIndexOf(s[..|s| - 1], c);
      if r.None? then
        assert s == s[..|s| - 1] + [s[|s| - 1]];
        None
      else
        assert s[r.value + 1..] == s[..|s| - 1][r.value + 1..] + [s[|s| - 1]];
        r
  }

  /** `s.split(c, 1)` unpacked into two names: ValueError (here `None`) when `c` is absent. */
  function SplitOnce(s: string, c: char): (r: Option<(string, string)>)
    ensures r.None? <==> c !in s
    ensures r.Some? ==> r.value.0 + [c] + r.value.1 == s && c !in r.value.0
  {
    match IndexOf(s, c)
    case None => None
    case Some(i) =>
      assert s == s[..i] + [c] + s[i + 1..];
      Some((s[..i], s[i + 1..]))
  }

  /** Splitting at the first `c` finds the `c` placed after a `c`-free prefix. */
  lemma SplitOnceConcat(a: string, c: char, b: string)
    requires c !in a
    ensures SplitOnce(a + [c] + b, c) == Some((a, b))
  {
    var s := a + [c] + b;
    assert s[|a|] == c;
    var r := SplitOnce(s, c);
    var i := IndexOf(s, c).value;
    assert s[..|a|] == a;
    assert s[|a| + 1..] == b;
  }

  /** Splitting from the right at the last `c`, which follows a `c`-free suffix. */
  lemma LastIndexOfConcat(a: string, c: char, b: string)
    requires c !in b
    ensures LastIndexOf(a + [c] + b, c) == Some(|a|)
  {
    var s := a + [c] + b;
    assert s[|a|] == c;
    assert s[|a| + 1..] == b;
  }

  /** `s.rsplit(c, n)`: at most `n` splits, made from the right. */
  function RSplit(s: string, c: char, n: nat): (r: seq<string>)
    ensures |r| >= 1
  {
    if n == 0 then [s]
    else
      match LastIndexOf(s, c)
      case None => [s]
      case Some(i) => RSplit(s[..i], c, n - 1) + [s[i + 1..]]
  }

  /** A `c`-free last field is split off, and the rest is split with one split fewer. */
  lemma RSplitConcat(a: string, c: char, b: string, n: nat)
    requires c !in b && n > 0
    ensures RSplit(a + [c] + b, c, n) == RSplit(a, c, n - 1) + [b]
  {
    LastIndexOfConcat(a, c, b);
    var s := a + [c] + b;
    assert s[..|a|] == a && s[|a| + 1..] == b;
  }

  predicate IsDigit(c: char) {
    '0' <= c <= '9'
  }

  function DigitChar(d: nat): (c: char)
    requires d < 10
    ensures IsDigit(c) && (c as int) - ('0' as int) == d
  {
    ('0' as int + d) as char
  }

  /** `str(n)` for a natural number: no leading zeros, "0" for zero. */
  function NatToString(n: nat): (s: string)
    ensures |s| >= 1 && forall i :: 0 <= i < |s| ==> IsDigit(s[i])
    ensures |s| > 1 ==> s[0] != '0'
  {
    if n < 10 then [DigitChar(n)] else NatToString(n / 10) + [DigitChar(n % 10)]
  }

  /** `'%0Nd' % n`: zero-padded on the left to at least `width` digits. */
  function PadNat(n: nat, width: nat): (s: string)
    ensures |s| >= width && forall i :: 0 <= i < |s| ==> IsDigit(s[i])
  {
    var digits := NatToString(n);
    if |digits| >= width then digits else seq(width - |digits|, _ => '0') + digits
  }

  /** The value of a non-empty string of decimal digits. */
  function DigitsValue(s: string): nat
    requires forall i :: 0 <= i < |s| ==> IsDigit(s[i])
  {
    if s == [] then 0
    else
      assert IsDigit(s[|s| - 1]);
      10 * DigitsValue(s[..|s| - 1]) + ((s[|s| - 1] as int) - ('0' as int))
  }

  /** `int(s)` on unsigned text: None (Python's ValueError) unless `s` is a non-empty run of digits. */
  function ParseNat(s: string): (r: Option<nat>)
    ensures r.Some? <==> |s| > 0 && forall i :: 0 <= i < |s| ==> IsDigit(s[i])
  {
    if |s| > 0 && forall i :: 0 <= i < |s| ==> IsDigit(s[i]) then Some(DigitsValue(s)) else None
  }

  lemma {:induction false} DigitsOfNat(n: nat)
    ensures DigitsValue(NatToString(n)) == n
  {
    if n >= 10 {
      var s := NatToString(n);
      DigitsOfNat(n / 10);
      assert s[..|s| - 1] == NatToString(n / 10);
    }
  }

  lemma {:induction false} LeadingZeros(k: nat, s: string)
    requires forall i :: 0 <= i < |s| ==> IsDigit(s[i])
    ensures DigitsValue(seq(k, _ => '0') + s) == DigitsValue(s)
    decreases |s|
  {
    var z := seq(k, _ => '0');
    if s == [] {
      assert z + s == z;
      ZerosValue(k);
    } else {
      var t := z + s;
      assert t[..|t| - 1] == z + s[..|s| - 1];
      LeadingZeros(k, s[..|s| - 1]);
    }
  }

  lemma {:induction false} ZerosValue(k: nat)
    ensures DigitsValue(seq(k, _ => '0')) == 0
  {
    if k > 0 {
      assert seq(k, _ => '0')[..k - 1] == seq(k - 1, _ => '0');
      ZerosValue(k - 1);
    }
  }

  /** `int(str(n)) == n`. */
  lemma ParseNatToString(n: nat)
    ensures ParseNat(NatToString(n)) == Some(n)
  {
    DigitsOfNat(n);
  }

  /** `int('%0Nd' % n) == n`: the padding zeros do not change the value. */
  lemma ParsePadNat(n: nat, width: nat)
    ensures ParseNat(PadNat(n, width)) == Some(n)
  {
    var digits := NatToString(n);
    DigitsOfNat(n);
    if |digits| < width {
      LeadingZeros(width - |digits|, digits);
    }
  }

  /** `str(i)` for any integer. */
  function IntToString(i: int): (s: string)
    ensures |s| >= 1
  {
    if i < 0 then "-" + NatToString(-i) else NatToString(i)
  }

  /** A decimal literal as `int()` reads it once whitespace is gone: an optional sign
      followed by digits. */
  function ParseSigned(s: string): (r: Option<int>)
    ensures ParseNat(s).Some? ==> r == Some(ParseNat(s).value as int)
    ensures r.Some? ==> s != [] && !IsSpace(s[0]) && IsDigit(s[|s| - 1])
  {
    if |s| > 0 && (s[0] == '-' || s[0] == '+') then
      match ParseNat(s[1..])
      case None => None
      case Some(n) => Some(if s[0] == '-' then -(n as int) else n as int)
    else
      match ParseNat(s)
      case None => None
      case Some(n) => Some(n as int)
  }

  /** `int(s)` on a byte string: whitespace at either end is skipped, and what remains must
      be a signed decimal literal (anything else is Python's ValueError). */
  function ParseInt(s: string): Option<int> {
    if s != [] && IsSpace(s[0]) then ParseInt(s[1..])
    else if s != [] && IsSpace(s[|s| - 1]) then ParseInt(s[..|s| - 1])
    else ParseSigned(s)
  }

  /** A literal with nothing around it reads as itself; blank text is no number. */
  lemma {:induction false} ParseIntUnspaced(s: string)
    ensures ParseSigned(s).Some? ==> ParseInt(s) == ParseSigned(s)
    ensures IsBlank(s) ==> ParseInt(s).None?
  {
    if s != [] && IsSpace(s[0]) {
      ParseIntUnspaced(s[1..]);
    }
  }

  /** `int(pre + s + post)` reads the literal `s` whatever whitespace surrounds it. */
  lemma {:induction false} ParseIntSurrounded(pre: string, s: string, post: string)
    requires IsBlank(pre) && IsBlank(post) && ParseSigned(s).Some?
    ensures ParseInt(pre + s + post) == ParseSigned(s)
  {
    var x := pre + s + post;
    if pre != [] {
      assert x[1..] == pre[1..] + s + post;
      ParseIntSurrounded(pre[1..], s, post);
    } else if post != [] {
      assert x == s + post && x[0] == s[0];
      assert x[..|x| - 1] == [] + s + post[..|post| - 1];
      ParseIntSurrounded(pre, s, post[..|post| - 1]);
    } else {
      assert x == s;
    }
  }

  /** `int(s) == int(s.strip())`: only the literal inside the whitespace matters. */
  lemma {:induction false} ParseIntStripped(s: string)
    ensures ParseInt(s) == ParseSigned(Strip(s))
  {
    var r := Strip(s);
    var i, j :| 0 <= i <= j <= |s| && r == s[i..j] && IsBlank(s[..i]) && IsBlank(s[j..]);
    if r == [] {
      ParseIntUnspaced(s);
      assert ParseSigned(r) == None;
    } else {
      Around(s, i, j);
      if ParseSigned(r).Some? {
        ParseIntSurrounded(s[..i], r, s[j..]);
      } else {
        ParseIntRejects(s[..i], r, s[j..]);
      }
    }
  }

  /** Text is what lies before a slice, the slice and what lies after it. */
  lemma Around(s: string, i: int, j: int)
    requires 0 <= i <= j <= |s|
    ensures s == s[..i] + s[i..j] + s[j..]
  {
  }

  /** Whitespace around a word that is no literal does not make it one. */
  lemma {:induction false} ParseIntRejects(pre: string, s: string, post: string)
    requires IsBlank(pre) && IsBlank(post) && s != [] && !IsSpace(s[0]) && !IsSpace(s[|s| - 1])
    requires ParseSigned(s).None?
    ensures ParseInt(pre + s + post).None?
  {
    var x := pre + s + post;
    if pre != [] {
      assert x[1..] == pre[1..] + s + post;
      ParseIntRejects(pre[1..], s, post);
    } else if post != [] {
      assert x == s + post && x[0] == s[0];
      assert x[..|x| - 1] == [] + s + post[..|post| - 1];
      ParseIntRejects(pre, s, post[..|post| - 1]);
    } else {
      assert x == s;
    }
  }

  /** `int(str(i)) == i`: the text of a number is a literal that reads back as it. */
  lemma ParseIntToString(i: int)
    ensures ParseSigned(IntToString(i)) == Some(i)
    ensures ParseInt(IntToString(i)) == Some(i)
  {
    var s := IntToString(i);
    if i < 0 {
      ParseNatToString(-i);
      assert s[0] == '-' && s[1..] == NatToString(-i);
    } else {
      ParseNatToString(i);
      assert IsDigit(s[0]);
    }
    ParseIntUnspaced(s);
  }

  /** Python's ordering of strings: lexicographic by code point, a prefix first. */
  predicate Below(a: string, b: string) {
    a == [] || (b != [] && (a[0] < b[0] || (a[0] == b[0] && Below(a[1..], b[1..]))))
  }

  lemma {:induction false} BelowTotal(a: string, b: string)
    ensures Below(a, b) || Below(b, a)
  {
    if a != [] && b != [] && a[0] == b[0] {
      BelowTotal(a[1..], b[1..]);
    }
  }

  lemma {:induction false} BelowReflexive(a: string)
    ensures Below(a, a)
  {
    if a != [] {
      BelowReflexive(a[1..]);
    }
  }

  lemma {:induction false} BelowAntisymmetric(a: string, b: string)
    requires Below(a, b) && Below(b, a)
    ensures a == b
  {
    if a != [] && b != [] {
      BelowAntisymmetric(a[1..], b[1..]);
      assert a == [a[0]] + a[1..] && b == [b[0]] + b[1..];
    }
  }

  lemma {:induction false} BelowTransitive(a: string, b: string, c: string)
    requires Below(a, b) && Below(b, c)
    ensures Below(a, c)
  {
    if a != [] && b != [] && c != [] && a[0] == b[0] && b[0] == c[0] {
      BelowTransitive(a[1..], b[1..], c[1..]);
    }
  }

  predicate SortedStrings(s: seq<string>) {
    forall i, j :: 0 <= i < j < |s| ==> Below(s[i], s[j])
  }

  /** Inserts `x` into a sorted list after the elements below it. */
  function InsertSorted(x: string, s: seq<string>): (r: seq<string>)
    requires SortedStrings(s)
    ensures multiset(r) == multiset(s) + multiset{x}
    ensures SortedStrings(r)
  {
    if s == [] then [x]
    else if Below(x, s[0]) then
      SortedFront(x, s);
      [x] + s
    else
      var t := InsertSorted(x, s[1..]);
      SortedBehind(x, s, t);
      [s[0]] + t
  }

  /** An element below the head of a sorted list may go in front of it. */
  lemma SortedFront(x: string, s: seq<string>)
    requires s != [] && SortedStrings(s) && Below(x, s[0])
    ensures SortedStrings([x] + s)
  {
    forall j | 0 < j < |s| ensures Below(x, s[j]) {
      BelowTransitive(x, s[0], s[j]);
    }
  }

  /** The head of a sorted list stays in front of the tail with an element above it inserted. */
  lemma SortedBehind(x: string, s: seq<string>, t: seq<string>)
    requires s != [] && SortedStrings(s) && !Below(x, s[0])
    requires SortedStrings(t) && multiset(t) == multiset(s[1..]) + multiset{x}
    ensures SortedStrings([s[0]] + t)
    ensures multiset([s[0]] + t) == multiset(s) + multiset{x}
  {
    BelowTotal(x, s[0]);
    assert s == [s[0]] + s[1..];
    forall j | 0 <= j < |t| ensures Below(s[0], t[j]) {
      assert t[j] in multiset(t);
      assert t[j] == x || t[j] in s[1..];
    }
  }

  /** `sorted(l)` on strings. */
  function SortStrings(s: seq<string>): (r: seq<string>)
    ensures multiset(r) == multiset(s)
    ensures SortedStrings(r)
  {
    if s == [] then []
    else
      assert s == [s[0]] + s[1..];
      InsertSorted(s[0], SortStrings(s[1..]))
  }

  /** The head of a sorted list is below each of its elements. */
  lemma HeadBelow(a: seq<string>, x: string)
    requires SortedStrings(a) && x in multiset(a)
    ensures Below(a[0], x)
  {
    var i :| 0 <= i < |a| && a[i] == x;
    if i == 0 { BelowReflexive(x); }
  }

  lemma MultisetTails(a: seq<string>, b: seq<string>)
    requires a != [] && b != [] && a[0] == b[0] && multiset(a) == multiset(b)
    ensures multiset(a[1..]) == multiset(b[1..])
  {
    assert a == [a[0]] + a[1..] && b == [b[0]] + b[1..];
    assert multiset(a) == multiset{a[0]} + multiset(a[1..]);
    assert multiset(b) == multiset{b[0]} + multiset(b[1..]);
    assert multiset(a[1..]) == multiset(a) - multiset{a[0]};
    assert multiset(b[1..]) == multiset(b) - multiset{b[0]};
  }

  /** Sorting has one answer: two sorted lists with the same elements are the same list. */
  lemma {:induction false} SortedUnique(a: seq<string>, b: seq<string>)
    requires SortedStrings(a) && SortedStrings(b) && multiset(a) == multiset(b)
    ensures a == b
  {
    if a != [] {
      assert |b| == |multiset(b)|;
      HeadBelow(a, b[0]);
      HeadBelow(b, a[0]);
      BelowAntisymmetric(a[0], b[0]);
      MultisetTails(a, b);
      SortedUnique(a[1..], b[1..]);
      assert a == [a[0]] + a[1..] && b == [b[0]] + b[1..];
    }
  }

  /** `sorted(l)` does not depend on the order of `l`. */
  lemma SortStringsCanonical(a: seq<string>, b: seq<string>)
    requires multiset(a) == multiset(b)
    ensures SortStrings(a) == SortStrings(b)
  {
    SortedUnique(SortStrings(a), SortStrings(b));
  }

  /** The elements of `s`, each once, in order of first appearance. */
  function Dedup<T(==,!new)>(s: seq<T>): (r: seq<T>)
    ensures forall x :: x in r <==> x in s
    ensures forall x :: x in r ==> multiset(r)[x] == 1
  {
    if s == [] then []
    else
      var rest := Dedup(s[..|s| - 1]);
      var x := s[|s| - 1];
      assert forall y :: y in s <==> y in s[..|s| - 1] || y == x;
      if x in rest then rest else rest + [x]
  }

  /** `sorted(set(s))`: the distinct strings of `s` in ascending order. */
  function SortedDistinct(s: seq<string>): (r: seq<string>)
    ensures SortedStrings(r)
    ensures forall x :: x in r <==> x in s
    ensures forall x :: x in r ==> multiset(r)[x] == 1
  {
    var d := Dedup(s);
    var r := SortStrings(d);
    assert forall x :: x in r <==> x in multiset(r);
    assert forall x :: x in d <==> x in multiset(d);
    r
  }
}
