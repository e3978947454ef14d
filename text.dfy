/**
 * The string operations of Python's `str` that the shell and the scheduler
 * rely on: `split(sep)`, `sep.join`, `split()`, `strip()`, `splitlines()`,
 * `int()` and the decimal rendering used by f-strings.
 */
module Text {
  import opened Wrappers

  /** Python's `str.isspace()` for one character. */
  predicate IsSpace(c: char)
  {
    c == ' ' || ('\t' <= c <= '\r') || ('\U{1c}' <= c <= '\U{1f}')
    || c == '\U{85}' || c == '\U{a0}' || c == '\U{1680}'
    || ('\U{2000}' <= c <= '\U{200a}') || c == '\U{2028}' || c == '\U{2029}'
    || c == '\U{202f}' || c == '\U{205f}' || c == '\U{3000}'
  }

  /** The line boundaries recognised by Python's `str.splitlines()`. */
  predicate IsLineBreak(c: char)
  {
    c == '\n' || c == '\r' || c == '\U{0b}' || c == '\U{0c}'
    || ('\U{1c}' <= c <= '\U{1e}') || c == '\U{85}' || c == '\U{2028}' || c == '\U{2029}'
  }

  predicate IsDigit(c: char)
  {
    '0' <= c <= '9'
  }

  function CountChar(s: string, c: char): nat
  {
    if s == [] then 0 else (if s[0] == c then 1 else 0) + CountChar(s[1..], c)
  }

  /** Python's `s.find(c)`, with |s| standing for "not found": the first index holding c. */
  function Find(s: string, c: char): (i: nat)
    ensures i <= |s| && c !in s[..i]
    ensures i < |s| ==> s[i] == c
  {
    if s == [] then 0
    else if s[0] == c then 0
    else
      var j := Find(s[1..], c);
      assert s[..j + 1] == [s[0]] + s[1..][..j];
      j + 1
  }

  /** `find` stops at the first occurrence: the one right after a prefix free of c. */
  lemma FindAt(head: string, rest: string, c: char)
    requires c !in head && rest != [] && rest[0] == c
    ensures Find(head + rest, c) == |head|
  {
    var s := head + rest;
    assert s[..|head|] == head;
  }

  // ---------------------------------------------------------------------
  // split(sep) and sep.join

  /** Python's `s.split(sep)` for a one-character separator: the pieces between separators, empty ones included. */
  function SplitOn(s: string, sep: char): (parts: seq<string>)
    ensures |parts| >= 1
    ensures forall k :: 0 <= k < |parts| ==> sep !in parts[k]
  {
    if s == [] then [""]
    else
      var rest := SplitOn(s[1..], sep);
      if s[0] == sep then [""] + rest
      else [[s[0]] + rest[0]] + rest[1..]
  }

  /** Python's `sep.join(parts)` for a one-character separator. */
  function JoinWith(parts: seq<string>, sep: char): string
  {
    if |parts| == 0 then ""
    else if |parts| == 1 then parts[0]
    else parts[0] + [sep] + JoinWith(parts[1..], sep)
  }

  lemma {:induction false} SplitNoSep(s: string, sep: char)
    requires sep !in s
    ensures SplitOn(s, sep) == [s]
  {
    if s != [] {
      SplitNoSep(s[1..], sep);
      assert [s[0]] + s[1..] == s;
    }
  }

  lemma {:induction false} SplitAtSep(a: string, b: string, sep: char)
    requires sep !in a
    ensures SplitOn(a + [sep] + b, sep) == [a] + SplitOn(b, sep)
  {
    if a != [] {
      assert (a + [sep] + b)[1..] == a[1..] + [sep] + b;
      SplitAtSep(a[1..], b, sep);
      assert [a[0]] + a[1..] == a;
    } else {
      assert (a + [sep] + b)[1..] == b;
    }
  }

  /** Splitting undoes joining when no part holds the separator. */
  lemma {:induction false} SplitJoin(parts: seq<string>, sep: char)
    requires |parts| >= 1
    requires forall k :: 0 <= k < |parts| ==> sep !in parts[k]
    ensures SplitOn(JoinWith(parts, sep), sep) == parts
  {
    if |parts| == 1 {
      SplitNoSep(parts[0], sep);
    } else {
      SplitJoin(parts[1..], sep);
      SplitAtSep(parts[0], JoinWith(parts[1..], sep), sep);
    }
  }

  /** A string with n separators splits into n + 1 pieces. */
  lemma {:induction false} SplitCount(s: string, sep: char)
    ensures |SplitOn(s, sep)| == CountChar(s, sep) + 1
  {
    if s != [] {
      SplitCount(s[1..], sep);
    }
  }

  /** Splitting at a separator splits the two sides independently. */
  lemma {:induction false} SplitConcat(a: string, b: string, sep: char)
    ensures SplitOn(a + [sep] + b, sep) == SplitOn(a, sep) + SplitOn(b, sep)
  {
    if a == [] {
      assert a + [sep] + b == [sep] + b;
    } else {
      assert (a + [sep] + b)[1..] == a[1..] + [sep] + b;
      SplitConcat(a[1..], b, sep);
    }
  }

  // ---------------------------------------------------------------------
  // split() and strip()

  /** The end of the run of non-space characters that starts at i. */
  function WordEnd(s: string, i: nat): (j: nat)
    requires i <= |s|
    ensures i <= j <= |s|
    ensures forall k :: i <= k < j ==> !IsSpace(s[k])
    ensures j < |s| ==> IsSpace(s[j])
    decreases |s| - i
  {
    if i < |s| && !IsSpace(s[i]) then WordEnd(s, i + 1) else i
  }

  /** Python's `s.split()`: the maximal runs of non-whitespace characters, in order. */
  function Words(s: string): (ws: seq<string>)
    ensures forall k :: 0 <= k < |ws| ==> ws[k] != [] && forall c :: c in ws[k] ==> !IsSpace(c)
    decreases |s|
  {
    if s == [] then []
    else if IsSpace(s[0]) then Words(s[1..])
    else
      var j := WordEnd(s, 0);
      [s[..j]] + Words(s[j..])
  }

  /** Python's `s.lstrip()`. */
  function TrimLeft(s: string): (t: string)
    ensures t == [] || !IsSpace(t[0])
    ensures |t| <= |s|
  {
    if s != [] && IsSpace(s[0]) then TrimLeft(s[1..]) else s
  }

  /** `lstrip` drops whitespace only, and keeps a suffix. */
  lemma {:induction false} TrimLeftDrops(s: string)
    ensures s[..|s| - |TrimLeft(s)|] + TrimLeft(s) == s
    ensures forall k :: 0 <= k < |s| - |TrimLeft(s)| ==> IsSpace(s[k])
  {
    if s != [] && IsSpace(s[0]) {
      var t := TrimLeft(s[1..]);
      TrimLeftDrops(s[1..]);
      assert s[..|s| - |t|] == [s[0]] + s[1..][..|s| - 1 - |t|];
    }
  }

  /** Python's `s.rstrip()`. */
  function TrimRight(s: string): (t: string)
    ensures t == [] || !IsSpace(t[|t| - 1])
    ensures |t| <= |s| && t == s[..|t|]
  {
    if s != [] && IsSpace(s[|s| - 1]) then TrimRight(s[..|s| - 1]) else s
  }

  /** `rstrip` drops whitespace only. */
  lemma {:induction false} TrimRightDrops(s: string)
    ensures forall k :: |TrimRight(s)| <= k < |s| ==> IsSpace(s[k])
  {
    if s != [] && IsSpace(s[|s| - 1]) {
      TrimRightDrops(s[..|s| - 1]);
    }
  }

  /** Python's `s.strip()`. */
  function Strip(s: string): (t: string)
    ensures t == [] || (!IsSpace(t[0]) && !IsSpace(t[|t| - 1]))
  {
    TrimRight(TrimLeft(s))
  }

  lemma {:induction false} StripNoSpace(s: string)
    requires forall c :: c in s ==> !IsSpace(c)
    ensures Strip(s) == s
  {
    assert TrimLeft(s) == s;
    assert TrimRight(s) == s;
  }

  // ---------------------------------------------------------------------
  // splitlines()

  /** The first index at or after i that holds a line boundary, or |s|. */
  function LineEnd(s: string, i: nat): (j: nat)
    requires i <= |s|
    ensures i <= j <= |s|
    ensures forall k :: i <= k < j ==> !IsLineBreak(s[k])
    ensures j < |s| ==> IsLineBreak(s[j])
    decreases |s| - i
  {
    if i < |s| && !IsLineBreak(s[i]) then LineEnd(s, i + 1) else i
  }

  /** Python's `s.splitlines()`: "\r\n" is one boundary and a final boundary adds no empty line. */
  function SplitLines(s: string): (lines: seq<string>)
    ensures forall k :: 0 <= k < |lines| ==> forall c :: c in lines[k] ==> !IsLineBreak(c)
    decreases |s|
  {
    if s == [] then []
    else
      var j := LineEnd(s, 0);
      if j == |s| then [s]
      else
        var next := if s[j] == '\r' && j + 1 < |s| && s[j + 1] == '\n' then j + 2 else j + 1;
        [s[..j]] + SplitLines(s[next..])
  }

  // ---------------------------------------------------------------------
  // Decimal rendering and int()

  function DigitChar(d: nat): (c: char)
    requires d < 10
    ensures IsDigit(c)
  {
    ['0', '1', '2', '3', '4', '5', '6', '7', '8', '9'][d]
  }

  function DigitValue(c: char): nat
    requires IsDigit(c)
  {
    (c as int - '0' as int) as nat
  }

  predicate AllDigits(s: string)
  {
    forall c :: c in s ==> IsDigit(c)
  }

  /** The decimal digits of n, as `str(n)` writes them. */
  function NatToString(n: nat): (s: string)
    ensures s != [] && AllDigits(s)
  {
    if n < 10 then [DigitChar(n)] else NatToString(n / 10) + [DigitChar(n % 10)]
  }

  /** `str(i)` for any integer. */
  function IntToString(i: int): string
  {
    if i < 0 then "-" + NatToString(-i) else NatToString(i)
  }

  /** The digit part of an integer literal as `int()` accepts it: digits, with single underscores between digits. */
  predicate IsDecimal(s: string)
  {
    s != [] && IsDigit(s[0]) && IsDigit(s[|s| - 1])
    && DigitsOrUnderscores(s)
    && NoDoubleUnderscore(s)
  }

  /** No two underscores in a row. */
  predicate NoDoubleUnderscore(s: string)
  {
    |s| < 2 || ((s[0] != '_' || s[1] != '_') && NoDoubleUnderscore(s[1..]))
  }

  predicate DigitsOrUnderscores(s: string)
  {
    forall c :: c in s ==> IsDigit(c) || c == '_'
  }

  /** The value of a run of digits and underscores, the underscores ignored. */
  function DecimalValue(s: string): nat
    requires DigitsOrUnderscores(s)
  {
    if s == [] then 0
    else if s[|s| - 1] == '_' then DecimalValue(s[..|s| - 1])
    else DecimalValue(s[..|s| - 1]) * 10 + DigitValue(s[|s| - 1])
  }

  /**
   * Python's `int(s)` on a string: surrounding whitespace, an optional sign,
   * then a decimal literal; None where Python raises ValueError.
   */
  function PyInt(s: string): (r: Option<int>)
    ensures r.Some? ==> exists k :: 0 <= k < |s| && IsDigit(s[k])
  {
    var t := Strip(s);
    var negative := t != [] && t[0] == '-';
    var body := if t != [] && (t[0] == '-' || t[0] == '+') then t[1..] else t;
    if IsDecimal(body) then
      assert IsDigit(body[0]) && body[0] in s by {
        assert body[0] in t;
        assert t == TrimLeft(s)[..|t|];
        TrimLeftDrops(s);
      }
      Some(if negative then -(DecimalValue(body) as int) else DecimalValue(body))
    else None
  }

  lemma {:induction false} DecimalOfNat(n: nat)
    ensures DecimalValue(NatToString(n)) == n
  {
    var s := NatToString(n);
    if n >= 10 {
      DecimalOfNat(n / 10);
      assert s[..|s| - 1] == NatToString(n / 10);
    }
  }

  /** `int(str(n)) == n`: reading back a rendered natural number gives it back. */
  lemma PyIntOfNat(n: nat)
    ensures PyInt(NatToString(n)) == Some(n)
  {
    var s := NatToString(n);
    DigitsNotSpace(s);
    StripNoSpace(s);
    DecimalOfNat(n);
    DigitsDecimal(s);
    PyIntPlain(s);
  }

  lemma DigitsDecimal(s: string)
    requires s != [] && AllDigits(s)
    ensures IsDecimal(s)
  {
    assert s[0] in s && s[|s| - 1] in s;
    DigitsSingle(s);
  }

  lemma {:induction false} DigitsSingle(s: string)
    requires AllDigits(s)
    ensures NoDoubleUnderscore(s)
  {
    if |s| >= 2 {
      assert s[0] in s;
      DigitsSingle(s[1..]);
    }
  }

  lemma DigitsNotSpace(s: string)
    requires AllDigits(s)
    ensures forall c :: c in s ==> !IsSpace(c)
  {
  }

  /** A minus sign followed by digits has no surrounding whitespace to strip. */
  lemma StripSigned(d: string)
    requires AllDigits(d)
    ensures Strip(['-'] + d) == ['-'] + d
  {
    assert forall c :: c in ['-'] + d ==> !IsSpace(c);
    StripNoSpace(['-'] + d);
  }

  /** `int(s)` on a minus sign followed by a decimal literal, with no surrounding blanks. */
  lemma PyIntMinus(d: string)
    requires Strip(['-'] + d) == ['-'] + d && IsDecimal(d)
    ensures PyInt(['-'] + d) == Some(-(DecimalValue(d) as int))
  {
    var s := ['-'] + d;
    assert Strip(s)[0] == '-' && Strip(s)[1..] == d;
  }

  /** `int(s)` on an unsigned decimal literal with no surrounding blanks. */
  lemma PyIntPlain(s: string)
    requires Strip(s) == s && IsDecimal(s)
    ensures PyInt(s) == Some(DecimalValue(s))
  {
    assert !(Strip(s)[0] == '-' || Strip(s)[0] == '+');
  }

  /** `int(str(i)) == i` for a negative i. */
  lemma PyIntOfNegative(i: int)
    requires i < 0
    ensures PyInt(IntToString(i)) == Some(i)
  {
    var n: nat := -i;
    var t := ['-'] + NatToString(n);
    PyIntMinusNat(n);
    assert IntToString(i) == t;
  }

  lemma PyIntMinusNat(n: nat)
    ensures PyInt(['-'] + NatToString(n)) == Some(-(n as int))
  {
    var d := NatToString(n);
    StripSigned(d);
    DecimalOfNat(n);
    DigitsDecimal(d);
    PyIntMinus(d);
  }

  /** `int(str(i)) == i` for every integer. */
  lemma PyIntOfInt(i: int)
    ensures PyInt(IntToString(i)) == Some(i)
  {
    if i >= 0 {
      PyIntOfNat(i);
    } else {
      PyIntOfNegative(i);
    }
  }

  // ---------------------------------------------------------------------
  // Left-aligned fields, as the format specification `<w` pads them

  function Spaces(n: nat): (r: string)
    ensures |r| == n && forall c :: c in r ==> c == ' '
  {
    seq(n, _ => ' ')
  }

  /** `f"{s:<w}"`: s in a field of width w, padded with spaces on the right; never cut. */
  function PadRight(s: string, w: nat): (r: string)
    ensures |r| == if |s| < w then w else |s|
    ensures r[..|s|] == s && forall k :: |s| <= k < |r| ==> r[k] == ' '
    ensures forall c :: c in r ==> c in s || c == ' '
  {
    if |s| < w then s + Spaces(w - |s|) else s
  }

  /** Trailing padding is exactly what `rstrip` removes from a string that does not end in whitespace. */
  lemma {:induction false} TrimRightSpaces(d: string, n: nat)
    requires d == [] || !IsSpace(d[|d| - 1])
    ensures TrimRight(d + Spaces(n)) == d
  {
    var s := d + Spaces(n);
    if n == 0 {
      assert s == d;
    } else {
      assert s[|s| - 1] in Spaces(n);
      assert s[..|s| - 1] == d + Spaces(n - 1);
      TrimRightSpaces(d, n - 1);
    }
  }

  /** A number padded into a field reads back: `int(f"{n:<w}") == n`. */
  lemma PyIntPadded(n: nat, w: nat)
    ensures PyInt(PadRight(NatToString(n), w)) == Some(n)
  {
    var d := NatToString(n);
    var p := PadRight(d, w);
    DigitsNotSpace(d);
    StripNoSpace(d);
    assert d[0] in d && d[|d| - 1] in d;
    var pad := if |d| < w then w - |d| else 0;
    assert p == d + Spaces(pad);
    assert TrimLeft(p) == p;
    TrimRightSpaces(d, pad);
    assert Strip(p) == Strip(d);
    PyIntOfNat(n);
  }
}
