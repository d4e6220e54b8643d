/**
 * The Python string primitives the pipeline relies on: `str.strip`,
 * `str.rstrip(ch)`, ASCII `str.lower`, `str(int)`, `int(str)`, `sep.join`
 * and `str.split(ch)`.
 */
module Text {
  import opened Wrappers

  /** The characters Python's `str.isspace()` accepts; `str.strip()` removes them. */
  predicate IsSpace(c: char) {
    || c == ' '
    || ('\t' <= c <= '\r')
    || ('\U{1c}' <= c <= '\U{1f}')
    || c == '\U{85}' || c == '\U{a0}' || c == '\U{1680}'
    || ('\U{2000}' <= c <= '\U{200a}')
    || c == '\U{2028}' || c == '\U{2029}' || c == '\U{202f}' || c == '\U{205f}' || c == '\U{3000}'
  }

  predicate IsDigit(c: char) { '0' <= c <= '9' }

  predicate IsAsciiUpper(c: char) { 'A' <= c <= 'Z' }

  predicate IsAsciiLower(c: char) { 'a' <= c <= 'z' }

  predicate IsAscii(c: char) { c as int < 128 }

  predicate AllDigits(s: string) { forall i :: 0 <= i < |s| ==> IsDigit(s[i]) }

  // ---------------------------------------------------------------- strip

  /** `s.lstrip()`: drop leading whitespace. */
  function LStrip(s: string): (r: string)
    ensures |r| <= |s|
  {
    if s != [] && IsSpace(s[0]) then LStrip(s[1..]) else s
  }

  /** `s.rstrip()`: drop trailing whitespace. */
  function RStrip(s: string): (r: string)
    ensures |r| <= |s|
  {
    if s != [] && IsSpace(s[|s| - 1]) then RStrip(s[..|s| - 1]) else s
  }

  /** `s.strip()`: drop whitespace at both ends. */
  function Strip(s: string): string {
    RStrip(LStrip(s))
  }

  /** `s.lstrip()` is a suffix of `s` that does not start with whitespace, after nothing but whitespace. */
  lemma {:induction false} LStripSplit(s: string) returns (lead: string)
    ensures s == lead + LStrip(s)
    ensures LStrip(s) != [] ==> !IsSpace(LStrip(s)[0])
    ensures forall i :: 0 <= i < |lead| ==> IsSpace(lead[i])
    decreases |s|
  {
    if s != [] && IsSpace(s[0]) {
      var rest := LStripSplit(s[1..]);
      lead := [s[0]] + rest;
      assert s == [s[0]] + s[1..];
      AppendAssoc([s[0]], rest, LStrip(s[1..]));
      assert forall i :: 1 <= i < |lead| ==> lead[i] == rest[i - 1];
    } else {
      lead := [];
    }
  }

  /** `s.rstrip()` is a prefix of `s` that does not end with whitespace, before nothing but whitespace. */
  lemma {:induction false} RStripSplit(s: string) returns (trail: string)
    ensures s == RStrip(s) + trail
    ensures RStrip(s) != [] ==> !IsSpace(RStrip(s)[|RStrip(s)| - 1])
    ensures forall i :: 0 <= i < |trail| ==> IsSpace(trail[i])
    decreases |s|
  {
    if s != [] && IsSpace(s[|s| - 1]) {
      var rest := RStripSplit(s[..|s| - 1]);
      trail := rest + [s[|s| - 1]];
      assert s == s[..|s| - 1] + [s[|s| - 1]];
      AppendAssoc(RStrip(s[..|s| - 1]), rest, [s[|s| - 1]]);
    } else {
      trail := [];
    }
  }

  /** `s` is `s.strip()` with whitespace around it, and `s.strip()` neither starts nor ends with whitespace. */
  lemma StripSplit(s: string) returns (lead: string, trail: string)
    ensures s == lead + (Strip(s) + trail)
    ensures forall i :: 0 <= i < |lead| ==> IsSpace(lead[i])
    ensures forall i :: 0 <= i < |trail| ==> IsSpace(trail[i])
    ensures Strip(s) == [] || (!IsSpace(Strip(s)[0]) && !IsSpace(Strip(s)[|Strip(s)| - 1]))
  {
    lead := LStripSplit(s);
    trail := RStripSplit(LStrip(s));
    var l := LStrip(s);
    var r := RStrip(l);
    if r != [] {
      assert l == r + trail;
      assert r[0] == l[0];
    }
  }

  /** `s.rstrip(ch)`: drop every trailing occurrence of `ch`. */
  function RStripChar(s: string, ch: char): (r: string)
    ensures |r| <= |s| && r == s[..|r|]
    ensures r == [] || r[|r| - 1] != ch
    ensures forall i :: |r| <= i < |s| ==> s[i] == ch
  {
    if s != [] && s[|s| - 1] == ch then RStripChar(s[..|s| - 1], ch) else s
  }

  // ---------------------------------------------------------------- case

  function LowerChar(c: char): char {
    if IsAsciiUpper(c) then (c as int + 32) as char else c
  }

  /** `s.lower()` on a string whose upper-case letters are ASCII. */
  function Lower(s: string): (r: string)
    ensures |r| == |s|
    ensures forall i :: 0 <= i < |s| ==> r[i] == LowerChar(s[i])
  {
    seq(|s|, i requires 0 <= i < |s| => LowerChar(s[i]))
  }

  lemma LowerAppend(a: string, b: string)
    ensures Lower(a + b) == Lower(a) + Lower(b)
  {
    assert forall i :: 0 <= i < |a| ==> (a + b)[i] == a[i];
    assert forall i :: |a| <= i < |a + b| ==> (a + b)[i] == b[i - |a|];
  }

  // ---------------------------------------------------------------- numbers

  function DigitChar(d: nat): (c: char)
    requires d < 10
    ensures IsDigit(c)
  {
    ('0' as int + d) as char
  }

  function DigitValue(c: char): (d: nat)
    requires IsDigit(c)
    ensures d < 10 && DigitChar(d) == c
  {
    c as int - '0' as int
  }

  /** `str(n)` for a non-negative integer. */
  function NatToDecimal(n: nat): (s: string)
    ensures s != [] && AllDigits(s)
  {
    if n < 10 then [DigitChar(n)] else NatToDecimal(n / 10) + [DigitChar(n % 10)]
  }

  /** `str(i)` for any integer. */
  function IntToDecimal(i: int): string {
    if i < 0 then "-" + NatToDecimal(-i) else NatToDecimal(i)
  }

  /** `int(s)` for a string of decimal digits. */
  function ParseDecimal(s: string): nat
    requires AllDigits(s)
  {
    if s == [] then 0 else ParseDecimal(s[..|s| - 1]) * 10 + DigitValue(s[|s| - 1])
  }

  /** `int(str(n)) == n`. */
  lemma {:induction false} ParseDecimalOfNatToDecimal(n: nat)
    ensures ParseDecimal(NatToDecimal(n)) == n
  {
    var s := NatToDecimal(n);
    if n < 10 {
      assert s[..|s| - 1] == [];
      assert DigitValue(DigitChar(n)) == n;
    } else {
      ParseDecimalOfNatToDecimal(n / 10);
      assert s[..|s| - 1] == NatToDecimal(n / 10);
      assert DigitValue(DigitChar(n % 10)) == n % 10;
    }
  }

  // ---------------------------------------------------------------- join / split

  /** `sep.join(parts)`. */
  function JoinWith(sep: string, parts: seq<string>): string {
    if parts == [] then ""
    else if |parts| == 1 then parts[0]
    else parts[0] + sep + JoinWith(sep, parts[1..])
  }

  /** `s.split(sep)` for a one-character separator: never empty, `"".split(sep) == [""]`. */
  function Split(s: string, sep: char): (parts: seq<string>)
    ensures |parts| > 0
  {
    if s == [] then [""]
    else
      var rest := Split(s[1..], sep);
      if s[0] == sep then [""] + rest else [[s[0]] + rest[0]] + rest[1..]
  }

  lemma {:induction false} SplitNoSep(s: string, sep: char)
    requires sep !in s
    ensures Split(s, sep) == [s]
  {
    if s != [] {
      SplitNoSep(s[1..], sep);
      assert [s[0]] + s[1..] == s;
    }
  }

  lemma {:induction false} SplitAfterFirst(p: string, sep: char, t: string)
    requires sep !in p
    ensures Split(p + [sep] + t, sep) == [p] + Split(t, sep)
  {
    if p == [] {
      assert p + [sep] + t == [sep] + t;
      assert ([sep] + t)[1..] == t;
    } else {
      assert (p + [sep] + t)[1..] == p[1..] + [sep] + t;
      SplitAfterFirst(p[1..], sep, t);
      assert [p[0]] + p[1..] == p;
    }
  }

  /**
   * Splitting a non-empty list of separator-free lines joined by the
   * separator gives those lines back.
   */
  lemma {:induction false} SplitJoin(parts: seq<string>, sep: char)
    requires |parts| > 0
    requires forall i :: 0 <= i < |parts| ==> sep !in parts[i]
    ensures Split(JoinWith([sep], parts), sep) == parts
  {
    if |parts| == 1 {
      SplitNoSep(parts[0], sep);
    } else {
      SplitJoin(parts[1..], sep);
      SplitAfterFirst(parts[0], sep, JoinWith([sep], parts[1..]));
      assert [parts[0]] + parts[1..] == parts;
    }
  }

  /** A separator that occurs in neither tail splits two equal strings at the same place. */
  lemma SplitAtLastSep(a: string, x: string, b: string, y: string, c: char)
    requires c !in x && c !in y
    requires a + [c] + x == b + [c] + y
    ensures a == b && x == y
  {
    var s := a + [c] + x;
    assert s[|a|] == c && s[|b|] == c;
    assert forall i :: |a| < i < |s| ==> s[i] == x[i - |a| - 1];
    assert forall i :: |b| < i < |s| ==> s[i] == y[i - |b| - 1];
    assert |a| == |b|;
    assert a == s[..|a|] && b == s[..|b|];
    assert x == s[|a| + 1..] && y == s[|b| + 1..];
  }
}
