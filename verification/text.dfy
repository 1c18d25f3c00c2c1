/** The Python string operations the scrapers rely on: `str.lower`, the substring
    test `p in s`, `str.startswith`, `str.split(sep)`, `str.replace`, `str.strip()`,
    `str(int)` and `int(str)`. */
module Text {
  import opened Common

  // ---------------------------------------------------------------- lower()

  /** The lower-case form of one character: the ASCII capitals, and U+212A KELVIN SIGN,
      whose lower-case form is the ASCII `k`. Every other character is kept. */
  function LowerChar(c: char): char {
    if 'A' <= c <= 'Z' then (c as int + 32) as char
    else if c == Kelvin then 'k'
    else c
  }

  const Kelvin: char := '\U{212A}'

  /** `s.lower()` as far as ASCII text is concerned: each character whose lower-case form
      is a single ASCII character is mapped to it; no other character is changed. */
  function Lower(s: string): (r: string)
    ensures |r| == |s|
    ensures forall i :: 0 <= i < |s| ==> r[i] == LowerChar(s[i])
  {
    seq(|s|, i requires 0 <= i < |s| => LowerChar(s[i]))
  }

  lemma LowerAppend(s: string, t: string)
    ensures Lower(s + t) == Lower(s) + Lower(t)
  {
    assert forall i :: 0 <= i < |s + t| ==> Lower(s + t)[i] == (Lower(s) + Lower(t))[i];
  }

  // ------------------------------------------------------------ p in s

  predicate MatchAt(s: string, p: string, i: int) {
    0 <= i && i + |p| <= |s| && s[i..i + |p|] == p
  }

  /** Python's substring test `p in s`. */
  predicate Contains(s: string, p: string) {
    exists i :: 0 <= i <= |s| && MatchAt(s, p, i)
  }

  /** `any(p in s for p in pats)`: one of the patterns occurs in `s`. */
  predicate AnyIn(pats: seq<string>, s: string) {
    exists k :: 0 <= k < |pats| && Contains(s, pats[k])
  }

  /** A substring survives text added on either side. */
  lemma ContainsExtend(s: string, p: string, pre: string, post: string)
    requires Contains(s, p)
    ensures Contains(pre + s + post, p)
  {
    var i :| 0 <= i <= |s| && MatchAt(s, p, i);
    var u := pre + s + post;
    assert u[|pre| + i..|pre| + i + |p|] == s[i..i + |p|];
    assert MatchAt(u, p, |pre| + i);
  }

  lemma AnyInExtend(pats: seq<string>, s: string, pre: string, post: string)
    requires AnyIn(pats, s)
    ensures AnyIn(pats, pre + s + post)
  {
    var k :| 0 <= k < |pats| && Contains(s, pats[k]);
    ContainsExtend(s, pats[k], pre, post);
  }

  /** A pattern holding a character that `s` lacks cannot occur in `s`. */
  lemma MissingCharExcludes(s: string, p: string, c: char)
    requires c in p
    requires c !in s
    ensures !Contains(s, p)
  {
  }

  // ------------------------------------------------------- startswith()

  predicate StartsWith(s: string, p: string) {
    |p| <= |s| && s[..|p|] == p
  }

  // --------------------------------------------------------- split(sep)

  /** `s.split(c)` for a one-character separator: never empty, and empty fields are kept. */
  function Split(s: string, c: char): (parts: seq<string>)
    ensures |parts| >= 1
    ensures |parts| > 1 <==> c in s
    decreases |s|
  {
    if |s| == 0 then [""]
    else if s[0] == c then [""] + Split(s[1..], c)
    else
      var rest := Split(s[1..], c);
      [[s[0]] + rest[0]] + rest[1..]
  }

  /** `c.join(parts)`. */
  function Join(parts: seq<string>, c: char): string
    decreases |parts|
  {
    if |parts| == 0 then ""
    else if |parts| == 1 then parts[0]
    else parts[0] + [c] + Join(parts[1..], c)
  }

  lemma {:induction false} SplitWithout(a: string, c: char)
    requires c !in a
    ensures Split(a, c) == [a]
    decreases |a|
  {
    if |a| > 0 {
      SplitWithout(a[1..], c);
      assert [a[0]] + a[1..] == a;
    }
  }

  lemma {:induction false} SplitField(a: string, b: string, c: char)
    requires c !in a
    ensures Split(a + [c] + b, c) == [a] + Split(b, c)
    decreases |a|
  {
    var s := a + [c] + b;
    if |a| == 0 {
      assert s[1..] == b;
    } else {
      assert s[1..] == a[1..] + [c] + b;
      SplitField(a[1..], b, c);
      assert [a[0]] + a[1..] == a;
    }
  }

  /** Splitting undoes joining when no field contains the separator. */
  lemma {:induction false} SplitJoin(parts: seq<string>, c: char)
    requires |parts| >= 1
    requires forall k :: 0 <= k < |parts| ==> c !in parts[k]
    ensures Split(Join(parts, c), c) == parts
    decreases |parts|
  {
    if |parts| == 1 {
      SplitWithout(parts[0], c);
    } else {
      SplitJoin(parts[1..], c);
      SplitField(parts[0], Join(parts[1..], c), c);
      assert [parts[0]] + parts[1..] == parts;
    }
  }

  /** Joining undoes splitting. */
  lemma {:induction false} JoinSplit(s: string, c: char)
    ensures Join(Split(s, c), c) == s
    decreases |s|
  {
    if |s| > 0 {
      JoinSplit(s[1..], c);
      var rest := Split(s[1..], c);
      if s[0] == c {
        assert Join([""] + rest, c) == "" + [c] + Join(rest, c);
        assert [c] + s[1..] == s;
      } else if |rest| == 1 {
        assert [s[0]] + s[1..] == s;
      } else {
        var parts := [[s[0]] + rest[0]] + rest[1..];
        assert parts[1..] == rest[1..];
        assert Join(rest, c) == rest[0] + [c] + Join(rest[1..], c);
        assert [s[0]] + s[1..] == s;
      }
    }
  }

  // ------------------------------------------------------ replace(target, repl)

  /** `s.replace(target, repl)`: every non-overlapping occurrence, left to right. */
  function ReplaceAll(s: string, target: string, repl: string): string
    requires |target| > 0
    decreases |s|
  {
    if |s| < |target| then s
    else if s[..|target|] == target then repl + ReplaceAll(s[|target|..], target, repl)
    else [s[0]] + ReplaceAll(s[1..], target, repl)
  }

  /** A string that cannot hold `target` (it lacks one of its characters) is left alone. */
  lemma {:induction false} ReplaceAllAbsent(s: string, target: string, repl: string, c: char)
    requires |target| > 0 && c in target && c !in s
    ensures ReplaceAll(s, target, repl) == s
    decreases |s|
  {
    if |s| >= |target| {
      var k :| 0 <= k < |target| && target[k] == c;
      assert s[..|target|][k] == s[k];
      ReplaceAllAbsent(s[1..], target, repl, c);
      assert [s[0]] + s[1..] == s;
    }
  }

  // ---------------------------------------------------------------- strip()

  /** The characters Python's `str.isspace` accepts, which `str.strip()` removes. */
  predicate IsSpace(c: char) {
    var n := c as int;
    (9 <= n <= 13) || (28 <= n <= 32) || n == 0x85 || n == 0xA0 || n == 0x1680
    || (0x2000 <= n <= 0x200A) || n == 0x2028 || n == 0x2029 || n == 0x202F
    || n == 0x205F || n == 0x3000
  }

  function TrimLeft(s: string): string
    decreases |s|
  {
    if |s| > 0 && IsSpace(s[0]) then TrimLeft(s[1..]) else s
  }

  function TrimRight(s: string): string
    decreases |s|
  {
    if |s| > 0 && IsSpace(s[|s| - 1]) then TrimRight(s[..|s| - 1]) else s
  }

  /** `s.strip()`. */
  function Strip(s: string): string {
    TrimRight(TrimLeft(s))
  }

  lemma StripNoSpace(s: string)
    requires forall i :: 0 <= i < |s| ==> !IsSpace(s[i])
    ensures Strip(s) == s
  {
  }

  // ------------------------------------------------------ str(int), int(str)

  predicate IsDigit(c: char) { '0' <= c <= '9' }

  function DigitChar(d: nat): char
    requires d < 10
  {
    ['0', '1', '2', '3', '4', '5', '6', '7', '8', '9'][d]
  }

  function DigitValue(c: char): nat
    requires IsDigit(c)
  {
    (c as int) - ('0' as int)
  }

  /** Decimal digits of `n`, most significant first, as `str(n)` writes them. */
  function NatToString(n: nat): (r: string)
    ensures |r| >= 1
    ensures forall i :: 0 <= i < |r| ==> IsDigit(r[i])
  {
    if n < 10 then [DigitChar(n)] else NatToString(n / 10) + [DigitChar(n % 10)]
  }

  /** `str(n)` for a Python `int`. */
  function IntToString(n: int): (r: string)
    ensures |r| >= 1
    ensures forall i :: 0 <= i < |r| ==> IsDigit(r[i]) || r[i] == '-'
  {
    if n < 0 then "-" + NatToString(-n) else NatToString(n)
  }

  /** The value of a run of decimal digits. */
  function DigitsValue(ds: string): nat
    requires forall i :: 0 <= i < |ds| ==> IsDigit(ds[i])
    decreases |ds|
  {
    if |ds| == 0 then 0 else DigitsValue(ds[..|ds| - 1]) * 10 + DigitValue(ds[|ds| - 1])
  }

  predicate AllDigits(s: string) {
    |s| > 0 && forall i :: 0 <= i < |s| ==> IsDigit(s[i])
  }

  /** `int(s)` in base 10: surrounding whitespace, an optional sign and at least one
      digit; anything else raises `ValueError` (here: `None`). */
  function ParseInt(s: string): Option<int> {
    var t := Strip(s);
    if |t| > 0 && (t[0] == '-' || t[0] == '+') then
      if AllDigits(t[1..]) then
        var v: int := DigitsValue(t[1..]);
        Some(if t[0] == '-' then -v else v)
      else None
    else if AllDigits(t) then Some(DigitsValue(t))
    else None
  }

  lemma {:induction false} DigitsOfNat(n: nat)
    ensures DigitsValue(NatToString(n)) == n
  {
    var r := NatToString(n);
    if n >= 10 {
      DigitsOfNat(n / 10);
      assert r[..|r| - 1] == NatToString(n / 10);
    }
  }

  /** `int(str(n)) == n`. */
  lemma ParseIntRoundTrip(n: int)
    ensures ParseInt(IntToString(n)) == Some(n)
  {
    var s := IntToString(n);
    if n < 0 {
      ParseNegative(-n, s);
    } else {
      ParseNatural(n, s);
    }
  }

  /** `int` reads the digits `str` writes for a natural number. */
  lemma ParseNatural(n: nat, s: string)
    requires s == NatToString(n)
    ensures ParseInt(s) == Some(n)
  {
    StripNoSpace(s);
    DigitsOfNat(n);
    assert IsDigit(s[0]);
  }

  /** `int` reads a minus sign followed by the digits of `m`. */
  lemma ParseNegative(m: nat, s: string)
    requires s == "-" + NatToString(m)
    ensures ParseInt(s) == Some(-(m as int))
  {
    var d := NatToString(m);
    assert forall i :: 0 <= i < |s| ==> s[i] == '-' || IsDigit(s[i]);
    StripNoSpace(s);
    assert s[1..] == d;
    DigitsOfNat(m);
  }
}
