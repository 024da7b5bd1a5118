/**
 * String helpers shared by the bot model: the pieces of Python's `str` API the
 * bot relies on (`in`, `startswith`, `split`, `strip`, `isdigit`, `int()`),
 * written out over `seq<char>`.
 */
module Text {

  datatype Option<+T> = None | Some(value: T)

  predicate IsDigit(c: char) { '0' <= c <= '9' }

  /** Python's `str.isdigit()` restricted to ASCII digits: non-empty and all digits. */
  predicate IsDigits(s: string) {
    |s| > 0 && forall i :: 0 <= i < |s| ==> IsDigit(s[i])
  }

  predicate StartsWith(s: string, p: string) {
    |p| <= |s| && s[..|p|] == p
  }

  predicate OccursAt(s: string, p: string, i: nat) {
    i + |p| <= |s| && s[i..i + |p|] == p
  }

  /** Python's `p in s`. */
  ghost predicate Contains(s: string, p: string) {
    exists i: nat :: OccursAt(s, p, i)
  }

  /** The leftmost index at which `p` occurs in `s` (Python's `s.find(p)`). */
  function Find(s: string, p: string): (r: Option<nat>)
    ensures r.Some? ==> OccursAt(s, p, r.value)
    ensures r.Some? ==> forall j: nat :: j < r.value ==> !OccursAt(s, p, j)
    ensures r.None? ==> forall j: nat :: !OccursAt(s, p, j)
    decreases |s|
  {
    if |s| < |p| then
      assert forall j: nat :: !OccursAt(s, p, j);
      None
    else if s[..|p|] == p then Some(0)
    else
      var rest := Find(s[1..], p);
      ShiftOccurs(s, p);
      assert !OccursAt(s, p, 0);
      assert forall j: nat :: 0 < j && !OccursAt(s[1..], p, j - 1) ==> !OccursAt(s, p, j);
      if rest.Some? then Some(rest.value + 1) else None
  }

  /** An occurrence in `s[1..]` is an occurrence in `s` one place later. */
  lemma ShiftOccurs(s: string, p: string)
    requires |s| > 0
    ensures forall j: nat :: OccursAt(s[1..], p, j) <==> OccursAt(s, p, j + 1)
  {
    forall j: nat
      ensures OccursAt(s[1..], p, j) <==> OccursAt(s, p, j + 1)
    {
      if j + |p| <= |s| - 1 {
        assert s[1..][j..j + |p|] == s[j + 1..j + 1 + |p|];
      }
    }
  }

  lemma FindIsContains(s: string, p: string)
    ensures Find(s, p).Some? <==> Contains(s, p)
  {
    if Find(s, p).Some? {
      assert OccursAt(s, p, Find(s, p).value);
    }
  }

  /** Python's `s.split(sep)[0]` for a one-character separator. */
  function SplitFirst(s: string, sep: char): (r: string)
    ensures |r| <= |s| && r == s[..|r|]
    ensures sep !in r
    ensures |r| < |s| ==> s[|r|] == sep
  {
    if s == [] then []
    else if s[0] == sep then []
    else [s[0]] + SplitFirst(s[1..], sep)
  }

  /** A pattern holding a character that `s` lacks occurs nowhere in `s`. */
  lemma NoOccurrenceWithout(s: string, p: string, x: char)
    requires x in p && x !in s
    ensures forall j: nat :: !OccursAt(s, p, j)
  {
    var k :| 0 <= k < |p| && p[k] == x;
    forall j: nat
      ensures !OccursAt(s, p, j)
    {
      if j + |p| <= |s| {
        assert s[j..j + |p|][k] == s[j + k];
      }
    }
  }

  lemma {:induction false} SplitFirstAppend(a: string, b: string, sep: char)
    requires sep !in a
    ensures SplitFirst(a + b, sep) == a + SplitFirst(b, sep)
  {
    if a == [] {
      assert a + b == b;
    } else {
      assert (a + b)[0] == a[0];
      assert (a + b)[1..] == a[1..] + b;
      SplitFirstAppend(a[1..], b, sep);
      assert [a[0]] + (a[1..] + SplitFirst(b, sep)) == a + SplitFirst(b, sep);
    }
  }

  /** Python's `s.split(sep)[-1]`: what follows the last occurrence of a non-empty `sep`. */
  function SplitLast(s: string, sep: string): (r: string)
    requires |sep| > 0
    ensures forall j: nat :: !OccursAt(r, sep, j)
    ensures |r| <= |s| && r == s[|s| - |r|..]
    decreases |s|
  {
    match Find(s, sep)
    case None => s
    case Some(i) => SplitLast(s[i + |sep|..], sep)
  }

  /** Python's `s.split(sep)` for a one-character separator: every piece, empty ones included. */
  function Split(s: string, sep: char): (parts: seq<string>)
    ensures |parts| > 0
    ensures forall k :: 0 <= k < |parts| ==> sep !in parts[k]
    decreases |s|
  {
    var head := SplitFirst(s, sep);
    if |head| == |s| then [s] else [head] + Split(s[|head| + 1..], sep)
  }

  /** Splitting pieces that contain no separator, joined by it, gives them back. */
  lemma {:induction false} SplitJoin(a: string, rest: string, sep: char)
    requires sep !in a
    ensures Split(a + [sep] + rest, sep) == [a] + Split(rest, sep)
  {
    var s := a + [sep] + rest;
    assert s == a + ([sep] + rest);
    SplitFirstOfJoin(a, [sep] + rest, sep);
    assert SplitFirst(s, sep) == a;
    assert s[|a| + 1..] == rest;
  }

  lemma {:induction false} SplitFirstOfJoin(a: string, b: string, sep: char)
    requires sep !in a
    requires |b| > 0 && b[0] == sep
    ensures SplitFirst(a + b, sep) == a
  {
    if a == [] {
      assert (a + b)[0] == sep;
    } else {
      assert (a + b)[0] == a[0];
      assert (a + b)[1..] == a[1..] + b;
      SplitFirstOfJoin(a[1..], b, sep);
    }
  }

  lemma SplitOfPlain(s: string, sep: char)
    requires sep !in s
    ensures Split(s, sep) == [s]
  {
  }

  // ---------------------------------------------------------------------------
  // Whitespace and Python's strip()

  /** The characters Python's `str.isspace()` accepts. */
  predicate IsSpace(c: char) {
    c == ' ' || c == '\t' || c == '\n' || c == '\r' || c == '\U{B}' || c == '\U{C}'
    || ('\U{1C}' <= c <= '\U{1F}') || c == '\U{85}' || c == '\U{A0}' || c == '\U{1680}'
    || ('\U{2000}' <= c <= '\U{200A}') || c == '\U{2028}' || c == '\U{2029}' || c == '\U{202F}'
    || c == '\U{205F}' || c == '\U{3000}'
  }

  function StripLeft(s: string): (r: string)
    ensures |r| <= |s|
    ensures r == [] || !IsSpace(r[0])
  {
    if s != [] && IsSpace(s[0]) then StripLeft(s[1..]) else s
  }

  function StripRight(s: string): (r: string)
    ensures |r| <= |s| && (r != [] ==> r[0] == s[0])
    ensures r == [] || !IsSpace(r[|r| - 1])
  {
    if s != [] && IsSpace(s[|s| - 1]) then StripRight(s[..|s| - 1]) else s
  }

  /** Python's `s.strip()` with no argument. */
  function Strip(s: string): (r: string)
    ensures r == [] || (!IsSpace(r[0]) && !IsSpace(r[|r| - 1]))
  {
    StripRight(StripLeft(s))
  }

  // ---------------------------------------------------------------------------
  // Decimal numbers

  function DigitValue(c: char): nat
    requires IsDigit(c)
  {
    (c as int - '0' as int) as nat
  }

  /** The value of a string of ASCII digits, most significant first. */
  function DigitsValue(s: string): nat
    requires forall i :: 0 <= i < |s| ==> IsDigit(s[i])
  {
    if s == [] then 0 else DigitsValue(s[..|s| - 1]) * 10 + DigitValue(s[|s| - 1])
  }

  /** The decimal rendering of a natural number, as Python's `str(n)` or an f-string does it. */
  function NatToString(n: nat): (r: string)
    ensures IsDigits(r)
    ensures r[0] != '0' || n == 0
    decreases n
  {
    if n < 10 then [('0' as int + n) as char]
    else NatToString(n / 10) + [('0' as int + n % 10) as char]
  }

  lemma {:induction false} NatToStringValue(n: nat)
    ensures DigitsValue(NatToString(n)) == n
    decreases n
  {
    var r := NatToString(n);
    if n >= 10 {
      NatToStringValue(n / 10);
      assert r[..|r| - 1] == NatToString(n / 10);
    }
  }

  /**
   * Python's `int(s)` for a str argument: surrounding whitespace is ignored, one
   * optional sign, then decimal digits in which single underscores may separate
   * digits. Anything else raises ValueError, modelled as None.
   */
  function PyInt(s: string): (r: Option<int>)
  {
    IntOfStripped(Strip(s))
  }

  /** `int()` on text without surrounding whitespace: one optional sign, then the digits. */
  function IntOfStripped(t: string): (r: Option<int>)
  {
    if t == [] then None
    else if t[0] == '-' || t[0] == '+' then
      match UnsignedInt(t[1..])
      case None => None
      case Some(v) => Some(if t[0] == '-' then 0 - v else v)
    else UnsignedInt(t)
  }

  /** The digits-and-underscores part of `int()`'s syntax, without a sign. */
  function UnsignedInt(body: string): (r: Option<nat>)
  {
    if IntBody(body) then Some(DigitsValue(RemoveUnderscores(body))) else None
  }

  /** Digits, with single underscores allowed only between two digits. */
  predicate IntBody(s: string) {
    |s| > 0 && IsDigit(s[0]) && IsDigit(s[|s| - 1])
    && (forall i :: 0 <= i < |s| ==> IsDigit(s[i]) || s[i] == '_')
    && (forall i :: 0 <= i < |s| - 1 ==> !(s[i] == '_' && s[i + 1] == '_'))
  }

  function RemoveUnderscores(s: string): (r: string)
    requires forall i :: 0 <= i < |s| ==> IsDigit(s[i]) || s[i] == '_'
    ensures forall i :: 0 <= i < |r| ==> IsDigit(r[i])
    ensures (forall i :: 0 <= i < |s| ==> IsDigit(s[i])) ==> r == s
  {
    if s == [] then []
    else (if s[0] == '_' then [] else [s[0]]) + RemoveUnderscores(s[1..])
  }

  lemma StripOfTrimmed(s: string)
    requires s == [] || (!IsSpace(s[0]) && !IsSpace(s[|s| - 1]))
    ensures Strip(s) == s
  {
  }

  lemma StripOfDigits(s: string)
    requires IsDigits(s)
    ensures Strip(s) == s
  {
    assert !IsSpace(s[0]) && !IsSpace(s[|s| - 1]);
    StripOfTrimmed(s);
  }

  /** `lstrip()` removes a leading run of whitespace, ending at `i`, and nothing else. */
  lemma {:induction false} StripLeftSlice(s: string) returns (i: nat)
    ensures i <= |s| && StripLeft(s) == s[i..]
    ensures forall k :: 0 <= k < i ==> IsSpace(s[k])
    decreases |s|
  {
    if s != [] && IsSpace(s[0]) {
      var i' := StripLeftSlice(s[1..]);
      i := i' + 1;
      assert s[1..][i'..] == s[i..];
      forall k | 0 <= k < i ensures IsSpace(s[k]) {
        if k > 0 {
          assert s[k] == s[1..][k - 1];
        }
      }
    } else {
      i := 0;
      assert StripLeft(s) == s[0..];
    }
  }

  /** `rstrip()` removes a trailing run of whitespace, starting at `j`, and nothing else. */
  lemma {:induction false} StripRightSlice(s: string) returns (j: nat)
    ensures j <= |s| && StripRight(s) == s[..j]
    ensures forall k :: j <= k < |s| ==> IsSpace(s[k])
    decreases |s|
  {
    if s != [] && IsSpace(s[|s| - 1]) {
      var t := s[..|s| - 1];
      j := StripRightSlice(t);
      assert t[..j] == s[..j];
      forall k | j <= k < |s| ensures IsSpace(s[k]) {
        if k < |s| - 1 {
          assert s[k] == t[k];
        }
      }
    } else {
      j := |s|;
      assert StripRight(s) == s[..|s|];
    }
  }

  /**
   * `strip()` keeps the middle of the text: what it drops before and after the
   * result is whitespace. With the postcondition of `Strip` (the result neither
   * starts nor ends with whitespace) this pins the result down.
   */
  lemma StripSlice(s: string)
    ensures exists i, j ::
              0 <= i <= j <= |s| && Strip(s) == s[i..j]
              && (forall k :: 0 <= k < i ==> IsSpace(s[k])) && (forall k :: j <= k < |s| ==> IsSpace(s[k]))
  {
    var i := StripLeftSlice(s);
    var t := s[i..];
    var j := StripRightSlice(t);
    var e := i + j;
    assert t[..j] == s[i..e];
    forall k | e <= k < |s| ensures IsSpace(s[k]) {
      assert s[k] == t[k - i];
    }
    assert Strip(s) == s[i..e];
  }

  lemma {:induction false} StripLeftSpaces(pre: string, t: string)
    requires forall k :: 0 <= k < |pre| ==> IsSpace(pre[k])
    requires t == [] || !IsSpace(t[0])
    ensures StripLeft(pre + t) == t
    decreases |pre|
  {
    if pre == [] {
      assert pre + t == t;
    } else {
      assert (pre + t)[1..] == pre[1..] + t;
      StripLeftSpaces(pre[1..], t);
    }
  }

  lemma {:induction false} StripRightSpaces(t: string, post: string)
    requires forall k :: 0 <= k < |post| ==> IsSpace(post[k])
    requires t == [] || !IsSpace(t[|t| - 1])
    ensures StripRight(t + post) == t
    decreases |post|
  {
    if post == [] {
      assert t + post == t;
    } else {
      var s := t + post;
      assert s[..|s| - 1] == t + post[..|post| - 1];
      StripRightSpaces(t, post[..|post| - 1]);
    }
  }

  /** `int()` ignores whitespace around the digits, as `int(message.text.strip())` relies on. */
  lemma PyIntOfPadded(pre: string, digits: string, post: string)
    requires forall k :: 0 <= k < |pre| ==> IsSpace(pre[k])
    requires forall k :: 0 <= k < |post| ==> IsSpace(post[k])
    requires IsDigits(digits)
    ensures PyInt(pre + digits + post) == Some(DigitsValue(digits))
  {
    assert !IsSpace(digits[0]) && !IsSpace(digits[|digits| - 1]);
    assert pre + digits + post == pre + (digits + post);
    StripLeftSpaces(pre, digits + post);
    StripRightSpaces(digits, post);
    PyIntOfDigits(digits);
    StripOfDigits(digits);
  }

  /** For instance, a number typed with a space before it and a newline after it. */
  lemma PyIntOfPaddedThirty()
    ensures PyInt(" 30\n") == Some(30)
  {
    var digits := "30";
    assert IsDigit(digits[0]) && IsDigit(digits[1]);
    assert DigitsValue(digits) == 30 by {
      assert digits[..1] == "3";
    }
    assert " 30\n" == " " + digits + "\n";
    PyIntOfPadded(" ", digits, "\n");
  }

  /** A word that starts with neither a sign nor a digit is not a Python integer. */
  lemma PyIntOfWord(s: string)
    requires |s| > 0 && !IsSpace(s[0]) && !IsSpace(s[|s| - 1])
    requires !IsDigit(s[0]) && s[0] != '-' && s[0] != '+'
    ensures PyInt(s) == None
  {
    StripOfTrimmed(s);
  }

  lemma IntBodyOfDigits(s: string)
    requires IsDigits(s)
    ensures IntBody(s) && RemoveUnderscores(s) == s
  {
  }

  lemma PyIntUnsigned(s: string)
    requires |s| > 0 && s[0] != '-' && s[0] != '+' && Strip(s) == s
    ensures PyInt(s) == UnsignedInt(s)
  {
    assert IntOfStripped(s) == UnsignedInt(s);
  }

  lemma UnsignedOfDigits(s: string)
    requires IsDigits(s)
    ensures UnsignedInt(s) == Some(DigitsValue(s))
  {
    IntBodyOfDigits(s);
  }

  lemma PyIntOfDigits(s: string)
    requires IsDigits(s)
    ensures PyInt(s) == Some(DigitsValue(s))
  {
    StripOfDigits(s);
    assert IsDigit(s[0]);
    PyIntUnsigned(s);
    UnsignedOfDigits(s);
  }

  /** `int(str(n)) == n`: the decimal rendering of a number parses back to it. */
  lemma PyIntOfNat(n: nat)
    ensures PyInt(NatToString(n)) == Some(n)
  {
    PyIntOfDigits(NatToString(n));
    NatToStringValue(n);
  }

  /** No rendered number contains the underscore the callback encodings split on. */
  lemma NoUnderscoreInNat(n: nat)
    ensures '_' !in NatToString(n)
  {
  }
}
