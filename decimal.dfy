/**
 * Decimal text as the two programs read and write it: a simplified `atoi`,
 * `printf("%d")`, and `strtoul(s, &end, 10)` with a 32-bit `unsigned long`
 * (the ARM target the programs are built for).
 */
module Decimal {
  import opened CString

  /** ULONG_MAX of a 32-bit `unsigned long`. */
  const ULongMax: nat := 0xFFFF_FFFF

  predicate IsDigit(c: char) {
    '0' <= c <= '9'
  }

  function DigitValue(c: char): (d: nat)
    requires IsDigit(c)
    ensures d < 10
  {
    c as int - '0' as int
  }

  function DigitChar(d: nat): (c: char)
    requires d < 10
    ensures IsDigit(c) && DigitValue(c) == d
  {
    ('0' as int + d) as char
  }

  predicate AllDigits(s: seq<char>) {
    forall k :: 0 <= k < |s| ==> IsDigit(s[k])
  }

  /** The number a string of decimal digits denotes. */
  function Value(s: seq<char>): nat
    requires AllDigits(s)
  {
    if s == [] then 0 else Value(s[..|s| - 1]) * 10 + DigitValue(s[|s| - 1])
  }

  /** The number of leading decimal digits of `s`. */
  function DigitSpan(s: seq<char>): (n: nat)
    ensures n <= |s| && AllDigits(s[..n])
    ensures n < |s| ==> !IsDigit(s[n])
  {
    if s != [] && IsDigit(s[0]) then
      var n := 1 + DigitSpan(s[1..]);
      assert forall k :: 1 <= k < n ==> s[..n][k] == s[1..][..n - 1][k - 1];
      n
    else 0
  }

  /** The number of leading `isspace` characters of `s`. */
  function SpaceSpan(s: seq<char>): (n: nat)
    ensures n <= |s|
    ensures forall k :: 0 <= k < n ==> IsSpace(s[k])
    ensures n < |s| ==> !IsSpace(s[n])
  {
    if s != [] && IsSpace(s[0]) then 1 + SpaceSpan(s[1..]) else 0
  }

  /** The decimal digits of `n`, most significant first, with no leading zero. */
  function FormatNat(n: nat): (s: seq<char>)
    ensures s != [] && AllDigits(s)
  {
    if n < 10 then [DigitChar(n)] else FormatNat(n / 10) + [DigitChar(n % 10)]
  }

  /** `printf("%d", v)`. */
  function FormatInt(v: int): (s: seq<char>)
    ensures s != [] && '\0' !in s
  {
    var s := if v < 0 then "-" + FormatNat(-v) else FormatNat(v);
    assert forall k :: 0 <= k < |s| ==> s[k] != '\0' by {
      var digits := FormatNat(if v < 0 then -v else v);
      assert forall k :: 0 <= k < |digits| ==> IsDigit(digits[k]);
    }
    s
  }

  /**
   * `atoi`, simplified: leading whitespace, an optional sign, then the
   * longest run of digits; 0 when there are none. The range of `int` is not
   * modelled.
   */
  function Atoi(s: seq<char>): (r: int)
    ensures s != [] && AllDigits(s) ==> r == Value(s)
  {
    assert s != [] && AllDigits(s) ==> SpaceSpan(s) == 0 && DigitSpan(s) == |s| by {
      if s != [] && AllDigits(s) {
        assert IsDigit(s[0]) && !IsSpace(s[0]);
      }
    }
    var t := s[SpaceSpan(s)..];
    var negative := t != [] && t[0] == '-';
    var u := if t != [] && (t[0] == '-' || t[0] == '+') then t[1..] else t;
    var magnitude: int := Value(u[..DigitSpan(u)]);
    assert s != [] && AllDigits(s) ==> t == s && u == s && u[..DigitSpan(u)] == s;
    if negative then -magnitude else magnitude
  }

  lemma {:induction false} ValueOfFormatNat(n: nat)
    ensures Value(FormatNat(n)) == n
  {
    var s := FormatNat(n);
    if n >= 10 {
      ValueOfFormatNat(n / 10);
      assert s[..|s| - 1] == FormatNat(n / 10);
    }
  }

  /** What `printf("%d")` writes, `atoi` reads back. */
  lemma AtoiFormatInt(v: int)
    ensures Atoi(FormatInt(v)) == v
  {
    var s := FormatInt(v);
    var digits := FormatNat(if v < 0 then -v else v);
    assert !IsSpace(s[0]);
    assert SpaceSpan(s) == 0;
    assert s[0..] == s;
    var u := if v < 0 then s[1..] else s;
    assert u == digits;
    assert DigitSpan(u) == |u|;
    assert u[..|u|] == u;
    ValueOfFormatNat(if v < 0 then -v else v);
  }

  /** The result of `strtoul(s, &end, 10)`: its value, and `end` as an offset into `s`. */
  datatype Conversion = Conversion(value: nat, end: nat)

  /**
   * `strtoul(s, &end, 10)`: skips leading whitespace, takes an optional sign
   * and then the longest run of digits. With no digits, `end` is the start of
   * `s` and the value 0. A value above ULONG_MAX gives ULONG_MAX; a minus sign
   * negates the value modulo ULONG_MAX + 1.
   */
  function StrToUL(s: seq<char>): (c: Conversion)
    ensures c.value <= ULongMax && c.end <= |s|
  {
    var lead := SpaceSpan(s);
    var t := s[lead..];
    var signed := t != [] && (t[0] == '-' || t[0] == '+');
    var u := if signed then t[1..] else t;
    var n := DigitSpan(u);
    if n == 0 then Conversion(0, 0)
    else
      var v := Value(u[..n]);
      var end := lead + (if signed then 1 else 0) + n;
      if v > ULongMax then Conversion(ULongMax, end)
      else if signed && t[0] == '-' then Conversion((ULongMax + 1 - v) % (ULongMax + 1), end)
      else Conversion(v, end)
  }

  /** When `strtoul` consumes anything, it stops right after a digit. */
  lemma StrToULEndsAfterDigit(s: seq<char>)
    ensures StrToUL(s).end != 0 ==> IsDigit(s[StrToUL(s).end - 1])
  {
    var lead := SpaceSpan(s);
    var t := s[lead..];
    var signed := t != [] && (t[0] == '-' || t[0] == '+');
    var u := if signed then t[1..] else t;
    var n := DigitSpan(u);
    if n != 0 {
      var off := lead + (if signed then 1 else 0);
      assert u[n - 1] == s[off + n - 1];
      assert u[..n][n - 1] == u[n - 1];
    }
  }

  /** On a plain string of digits, `strtoul` consumes it all and yields the number it denotes. */
  lemma StrToULOfDigits(s: seq<char>)
    requires s != [] && AllDigits(s)
    ensures Value(s) <= ULongMax ==> StrToUL(s) == Conversion(Value(s), |s|)
    ensures Value(s) > ULongMax ==> StrToUL(s) == Conversion(ULongMax, |s|)
  {
    assert !IsSpace(s[0]);
    assert SpaceSpan(s) == 0;
    assert s[0..] == s;
    assert DigitSpan(s) == |s|;
    assert s[..|s|] == s;
  }

  /** Leading whitespace is skipped: `SpaceSpan` of `w + t` is `|w|` plus that of `t`. */
  lemma {:induction false} SpaceSpanOfSpaces(w: seq<char>, t: seq<char>)
    requires forall k :: 0 <= k < |w| ==> IsSpace(w[k])
    ensures SpaceSpan(w + t) == |w| + SpaceSpan(t)
  {
    if w == [] {
      assert w + t == t;
    } else {
      assert (w + t)[0] == w[0];
      assert (w + t)[1..] == w[1..] + t;
      SpaceSpanOfSpaces(w[1..], t);
    }
  }

  /** Whitespace before a string `strtoul` does not skip in it only moves the end of the conversion. */
  lemma StrToULSkipsSpace(w: seq<char>, t: seq<char>)
    requires forall k :: 0 <= k < |w| ==> IsSpace(w[k])
    requires SpaceSpan(t) == 0
    ensures StrToUL(w + t).value == StrToUL(t).value
    ensures StrToUL(w + t).end == if StrToUL(t).end == 0 then 0 else |w| + StrToUL(t).end
  {
    SpaceSpanOfSpaces(w, t);
    assert (w + t)[|w|..] == t;
    assert t[0..] == t;
  }

  /** A '+' before digits only moves the end of the conversion. */
  lemma StrToULSkipsPlus(d: seq<char>)
    requires d == [] || IsDigit(d[0])
    ensures StrToUL("+" + d).value == StrToUL(d).value
    ensures StrToUL("+" + d).end == if StrToUL(d).end == 0 then 0 else 1 + StrToUL(d).end
  {
    assert SpaceSpan("+" + d) == 0;
    assert ("+" + d)[0..] == "+" + d;
    assert ("+" + d)[1..] == d;
    assert d != [] ==> !IsSpace(d[0]);
    assert SpaceSpan(d) == 0;
    assert d[0..] == d;
  }

  /**
   * Whitespace and a '+' before the digits do not change what `strtoul`
   * converts; they only move the end of the conversion.
   */
  lemma StrToULSkipsSpaceAndPlus(w: seq<char>, sg: seq<char>, d: seq<char>)
    requires forall k :: 0 <= k < |w| ==> IsSpace(w[k])
    requires sg == "" || sg == "+"
    requires d == [] || IsDigit(d[0])
    ensures StrToUL(w + sg + d).value == StrToUL(d).value
    ensures StrToUL(d).end == 0 ==> StrToUL(w + sg + d).end == 0
    ensures StrToUL(d).end != 0 ==> StrToUL(w + sg + d).end == |w| + |sg| + StrToUL(d).end
  {
    assert w + sg + d == w + (sg + d);
    assert d != [] ==> !IsSpace(d[0]);
    if sg == "+" {
      assert !IsSpace((sg + d)[0]);
      StrToULSkipsPlus(d);
    } else {
      assert sg + d == d;
    }
    StrToULSkipsSpace(w, sg + d);
  }
}
