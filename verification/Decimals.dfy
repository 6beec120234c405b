/** Decimal text: what `str` prints for an integer and what `int` accepts, over ASCII. */
module Decimals {
  import opened Wrappers

  predicate Space(c: char) {
    '\t' <= c <= '\r' || '\U{1c}' <= c <= ' '
  }

  function StripLeft(s: string): string {
    if s != [] && Space(s[0]) then StripLeft(s[1..]) else s
  }

  function StripRight(s: string): string {
    if s != [] && Space(s[|s| - 1]) then StripRight(s[..|s| - 1]) else s
  }

  function Strip(s: string): string {
    StripRight(StripLeft(s))
  }

  // ----- printing -----

  function Digit(d: nat): char
    requires d < 10
  {
    '0' + d as char
  }

  predicate IsDigit(c: char) {
    '0' <= c <= '9'
  }

  function Digits(n: nat): string {
    if n < 10 then [Digit(n)] else Digits(n / 10) + [Digit(n % 10)]
  }

  /** The canonical decimal form of an integer. */
  function Decimal(n: int): string {
    if n < 0 then "-" + Digits(-n) else Digits(n)
  }

  // ----- parsing -----

  /** Digits, with single underscores allowed between them. */
  function ParseDigits(s: string): Option<nat> {
    if s == [] || !IsDigit(s[|s| - 1]) then None
    else
      var d: nat := s[|s| - 1] as int - '0' as int;
      var rest := s[..|s| - 1];
      if rest == [] then Some(d)
      else
        var front := if rest[|rest| - 1] == '_' then rest[..|rest| - 1] else rest;
        match ParseDigits(front)
        case None => None
        case Some(v) => Some(10 * v + d)
  }

  function Signed(negative: bool, magnitude: int): int {
    if negative then -magnitude else magnitude
  }

  /** An optionally signed number surrounded by blanks. */
  function ParseInt(text: string): Option<int> {
    var s := Strip(text);
    if s != [] && (s[0] == '-' || s[0] == '+') then
      match ParseDigits(s[1..])
      case None => None
      case Some(v) => Some(Signed(s[0] == '-', v))
    else
      match ParseDigits(s)
      case None => None
      case Some(v) => Some(Signed(false, v))
  }

  // ----- round trip -----

  lemma {:induction false} DigitsAreDigits(n: nat)
    ensures Digits(n) != []
    ensures forall i :: 0 <= i < |Digits(n)| ==> IsDigit(Digits(n)[i])
  {
    if n >= 10 {
      DigitsAreDigits(n / 10);
    }
  }

  lemma {:induction false} ParseDigitsOfDigits(n: nat)
    ensures ParseDigits(Digits(n)) == Some(n)
  {
    DigitsAreDigits(n);
    if n >= 10 {
      DigitsAreDigits(n / 10);
      ParseDigitsOfDigits(n / 10);
      assert Digits(n)[..|Digits(n)| - 1] == Digits(n / 10);
    }
  }

  lemma SolidTextStripsToItself(s: string)
    requires s != [] && !Space(s[0]) && !Space(s[|s| - 1])
    ensures Strip(s) == s
  {
  }

  lemma DecimalIsSolid(n: int)
    ensures Decimal(n) != [] && Strip(Decimal(n)) == Decimal(n)
    ensures forall i :: 0 <= i < |Decimal(n)| ==> IsDigit(Decimal(n)[i]) || (i == 0 && n < 0 && Decimal(n)[i] == '-')
  {
    DigitsAreDigits(if n < 0 then -n else n);
    SolidTextStripsToItself(Decimal(n));
  }

  /** Parsing recovers every printed integer. */
  lemma ParseIntOfDecimal(n: int)
    ensures ParseInt(Decimal(n)) == Some(n)
  {
    DecimalIsSolid(n);
    ParseDigitsOfDigits(if n < 0 then -n else n);
    if n < 0 {
      assert Decimal(n)[1..] == Digits(-n);
    }
  }

  /** Two integers never print alike. */
  lemma DecimalIsInjective(a: int, b: int)
    requires Decimal(a) == Decimal(b)
    ensures a == b
  {
    ParseIntOfDecimal(a);
    ParseIntOfDecimal(b);
  }

  // ----- what else parses -----

  /** Digits with single underscores between them. */
  ghost predicate Numeral(s: string) {
    && s != [] && IsDigit(s[0]) && IsDigit(s[|s| - 1])
    && (forall i :: 0 <= i < |s| ==> IsDigit(s[i]) || s[i] == '_')
    && (forall i :: 0 <= i < |s| - 1 ==> IsDigit(s[i]) || IsDigit(s[i + 1]))
  }

  /** The number a numeral stands for. */
  ghost function ValueOf(s: string): int {
    if s == [] then 0
    else if s[|s| - 1] == '_' then ValueOf(s[..|s| - 1])
    else 10 * ValueOf(s[..|s| - 1]) + (s[|s| - 1] as int - '0' as int)
  }

  /** The part of a numeral before its last digit, without an underscore at its end. */
  function Front(s: string): string
    requires |s| >= 2
  {
    if s[|s| - 2] == '_' then s[..|s| - 2] else s[..|s| - 1]
  }

  lemma NumeralFront(s: string)
    requires |s| >= 2 && IsDigit(s[|s| - 1])
    ensures Numeral(s) <==> Numeral(Front(s))
    ensures s[|s| - 2] == '_' ==> s[..|s| - 1][..|s| - 2] == s[..|s| - 2]
  {
    var f := Front(s);
    if Numeral(s) {
      assert forall i :: 0 <= i < |f| ==> f[i] == s[i];
    }
    if Numeral(f) {
      forall i | 0 <= i < |s|
        ensures IsDigit(s[i]) || s[i] == '_'
      {
        assert i < |f| ==> s[i] == f[i];
      }
      forall i | 0 <= i < |s| - 1
        ensures IsDigit(s[i]) || IsDigit(s[i + 1])
      {
        assert i < |f| - 1 ==> IsDigit(f[i]) || IsDigit(f[i + 1]);
        assert f[|f| - 1] == s[|f| - 1];
      }
    }
  }

  lemma {:induction false} ParseDigitsIff(s: string)
    ensures ParseDigits(s).Some? <==> Numeral(s)
    ensures Numeral(s) ==> ParseDigits(s) == Some(ValueOf(s))
    decreases |s|
  {
    if |s| >= 2 && IsDigit(s[|s| - 1]) {
      NumeralFront(s);
      ParseDigitsIff(Front(s));
    }
  }

  /** A text without its leading and trailing blanks. */
  ghost predicate Trims(text: string, s: string) {
    && (s != [] ==> !Space(s[0]) && !Space(s[|s| - 1]))
    && exists i, j :: 0 <= i <= j <= |text| && IsTrimmed(text, s, i, j)
  }

  ghost predicate IsTrimmed(text: string, s: string, i: nat, j: nat)
    requires i <= j <= |text|
  {
    && s == text[i..j]
    && (forall k :: 0 <= k < i ==> Space(text[k]))
    && (forall k :: j <= k < |text| ==> Space(text[k]))
  }

  lemma {:induction false} TrimsLeft(s: string) returns (i: nat)
    ensures i <= |s| && StripLeft(s) == s[i..] && forall k :: 0 <= k < i ==> Space(s[k])
    ensures StripLeft(s) != [] ==> !Space(StripLeft(s)[0])
  {
    i := 0;
    if s != [] && Space(s[0]) {
      var k := TrimsLeft(s[1..]);
      assert forall m :: 1 <= m < k + 1 ==> s[m] == s[1..][m - 1];
      i := k + 1;
      assert s[1..][k..] == s[i..];
    }
  }

  lemma {:induction false} TrimsRight(s: string) returns (j: nat)
    ensures j <= |s| && StripRight(s) == s[..j] && forall k :: j <= k < |s| ==> Space(s[k])
    ensures StripRight(s) != [] ==> !Space(StripRight(s)[|StripRight(s)| - 1])
  {
    j := |s|;
    if s != [] && Space(s[|s| - 1]) {
      j := TrimsRight(s[..|s| - 1]);
      assert s[..|s| - 1][..j] == s[..j];
    }
  }

  lemma StripTrims(text: string)
    ensures Trims(text, Strip(text))
  {
    var i := TrimsLeft(text);
    var j := TrimsRight(text[i..]);
    assert text[i..][..j] == text[i..i + j];
    assert IsTrimmed(text, Strip(text), i, i + j) by {
      forall k | i + j <= k < |text|
        ensures Space(text[k])
      {
        assert text[k] == text[i..][k - i];
      }
    }
  }

  /** What is read as an integer, exactly: a numeral with at most one sign, between blanks. */
  lemma ParseIntIff(text: string)
    ensures Trims(text, Strip(text))
    ensures var s := Strip(text);
      var signed := s != [] && (s[0] == '-' || s[0] == '+');
      var digits := if signed then s[1..] else s;
      && (ParseInt(text).Some? <==> Numeral(digits))
      && (Numeral(digits) ==>
            ParseInt(text).value == if signed && s[0] == '-' then -ValueOf(digits) else ValueOf(digits))
  {
    StripTrims(text);
    var s := Strip(text);
    ParseDigitsIff(s);
    if s != [] {
      ParseDigitsIff(s[1..]);
    }
  }
}
