/** Decimal text: std::to_string (and operator<< on integers) one way,
    std::stoi, std::stoll and std::stoul the other. */
module Numerals {
  import opened Basics

  predicate IsDigit(c: char) {
    '0' <= c <= '9'
  }

  function DigitValue(c: char): (d: nat)
    requires IsDigit(c)
    ensures d < 10
  {
    c as int - '0' as int
  }

  function DigitChar(d: nat): (c: char)
    requires d < 10
    ensures IsDigit(c) && DigitValue(c) == d
  {
    (d + '0' as int) as char
  }

  predicate AllDigits(s: string) {
    forall i :: 0 <= i < |s| ==> IsDigit(s[i])
  }

  /** std::to_string of an unsigned integer. */
  function Decimal(n: nat): (s: string)
    ensures |s| > 0 && AllDigits(s)
    ensures n > 0 ==> s[0] != '0'
  {
    if n < 10 then [DigitChar(n)] else Decimal(n / 10) + [DigitChar(n % 10)]
  }

  /** std::to_string of a signed integer. */
  function DecimalInt(i: int): (s: string)
    ensures |s| > 0
  {
    if i < 0 then "-" + Decimal(-i) else Decimal(i)
  }

  /** The number a string of digits denotes; the empty string denotes 0. */
  function Value(s: string): nat
    requires AllDigits(s)
  {
    if s == "" then 0 else 10 * Value(s[..|s| - 1]) + DigitValue(s[|s| - 1])
  }

  lemma {:induction false} ValueOfDecimal(n: nat)
    ensures Value(Decimal(n)) == n
  {
    if n < 10 {
      assert Decimal(n)[..0] == "";
    } else {
      ValueOfDecimal(n / 10);
      assert Decimal(n)[..|Decimal(n)| - 1] == Decimal(n / 10);
    }
  }

  /** Cutting digits off the end never makes the number larger. */
  lemma {:induction false} ValueOfPrefix(s: string, n: nat)
    requires AllDigits(s) && n <= |s|
    ensures Value(s[..n]) <= Value(s)
    decreases |s|
  {
    if n < |s| {
      ValueOfPrefix(s[..|s| - 1], n);
      assert s[..|s| - 1][..n] == s[..n];
    } else {
      assert s[..n] == s;
    }
  }

  /** A nonempty string of digits with a nonzero first digit denotes at least 1. */
  lemma {:induction false} ValuePositive(s: string)
    requires AllDigits(s) && s != "" && s[0] != '0'
    ensures Value(s) >= 1
  {
    if |s| > 1 {
      ValuePositive(s[..|s| - 1]);
    } else {
      assert s[..0] == "";
    }
  }

  // ---- scanning -----------------------------------------------------------

  function SkipSpaces(s: string): (r: string) {
    if s != "" && IsSpace(s[0]) then SkipSpaces(s[1..]) else s
  }

  /** The longest prefix of digits. */
  function DigitRun(s: string): (r: string)
    ensures AllDigits(r) && r <= s
  {
    if s != "" && IsDigit(s[0]) then [s[0]] + DigitRun(s[1..]) else ""
  }

  datatype Scan = NoNumber | Number(negative: bool, magnitude: nat)

  /** What strtol and its relatives read in base 10: spaces, an optional sign,
      then at least one digit; anything after the digits is ignored. */
  function ScanInteger(s: string): Scan {
    var t := SkipSpaces(s);
    var signed := t != "" && (t[0] == '-' || t[0] == '+');
    var digits := DigitRun(if signed then t[1..] else t);
    if digits == "" then NoNumber else Number(signed && t[0] == '-', Value(digits))
  }

  function Signed(n: Scan): int
    requires n.Number?
  {
    var m: int := n.magnitude;
    if n.negative then -m else m
  }

  /** std::stoll; None is its invalid_argument or out_of_range. */
  function Stoll(s: string): (r: Option<int>)
    ensures r.Some? ==> IsInt64(r.value)
  {
    var n := ScanInteger(s);
    if n.Number? && IsInt64(Signed(n)) then Some(Signed(n)) else None
  }

  /** std::stoi. */
  function Stoi(s: string): (r: Option<int>)
    ensures r.Some? ==> INT32_MIN <= r.value <= INT32_MAX
  {
    var n := ScanInteger(s);
    if n.Number? && INT32_MIN <= Signed(n) <= INT32_MAX then Some(Signed(n)) else None
  }

  /** std::stoul on a 64-bit unsigned long: a minus sign negates modulo 2^64. */
  function Stoul(s: string): (r: Option<nat>)
    ensures r.Some? ==> r.value < TWO_64
  {
    var n := ScanInteger(s);
    if n.NoNumber? || n.magnitude >= TWO_64 then None
    else Some(if n.negative && n.magnitude > 0 then TWO_64 - n.magnitude else n.magnitude)
  }

  lemma {:induction false} DigitRunOfDigits(s: string)
    requires AllDigits(s)
    ensures DigitRun(s) == s
  {
    if s != "" {
      DigitRunOfDigits(s[1..]);
      assert s == [s[0]] + s[1..];
    }
  }

  lemma ScanDigits(s: string)
    requires AllDigits(s) && s != ""
    ensures ScanInteger(s) == Number(false, Value(s))
  {
    assert IsDigit(s[0]);
    DigitRunOfDigits(s);
  }

  lemma ScanNegative(s: string)
    requires AllDigits(s) && s != ""
    ensures ScanInteger("-" + s) == Number(true, Value(s))
  {
    var t := "-" + s;
    assert t[0] == '-' && t[1..] == s;
    DigitRunOfDigits(s);
  }

  /** Printing an int64 and reading it back is the identity. */
  lemma StollOfDecimalInt(i: int)
    requires IsInt64(i)
    ensures Stoll(DecimalInt(i)) == Some(i)
  {
    hide ScanInteger, Decimal, Value;
    if i < 0 {
      ValueOfDecimal(-i);
      ScanNegative(Decimal(-i));
    } else {
      ValueOfDecimal(i);
      ScanDigits(Decimal(i));
    }
  }

  lemma StoiOfDecimal(n: nat)
    requires n <= INT32_MAX
    ensures Stoi(Decimal(n)) == Some(n)
  {
    hide ScanInteger, Decimal, Value;
    ValueOfDecimal(n);
    ScanDigits(Decimal(n));
  }

  /** Reading back a cut-off size: it still parses and is no larger. */
  lemma StoulOfDecimalPrefix(n: nat, k: nat)
    requires n < TWO_64 && 0 < k <= |Decimal(n)|
    ensures Decimal(n)[..k] != "" && AllDigits(Decimal(n)[..k])
    ensures Stoul(Decimal(n)[..k]) == Some(Value(Decimal(n)[..k]))
    ensures Value(Decimal(n)[..k]) <= n
    ensures n > 0 ==> Value(Decimal(n)[..k]) > 0
    ensures k == |Decimal(n)| ==> Value(Decimal(n)[..k]) == n
  {
    hide ScanInteger, Decimal, Value;
    var p := Decimal(n)[..k];
    ValueOfDecimal(n);
    ValueOfPrefix(Decimal(n), k);
    ScanDigits(p);
    if n > 0 {
      ValuePositive(p);
    }
    if k == |Decimal(n)| {
      assert p == Decimal(n);
    }
  }

  lemma StoulOfDecimal(n: nat)
    requires n < TWO_64
    ensures Stoul(Decimal(n)) == Some(n)
  {
    StoulOfDecimalPrefix(n, |Decimal(n)|);
    assert Decimal(n)[..|Decimal(n)|] == Decimal(n);
  }

  lemma DecimalInjective(m: nat, n: nat)
    requires Decimal(m) == Decimal(n)
    ensures m == n
  {
    ValueOfDecimal(m);
    ValueOfDecimal(n);
  }

  // ---- what the parsers accept ----------------------------------------------------

  predicate AllSpaces(s: string) {
    forall i :: 0 <= i < |s| ==> IsSpace(s[i])
  }

  lemma {:induction false} SkipAllSpaces(spaces: string, s: string)
    requires AllSpaces(spaces) && (s != "" ==> !IsSpace(s[0]))
    ensures SkipSpaces(spaces + s) == s
  {
    if spaces == "" {
      assert spaces + s == s;
    } else {
      assert (spaces + s)[1..] == spaces[1..] + s;
      SkipAllSpaces(spaces[1..], s);
    }
  }

  lemma {:induction false} DigitRunStops(digits: string, rest: string)
    requires AllDigits(digits) && (rest != "" ==> !IsDigit(rest[0]))
    ensures DigitRun(digits + rest) == digits
  {
    if digits == "" {
      assert digits + rest == rest;
    } else {
      assert (digits + rest)[1..] == digits[1..] + rest && digits == [digits[0]] + digits[1..];
      DigitRunStops(digits[1..], rest);
    }
  }

  /** Blanks, a sign, digits: anything may follow them. Without a digit there is no number. */
  lemma ScanIs(spaces: string, sign: string, digits: string, rest: string)
    requires AllSpaces(spaces) && sign in {"", "-", "+"} && AllDigits(digits) && (rest != "" ==> !IsDigit(rest[0]))
    requires sign == "" && digits == "" && rest != "" ==> !IsSpace(rest[0]) && rest[0] != '-' && rest[0] != '+'
    ensures ScanInteger(spaces + (sign + (digits + rest)))
            == if digits == "" then NoNumber else Number(sign == "-", Value(digits))
  {
    hide Value;
    var t := sign + (digits + rest);
    DigitRunStops(digits, rest);
    assert sign != "" ==> t[0] == sign[0] && t[1..] == digits + rest;
    assert sign == "" ==> t == digits + rest;
    SkipAllSpaces(spaces, t);
  }

  /** `stoll`, `stoi` and `stoul` on such text: the number, if it is in their range; a
      minus sign makes `stoul` count down from 2^64. */
  lemma ParsersRead(spaces: string, sign: string, digits: string, rest: string)
    requires AllSpaces(spaces) && sign in {"", "-", "+"} && AllDigits(digits) && (rest != "" ==> !IsDigit(rest[0]))
    requires sign == "" && digits == "" && rest != "" ==> !IsSpace(rest[0]) && rest[0] != '-' && rest[0] != '+'
    ensures var s := spaces + (sign + (digits + rest));
            var n: int := if sign == "-" then -(Value(digits) as int) else Value(digits) as int;
            if digits == "" then Stoll(s).None? && Stoi(s).None? && Stoul(s).None?
            else
              && Stoll(s) == (if -0x8000_0000_0000_0000 <= n <= 0x7fff_ffff_ffff_ffff then Some(n) else None)
              && Stoi(s) == (if -0x8000_0000 <= n <= 0x7fff_ffff then Some(n) else None)
              && (Value(digits) >= 0x1_0000_0000_0000_0000 ==> Stoul(s).None?)
              && (Value(digits) < 0x1_0000_0000_0000_0000 ==> Stoul(s) == Some(n % 0x1_0000_0000_0000_0000))
  {
    hide ScanInteger, Value;
    ScanIs(spaces, sign, digits, rest);
  }
}
