/** Decimal numerals: fmt's %d for naturals and strconv.Atoi on a 64-bit platform. */
module Numerals {
  import opened Wrappers

  const MAX_INT := 0x7FFF_FFFF_FFFF_FFFF
  const MIN_INT := -0x8000_0000_0000_0000

  predicate IsDigit(c: char) { '0' <= c <= '9' }

  function DigitChar(d: nat): char
    requires d < 10
  {
    ('0' as int + d) as char
  }

  function Itoa(n: nat): string {
    if n < 10 then [DigitChar(n)] else Itoa(n / 10) + [DigitChar(n % 10)]
  }

  // The value of a non-empty string of digits.
  function ParseDigits(s: string): Option<nat> {
    if s == "" || !IsDigit(s[|s| - 1]) then None
    else
      var d := s[|s| - 1] as int - '0' as int;
      if |s| == 1 then Some(d)
      else
        match ParseDigits(s[..|s| - 1])
        case None => None
        case Some(v) => Some(10 * v + d)
  }

  function InRange(v: int): Option<int> {
    if MIN_INT <= v <= MAX_INT then Some(v) else None
  }

  // An optional sign, then digits; out of range is an error.
  function Atoi(s: string): Option<int> {
    if s != "" && (s[0] == '+' || s[0] == '-') then
      match ParseDigits(s[1..])
      case None => None
      case Some(v) => InRange(if s[0] == '-' then 0 - v else v)
    else
      match ParseDigits(s)
      case None => None
      case Some(v) => InRange(v)
  }

  lemma {:induction false} DigitsRoundTrip(n: nat)
    ensures Itoa(n) != "" && IsDigit(Itoa(n)[0]) && ParseDigits(Itoa(n)) == Some(n)
  {
    if n >= 10 {
      DigitsRoundTrip(n / 10);
      assert Itoa(n)[..|Itoa(n)| - 1] == Itoa(n / 10);
    }
  }

  lemma AtoiRoundTrip(n: nat)
    requires n <= MAX_INT
    ensures Atoi(Itoa(n)) == Some(n)
  {
    DigitsRoundTrip(n);
  }

  function Zeros(k: nat): string { if k == 0 then "" else Zeros(k - 1) + "0" }

  // One more digit at the end.
  lemma ParseSnoc(front: string, d: nat)
    requires d < 10
    ensures ParseDigits(front + [DigitChar(d)]) ==
      if front == "" then Some(d)
      else match ParseDigits(front) case None => None case Some(v) => Some(10 * v + d)
  {
    var s := front + [DigitChar(d)];
    assert s[..|s| - 1] == front && s[|s| - 1] == DigitChar(d);
    assert IsDigit(DigitChar(d)) && DigitChar(d) as int - '0' as int == d;
  }

  lemma {:induction false} ZerosAreZero(k: nat)
    requires k > 0
    ensures Zeros(k) != "" && ParseDigits(Zeros(k)) == Some(0)
  {
    hide ParseDigits, DigitChar;
    ZeroIsZero();
    ParseSnoc(Zeros(k - 1), 0);
    if k > 1 { ZerosAreZero(k - 1); }
  }

  lemma ZeroIsZero()
    ensures [DigitChar(0)] == "0"
  {
  }

  lemma NoZeros()
    ensures Zeros(0) == ""
  {
  }

  // Leading zeros change nothing.
  lemma {:induction false} ZerosLead(k: nat, n: nat)
    ensures ParseDigits(Zeros(k) + Itoa(n)) == Some(n)
  {
    hide ParseDigits, DigitChar, Zeros;
    if n < 10 {
      ParseSnoc(Zeros(k), n);
      if k > 0 { ZerosAreZero(k); } else { NoZeros(); }
    } else {
      ZerosLead(k, n / 10);
      ParseSnoc(Zeros(k) + Itoa(n / 10), n % 10);
      assert Zeros(k) + Itoa(n) == Zeros(k) + Itoa(n / 10) + [DigitChar(n % 10)];
      assert Itoa(n / 10) != "";
    }
  }

  // Nothing but zeros and a numeral is read as a number.
  lemma {:induction false} OnlyNumeralsParse(s: string) returns (k: nat)
    requires ParseDigits(s).Some?
    ensures s == Zeros(k) + Itoa(ParseDigits(s).value)
  {
    k := 0;
    if |s| > 1 {
      var front, d := s[..|s| - 1], s[|s| - 1] as int - '0' as int;
      var j := OnlyNumeralsParse(front);
      k := OneMoreDigit(j, ParseDigits(front).value, d);
      assert s == front + [DigitChar(d)];
    }
  }

  lemma OneMoreDigit(j: nat, v: nat, d: nat) returns (k: nat)
    requires d < 10
    ensures Zeros(j) + Itoa(v) + [DigitChar(d)] == Zeros(k) + Itoa(10 * v + d)
  {
    if v == 0 {
      k := j + 1;
      assert Itoa(0) == "0" && Zeros(k) == Zeros(j) + "0";
    } else {
      k := j;
      assert Itoa(10 * v + d) == Itoa(v) + [DigitChar(d)];
    }
  }

  predicate Sign(s: string) { s == "" || s == "+" || s == "-" }

  function Signed(sign: string, n: nat): int { if sign == "-" then 0 - n else n }

  // A sign or none, zeros or none, and a numeral are read as what they say, unless that is out of range.
  lemma AtoiReads(sign: string, k: nat, n: nat)
    requires Sign(sign)
    ensures Atoi(sign + Zeros(k) + Itoa(n)) ==
      if MIN_INT <= Signed(sign, n) <= MAX_INT then Some(Signed(sign, n)) else None
  {
    hide Zeros, Itoa, ParseDigits;
    var digits := Zeros(k) + Itoa(n);
    ZerosLead(k, n);
    assert sign + Zeros(k) + Itoa(n) == sign + digits;
    if sign == "" {
      assert sign + digits == digits;
      StartsWithDigit(digits);
    } else {
      assert (sign + digits)[1..] == digits && (sign + digits)[0] == sign[0];
    }
  }

  lemma {:induction false} StartsWithDigit(s: string)
    requires ParseDigits(s).Some?
    ensures s != "" && IsDigit(s[0])
  {
    if |s| > 1 { StartsWithDigit(s[..|s| - 1]); }
  }

  // And nothing else is.
  lemma AtoiOnlyReads(s: string) returns (sign: string, k: nat, n: nat)
    requires Atoi(s).Some?
    ensures Sign(sign) && s == sign + Zeros(k) + Itoa(n) && Atoi(s).value == Signed(sign, n)
  {
    if s != "" && (s[0] == '+' || s[0] == '-') {
      sign := [s[0]];
      n := ParseDigits(s[1..]).value;
      k := OnlyNumeralsParse(s[1..]);
      assert s == [s[0]] + s[1..];
    } else {
      sign := "";
      n := ParseDigits(s).value;
      k := OnlyNumeralsParse(s);
    }
  }
}
