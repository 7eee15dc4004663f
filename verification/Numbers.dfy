/** 64-bit decimal numbers as text: strconv.FormatInt, ParseInt and Atoi in base ten. */
module Numbers {
  import opened Text

  datatype Parsed = Number(value: int) | NotANumber

  const LIMIT := 0x8000_0000_0000_0000

  predicate InInt64(n: int) {
    -LIMIT <= n < LIMIT
  }

  /** Two's complement: the int64 that n wraps around to. */
  function Wrap(n: int): (r: int)
    ensures InInt64(r) && (InInt64(n) ==> r == n)
  {
    (n + LIMIT) % (2 * LIMIT) - LIMIT
  }

  function FormatInt(n: int): (s: string)
    ensures s != "" && '.' !in s
  {
    if n < 0 then "-" + Decimal(-n) else Decimal(n)
  }

  predicate IsDigits(s: string) {
    forall i | 0 <= i < |s| :: '0' <= s[i] <= '9'
  }

  function Value(s: string): nat
    requires IsDigits(s)
  {
    if s == "" then 0 else 10 * Value(s[..|s| - 1]) + (s[|s| - 1] as int - '0' as int)
  }

  function ParseInt(s: string): (r: Parsed)
    ensures r.Number? ==> InInt64(r.value)
  {
    var signed := s != "" && (s[0] == '+' || s[0] == '-');
    var digits := if signed then s[1..] else s;
    if digits == "" || !IsDigits(digits) then NotANumber
    else
      var sign := if signed && s[0] == '-' then -1 else 1;
      var n := sign * Value(digits);
      if InInt64(n) then Number(n) else NotANumber
  }

  lemma {:induction false} ValueOfDecimal(n: nat)
    ensures IsDigits(Decimal(n)) && Value(Decimal(n)) == n
  {
    if n >= 10 {
      ValueOfDecimal(n / 10);
      assert Decimal(n)[..|Decimal(n)| - 1] == Decimal(n / 10);
    }
    DigitValue(n % 10);
  }

  /** Numbers are printed without leading zeros, and negative ones with a minus in front. */
  lemma {:induction false} FormatIsPlain(n: int)
    ensures var s := FormatInt(n);
      && (n < 0 ==> s[0] == '-' && s[1..] == FormatInt(-n))
      && (n >= 0 ==> IsDigits(s) && Value(s) == n && (s[0] == '0' ==> s == "0"))
    decreases if n < 0 then 1 - n else n
  {
    if n >= 0 {
      ValueOfDecimal(n);
      if n >= 10 {
        FormatIsPlain(n / 10);
        assert Decimal(n) == Decimal(n / 10) + [Digit(n % 10)];
      }
      DigitValue(n % 10);
    }
  }

  lemma DigitValue(d: nat)
    requires d < 10
    ensures Digit(d) as int == '0' as int + d
  {
  }

  /** Reading a printed number gives it back. */
  lemma ParseOfFormat(n: int)
    requires InInt64(n)
    ensures ParseInt(FormatInt(n)) == Number(n)
  {
    hide Decimal, Value;
    if n < 0 {
      ValueOfDecimal(-n);
      assert FormatInt(n)[1..] == Decimal(-n);
    } else {
      ValueOfDecimal(n);
      assert Decimal(n)[0] in Decimal(n);
    }
  }

  /** What is read as a number: digits with at most one sign in front, within 64 bits. */
  lemma ParseMeans(s: string)
    ensures ParseInt(s).Number? <==>
            || (s != "" && IsDigits(s) && Value(s) < 0x8000_0000_0000_0000)
            || (|s| > 1 && s[0] == '+' && IsDigits(s[1..]) && Value(s[1..]) < 0x8000_0000_0000_0000)
            || (|s| > 1 && s[0] == '-' && IsDigits(s[1..]) && Value(s[1..]) <= 0x8000_0000_0000_0000)
    ensures ParseInt(s).Number? ==>
              ParseInt(s).value == if s[0] == '-' then -(Value(s[1..]) as int) else if s[0] == '+' then Value(s[1..]) else Value(s)
  {
    hide Value;
  }

  lemma {:induction false} ValueSnoc(s: string, d: nat)
    requires IsDigits(s) && d < 10
    ensures Value("") == 0 && IsDigits(s + [Digit(d)]) && Value(s + [Digit(d)]) == 10 * Value(s) + d
  {
    DigitValue(d);
    assert (s + [Digit(d)])[..|s|] == s;
  }

  lemma FormatInjective(m: int, n: int)
    requires FormatInt(m) == FormatInt(n)
    ensures m == n
  {
    hide Decimal, Value;
    assert forall k: int :: FormatInt(k)[0] == '-' <==> k < 0;
    if m < 0 && n < 0 {
      assert FormatInt(m)[1..] == Decimal(-m) && FormatInt(n)[1..] == Decimal(-n);
      ValueOfDecimal(-m);
      ValueOfDecimal(-n);
    } else if m >= 0 && n >= 0 {
      ValueOfDecimal(m);
      ValueOfDecimal(n);
    }
  }
}
