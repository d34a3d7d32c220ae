/**
 * Decimal integers as Go's standard library reads and writes them:
 * `strconv.Atoi` (used to parse the `userID` query value) and the `%d` verb of
 * `fmt.Sprintf` (used to print the status code in error messages).
 * The platform `int` is taken to be 64 bits wide.
 */
module Strconv {
  import opened Wrappers

  const MinInt: int := -0x8000_0000_0000_0000
  const MaxInt: int := 0x7fff_ffff_ffff_ffff

  predicate IsDigit(c: char) { '0' <= c <= '9' }

  predicate AllDigits(s: string) { forall i :: 0 <= i < |s| ==> IsDigit(s[i]) }

  /** The value of a run of decimal digits, most significant digit first. */
  function DigitsValue(s: string): nat
    requires AllDigits(s)
  {
    if s == [] then 0 else DigitsValue(s[..|s| - 1]) * 10 + (s[|s| - 1] as int - '0' as int)
  }

  /** The part of `s` after an optional leading '+' or '-'. */
  function Unsigned(s: string): string
  {
    if |s| > 0 && (s[0] == '+' || s[0] == '-') then s[1..] else s
  }

  /**
   * strconv.Atoi with base 10: an optional sign, then one or more digits and
   * nothing else (no underscores, no spaces), and a value that fits in `int`.
   * Every other input is an error (`None`).
   */
  function Atoi(s: string): (r: Option<int>)
    ensures r.Some? ==> MinInt <= r.value <= MaxInt
    ensures r.Some? ==> |s| > 0 && (IsDigit(s[0]) || s[0] == '+' || s[0] == '-')
    ensures r.Some? ==> |s| > 1 || IsDigit(s[0])
    ensures r.Some? ==> forall i :: 0 < i < |s| ==> IsDigit(s[i])
    ensures r.Some? && r.value < 0 ==> s[0] == '-'
    ensures r.Some? && s[0] == '-' ==> r.value <= 0
    ensures s != [] && AllDigits(s) ==> (r.None? <==> DigitsValue(s) > MaxInt)
    ensures r.Some? ==> AllDigits(Unsigned(s)) && DigitsValue(Unsigned(s)) == if r.value < 0 then -r.value else r.value
    ensures Unsigned(s) != [] && AllDigits(Unsigned(s)) ==>
      (r.Some? <==> DigitsValue(Unsigned(s)) <= if s[0] == '-' then -MinInt else MaxInt)
  {
    var digits := Unsigned(s);
    if digits == [] || !AllDigits(digits) then None
    else
      var v: int := if s[0] == '-' then 0 - DigitsValue(digits) as int else DigitsValue(digits);
      if MinInt <= v <= MaxInt then Some(v) else None
  }

  function Digit(d: nat): (c: char)
    requires d < 10
    ensures IsDigit(c) && c as int - '0' as int == d
  {
    ('0' as int + d) as char
  }

  /** The shortest decimal spelling of `n`: no sign and no leading zero. */
  function NatDigits(n: nat): (s: string)
    ensures |s| >= 1 && AllDigits(s)
    ensures s[0] == '0' <==> n == 0
  {
    if n < 10 then [Digit(n)] else NatDigits(n / 10) + [Digit(n % 10)]
  }

  /** The `%d` verb: a '-' for negative values, then the digits of the magnitude. */
  function FormatInt(n: int): (s: string)
    ensures |s| >= 1
    ensures n >= 0 ==> AllDigits(s)
    ensures n < 0 ==> s[0] == '-' && AllDigits(s[1..])
  {
    if n < 0 then "-" + NatDigits(-n) else NatDigits(n)
  }

  lemma {:induction false} NatDigitsValue(n: nat)
    ensures DigitsValue(NatDigits(n)) == n
  {
    if n >= 10 {
      NatDigitsValue(n / 10);
      var s := NatDigits(n);
      assert s[..|s| - 1] == NatDigits(n / 10);
    }
  }

  /** Atoi reads back every `int` that `%d` prints. */
  lemma AtoiFormatInt(n: int)
    requires MinInt <= n <= MaxInt
    ensures Atoi(FormatInt(n)) == Some(n)
  {
    var s := FormatInt(n);
    if n < 0 {
      var d := NatDigits(-n);
      NatDigitsValue(-n);
      assert s == "-" + d;
      assert s[0] == '-' && s[1..] == d;
      assert Unsigned(s) == d;
    } else {
      var d := NatDigits(n);
      NatDigitsValue(n);
      assert s == d && IsDigit(s[0]);
      assert Unsigned(s) == d;
    }
  }

  /** A string of '0' characters only. */
  predicate AllZeros(z: string) { forall i :: 0 <= i < |z| ==> z[i] == '0' }

  /** Leading zeros do not change the value of a run of digits. */
  lemma {:induction false} LeadingZeros(z: string, d: string)
    requires AllZeros(z) && AllDigits(d)
    ensures AllDigits(z + d) && DigitsValue(z + d) == DigitsValue(d)
  {
    assert AllDigits(z + d) by {
      forall i | 0 <= i < |z + d| ensures IsDigit((z + d)[i]) {
        if i < |z| { assert (z + d)[i] == z[i]; } else { assert (z + d)[i] == d[i - |z|]; }
      }
    }
    if d == [] {
      assert z + d == z;
      if z != [] {
        LeadingZeros(z[..|z| - 1], []);
        assert z[..|z| - 1] + [] == z[..|z| - 1];
      }
    } else {
      LeadingZeros(z, d[..|d| - 1]);
      assert (z + d)[..|z + d| - 1] == z + d[..|d| - 1];
    }
  }

  /**
   * Every spelling Atoi accepts for an in-range n: no sign or '+' when n is
   * not negative, '-' when it is not positive, then any number of leading
   * zeros, then the decimal digits of |n|.
   */
  lemma AtoiSpellings(n: int, sign: string, zeros: string)
    requires MinInt <= n <= MaxInt && AllZeros(zeros)
    requires ((sign == "" || sign == "+") && n >= 0) || (sign == "-" && n <= 0)
    ensures Atoi(sign + zeros + NatDigits(if n < 0 then -n else n)) == Some(n)
  {
    var m := if n < 0 then -n else n;
    var d := NatDigits(m);
    var s := sign + zeros + d;
    NatDigitsValue(m);
    LeadingZeros(zeros, d);
    assert DigitsValue(zeros + d) == m;
    if sign == "" {
      assert s == zeros + d;
      assert s[0] != '+' && s[0] != '-' by {
        if zeros == [] { assert s[0] == d[0] && IsDigit(d[0]); } else { assert s[0] == zeros[0]; }
      }
      assert Unsigned(s) == zeros + d;
    } else {
      assert s == sign + (zeros + d) && s[0] == sign[0];
      assert Unsigned(s) == zeros + d;
    }
  }

  /** Zero padding and an explicit '+' are accepted, as Go's Atoi accepts them. */
  lemma AtoiPaddedExamples()
    ensures Atoi("0123") == Some(123) && Atoi("+5") == Some(5) && Atoi("-0") == Some(0)
  {
    assert NatDigits(123) == "123" by {
      assert NatDigits(12) == NatDigits(1) + [Digit(2)];
    }
    AtoiSpellings(123, "", "0");
    assert "" + "0" + "123" == "0123";
    AtoiSpellings(5, "+", "");
    assert "+" + "" + NatDigits(5) == "+5";
    AtoiSpellings(0, "-", "");
    assert "-" + "" + NatDigits(0) == "-0";
  }

  /** Every three-digit value, which is every HTTP status code, prints as three digits. */
  lemma ThreeDigits(n: int)
    requires 100 <= n <= 999
    ensures |FormatInt(n)| == 3
  {
    assert |NatDigits(n / 100)| == 1;
    assert NatDigits(n / 10) == NatDigits(n / 10 / 10) + [Digit(n / 10 % 10)];
  }

  /** The inputs that the handler's own test feeds to the parser. */
  lemma AtoiExamples()
    ensures Atoi("123") == Some(123)
    ensures Atoi("+7") == Some(7) && Atoi("-007") == Some(-7)
    ensures Atoi("") == None && Atoi("+") == None && Atoi("-") == None
    ensures Atoi("12a") == None && Atoi(" 1") == None && Atoi("1_000") == None
  {
    assert DigitsValue("1") == 1 && DigitsValue("12") == 12 && DigitsValue("123") == 123 by {
      assert "123"[..2] == "12" && "12"[..1] == "1" && "1"[..0] == "";
    }
    assert DigitsValue("7") == 7 && DigitsValue("007") == 7 by {
      assert "007"[..2] == "00" && "00"[..1] == "0" && "0"[..0] == "" && "7"[..0] == "";
    }
    assert !IsDigit('a') && !IsDigit(' ') && !IsDigit('_');
    assert "12a"[2] == 'a' && " 1"[0] == ' ' && "1_000"[1] == '_';
  }
}
