/** The two JDK string operations the name server relies on: `String.equalsIgnoreCase`
    (property-name matching) and `Integer.parseInt` (the override port), together with
    `Integer.toString`, the decimal form `parseInt` inverts. */
module Text {
  import opened Wrappers

  const MinInt32: int := -0x8000_0000
  const MaxInt32: int := 0x7FFF_FFFF

  // ---------------------------------------------------------------------------
  // equalsIgnoreCase

  /** `Character.toUpperCase`, restricted to the ASCII letters. */
  function AsciiUpper(c: char): char {
    if 'a' <= c <= 'z' then (c as int - 32) as char else c
  }

  /** Two characters are equal ignoring case when they are equal or their upper-case forms are. */
  predicate CharEqualsIgnoreCase(a: char, b: char) {
    a == b || AsciiUpper(a) == AsciiUpper(b)
  }

  /** `String.toUpperCase`, restricted to the ASCII letters. */
  function UpperCase(s: string): (r: string)
    ensures |r| == |s| && forall i :: 0 <= i < |s| ==> r[i] == AsciiUpper(s[i])
  {
    seq(|s|, i requires 0 <= i < |s| => AsciiUpper(s[i]))
  }

  /** `String.equalsIgnoreCase`: same length and equal ignoring case at every position, which
      is the same as having the same upper-case form. */
  function EqualsIgnoreCase(a: string, b: string): (r: bool)
    ensures r <==> UpperCase(a) == UpperCase(b)
  {
    |a| == |b| && forall i :: 0 <= i < |a| ==> CharEqualsIgnoreCase(a[i], b[i])
  }

  // ---------------------------------------------------------------------------
  // Integer.parseInt / Integer.toString

  predicate IsDigit(c: char) {
    '0' <= c <= '9'
  }

  predicate AllDigits(s: string) {
    forall i :: 0 <= i < |s| ==> IsDigit(s[i])
  }

  function DigitValue(c: char): (d: nat)
    requires IsDigit(c)
    ensures d < 10
  {
    c as int - '0' as int
  }

  function DigitChar(d: nat): (c: char)
    requires d < 10
    ensures IsDigit(c) && DigitValue(c) == d
  {
    (d + '0' as int) as char
  }

  /** The number a string of decimal digits denotes, most significant digit first. */
  function DigitsValue(s: string): nat
    requires AllDigits(s)
    decreases |s|
  {
    if s == [] then 0 else DigitsValue(s[..|s| - 1]) * 10 + DigitValue(s[|s| - 1])
  }

  /** The digits of a numeral: what follows its sign, if it has one. */
  function NumeralDigits(s: string): string
    requires |s| > 0
  {
    if s[0] == '-' || s[0] == '+' then s[1..] else s
  }

  /** `Integer.parseInt(s)` in radix 10: an optional '-' or '+', then one or more digits,
      denoting a value in the 32-bit range. `None` stands for the `NumberFormatException`
      thrown for every other string (empty, a sign alone, any other character, overflow). */
  function ParseInt(s: string): (r: Option<int>)
    ensures r.Some? ==> MinInt32 <= r.value <= MaxInt32
    ensures r.Some? ==> |s| > 0 && |NumeralDigits(s)| > 0 && AllDigits(NumeralDigits(s))
    ensures r.Some? && s[0] == '-' ==> r.value == -(DigitsValue(NumeralDigits(s)) as int)
    ensures r.Some? && s[0] != '-' ==> r.value == DigitsValue(NumeralDigits(s))
  {
    if |s| == 0 then None
    else
      var digits := NumeralDigits(s);
      if digits == [] || !AllDigits(digits) then None
      else
        var v: int := if s[0] == '-' then -(DigitsValue(digits) as int) else DigitsValue(digits);
        if MinInt32 <= v <= MaxInt32 then Some(v) else None
  }

  /** The decimal digits of `n`, without leading zeros. */
  function DecimalDigits(n: nat): (r: string)
    ensures |r| > 0 && AllDigits(r)
    ensures |r| > 1 ==> r[0] != '0'
    decreases n
  {
    if n < 10 then [DigitChar(n)] else DecimalDigits(n / 10) + [DigitChar(n % 10)]
  }

  /** `Integer.toString(n)`. */
  function IntToString(n: int): string {
    if n < 0 then "-" + DecimalDigits(-n) else DecimalDigits(n)
  }

  lemma {:induction false} DigitsValueOfDecimalDigits(n: nat)
    ensures DigitsValue(DecimalDigits(n)) == n
    decreases n
  {
    if n >= 10 {
      var prefix := DecimalDigits(n / 10);
      var s := prefix + [DigitChar(n % 10)];
      assert s[..|s| - 1] == prefix;
      DigitsValueOfDecimalDigits(n / 10);
    }
  }

  /** `k` zero digits. */
  function Zeros(k: nat): (r: string)
    ensures |r| == k && AllDigits(r)
  {
    seq(k, _ => '0')
  }

  lemma {:induction false} DigitsValueOfZeros(k: nat)
    ensures DigitsValue(Zeros(k)) == 0
    decreases k
  {
    if k > 0 {
      assert Zeros(k)[..k - 1] == Zeros(k - 1);
      DigitsValueOfZeros(k - 1);
    }
  }

  /** Leading zeros do not change the value of a digit string. */
  lemma {:induction false} DigitsValueIgnoresLeadingZeros(k: nat, d: string)
    requires AllDigits(d)
    ensures AllDigits(Zeros(k) + d) && DigitsValue(Zeros(k) + d) == DigitsValue(d)
    decreases |d|
  {
    var s := Zeros(k) + d;
    assert forall i :: 0 <= i < |s| ==> IsDigit(s[i]) by {
      forall i | 0 <= i < |s| ensures IsDigit(s[i]) {
        if i >= k { assert s[i] == d[i - k]; }
      }
    }
    if d == [] {
      assert s == Zeros(k);
      DigitsValueOfZeros(k);
    } else {
      var n := |d| - 1;
      assert s[..|s| - 1] == Zeros(k) + d[..n];
      assert s[|s| - 1] == d[n];
      DigitsValueIgnoresLeadingZeros(k, d[..n]);
    }
  }

  /** A sign in front of digits is what `NumeralDigits` strips. */
  lemma NumeralDigitsOfSigned(sign: string, digits: string)
    requires sign == "" || sign == "+" || sign == "-"
    requires |digits| > 0 && IsDigit(digits[0])
    ensures NumeralDigits(sign + digits) == digits
    ensures (sign + digits)[0] == '-' <==> sign == "-"
  {
    if sign == "" {
      assert sign + digits == digits;
    } else {
      assert (sign + digits)[1..] == digits;
    }
  }

  /** Every numeral is accepted exactly when its value is in the 32-bit range: an optional
      sign, any number of leading zeros and then the decimal digits of `n` read as plus or
      minus `n`, and beyond 32 bits they are a `NumberFormatException`. */
  lemma ParseIntOfNumeral(sign: string, k: nat, n: nat)
    requires sign == "" || sign == "+" || sign == "-"
    ensures var v: int := if sign == "-" then -(n as int) else n;
      ParseInt(sign + Zeros(k) + DecimalDigits(n)) == if MinInt32 <= v <= MaxInt32 then Some(v) else None
  {
    var d := DecimalDigits(n);
    var digits := Zeros(k) + d;
    assert sign + Zeros(k) + d == sign + digits;
    assert AllDigits(digits) && DigitsValue(digits) == n by {
      DigitsValueIgnoresLeadingZeros(k, d);
      DigitsValueOfDecimalDigits(n);
    }
    assert |digits| > 0 && IsDigit(digits[0]) by {
      if k > 0 { assert digits[0] == Zeros(k)[0]; } else { assert digits[0] == d[0]; }
    }
    NumeralDigitsOfSigned(sign, digits);
  }

  /** `parseInt` reads back every 32-bit value from its decimal form, and rejects the decimal
      form of every other value. */
  lemma ParseIntOfIntToString(n: int)
    ensures ParseInt(IntToString(n)) == if MinInt32 <= n <= MaxInt32 then Some(n) else None
  {
    if n < 0 {
      ParseIntOfNumeral("-", 0, -n);
      assert "-" + Zeros(0) + DecimalDigits(-n) == IntToString(n);
    } else {
      ParseIntOfNumeral("", 0, n);
      assert "" + Zeros(0) + DecimalDigits(n) == IntToString(n);
    }
  }

  /** A '+' sign and leading zeros are accepted. */
  lemma ParseIntSignAndZerosExamples()
    ensures ParseInt("+5075") == Some(5075)
    ensures ParseInt("05075") == Some(5075)
  {
    assert DecimalDigits(5075) == "5075";
    ParseIntOfNumeral("+", 0, 5075);
    assert "+" + Zeros(0) + DecimalDigits(5075) == "+5075";
    ParseIntOfNumeral("", 1, 5075);
    assert "" + Zeros(1) + DecimalDigits(5075) == "05075";
  }

  /** Appending a digit multiplies the value by ten and adds the digit. */
  lemma DigitsValueSnoc(s: string, c: char)
    requires AllDigits(s) && IsDigit(c)
    ensures AllDigits(s + [c]) && DigitsValue(s + [c]) == DigitsValue(s) * 10 + DigitValue(c)
  {
    assert (s + [c])[..|s|] == s;
  }

  /** The digits of one more than `Integer.MAX_VALUE`. */
  lemma DigitsValueOfTwoToThe31()
    ensures AllDigits("2147483648") && DigitsValue("2147483648") == 0x8000_0000
  {
    assert DigitsValue("2") == 2 by {
      assert "2" == "" + ['2'];
      DigitsValueSnoc("", '2');
    }
    assert DigitsValue("21") == 21 by {
      assert "21" == "2" + ['1'];
      DigitsValueSnoc("2", '1');
    }
    assert DigitsValue("214") == 214 by {
      assert "214" == "21" + ['4'];
      DigitsValueSnoc("21", '4');
    }
    assert DigitsValue("2147") == 2147 by {
      assert "2147" == "214" + ['7'];
      DigitsValueSnoc("214", '7');
    }
    assert DigitsValue("21474") == 21474 by {
      assert "21474" == "2147" + ['4'];
      DigitsValueSnoc("2147", '4');
    }
    assert DigitsValue("214748") == 214748 by {
      assert "214748" == "21474" + ['8'];
      DigitsValueSnoc("21474", '8');
    }
    assert DigitsValue("2147483") == 2147483 by {
      assert "2147483" == "214748" + ['3'];
      DigitsValueSnoc("214748", '3');
    }
    assert DigitsValue("21474836") == 21474836 by {
      assert "21474836" == "2147483" + ['6'];
      DigitsValueSnoc("2147483", '6');
    }
    assert DigitsValue("214748364") == 214748364 by {
      assert "214748364" == "21474836" + ['4'];
      DigitsValueSnoc("21474836", '4');
    }
    assert DigitsValue("2147483648") == 2147483648 by {
      assert "2147483648" == "214748364" + ['8'];
      DigitsValueSnoc("214748364", '8');
    }
  }

  /** One more than `Integer.MAX_VALUE` is rejected; its negation is `Integer.MIN_VALUE`. */
  lemma ParseIntRangeExamples()
    ensures ParseInt("2147483648") == None
    ensures ParseInt("-2147483648") == Some(MinInt32)
  {
    DigitsValueOfTwoToThe31();
    assert NumeralDigits("2147483648") == "2147483648";
    assert NumeralDigits("-2147483648") == "2147483648" by {
      assert "-2147483648"[1..] == "2147483648";
    }
  }
}
