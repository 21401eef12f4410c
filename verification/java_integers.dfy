/**
 * Java's 32-bit int as the argument parser sees it: Integer.parseInt, the decimal text that
 * string concatenation writes for an int, and two's-complement wrap-around.
 */
module JavaIntegers {
  import opened Wrappers

  const MinInt: int := -0x8000_0000
  const MaxInt: int := 0x7FFF_FFFF

  predicate IsInt(x: int) {
    MinInt <= x <= MaxInt
  }

  /** The int that x wraps around to in 32-bit two's-complement arithmetic. */
  function Wrap(x: int): (r: int)
    ensures IsInt(r)
    ensures IsInt(x) ==> r == x
    ensures (x - r) % 0x1_0000_0000 == 0
  {
    (x - MinInt) % 0x1_0000_0000 + MinInt
  }

  predicate IsDigit(c: char) {
    '0' <= c <= '9'
  }

  predicate IsSign(c: char) {
    c == '-' || c == '+'
  }

  predicate AllDigits(s: string) {
    forall i :: 0 <= i < |s| ==> IsDigit(s[i])
  }

  /** The value of a string of decimal digits, most significant first. */
  function DigitsValue(ds: string): nat
    requires AllDigits(ds)
  {
    if ds == [] then 0 else DigitsValue(ds[..|ds| - 1]) * 10 + (ds[|ds| - 1] as int - '0' as int)
  }

  /**
   * Integer.parseInt(s): an optional '-' or '+', then at least one digit, with a value that fits
   * in an int. None stands for the NumberFormatException.
   */
  function ParseInt(s: string): (r: Option<int>)
    ensures r.Some? ==> IsInt(r.value)
    ensures r.Some? ==> |s| > 0 && IsDigit(s[|s| - 1])
    ensures r.Some? ==> forall i :: 0 <= i < |s| ==> IsDigit(s[i]) || (i == 0 && IsSign(s[i]))
  {
    if s == [] then None
    else
      var digits := if IsSign(s[0]) then s[1..] else s;
      if digits == [] || !AllDigits(digits) then None
      else
        var magnitude: int := DigitsValue(digits);
        var value: int := if s[0] == '-' then -magnitude else magnitude;
        if IsInt(value) then Some(value) else None
  }

  function DigitChar(d: nat): (c: char)
    requires d < 10
    ensures IsDigit(c) && c as int - '0' as int == d
  {
    ('0' as int + d) as char
  }

  /** The decimal digits of n, without leading zeros. */
  function Digits(n: nat): (ds: string)
    ensures |ds| > 0 && AllDigits(ds)
    ensures DigitsValue(ds) == n
    ensures ds[0] == '0' ==> n == 0
  {
    if n < 10 then [DigitChar(n)]
    else
      var init := Digits(n / 10);
      var ds := init + [DigitChar(n % 10)];
      assert ds[..|ds| - 1] == init;
      ds
  }

  /** Integer.toString(n): what "..." + n writes into a string. */
  function ToDecimal(n: int): (r: string)
    ensures |r| > 0 && (r[0] == '-' <==> n < 0)
    ensures forall i :: 0 < i < |r| ==> IsDigit(r[i])
    ensures |r| > 1 && r[0] != '-' ==> r[0] != '0'
  {
    if n < 0 then "-" + Digits(-n) else Digits(n)
  }

  /**
   * Integer.parseInt accepts every optional sign followed by ASCII digits, leading zeros and
   * "-0" included, and gives the signed value of the digits when it is an int; otherwise it
   * fails.
   */
  lemma ParseIntOfDigits(sign: string, ds: string)
    requires sign in ["", "+", "-"] && ds != [] && AllDigits(ds)
    ensures var v := if sign == "-" then -(DigitsValue(ds) as int) else DigitsValue(ds) as int;
      ParseInt(sign + ds) == if IsInt(v) then Some(v) else None
  {
    var s := sign + ds;
    if sign == "" {
      assert s == ds && !IsSign(s[0]);
    } else {
      assert s[0] == sign[0] && IsSign(s[0]) && s[1..] == ds;
    }
  }

  /** Integer.parseInt reads back every int that Integer.toString writes. */
  lemma ParseIntToDecimal(n: int)
    requires IsInt(n)
    ensures ParseInt(ToDecimal(n)) == Some(n)
  {
    var s := ToDecimal(n);
    if n < 0 {
      assert s[1..] == Digits(-n);
    }
  }

  /** Integer.MAX_VALUE is written 2147483647. */
  lemma MaxIntDecimal()
    ensures ToDecimal(MaxInt) == "2147483647"
  {
    assert Digits(2) == "2";
    assert Digits(21) == "21";
    assert Digits(214) == "214";
    assert Digits(2147) == "2147";
    assert Digits(21474) == "21474";
    assert Digits(214748) == "214748";
    assert Digits(2147483) == "2147483";
    assert Digits(21474836) == "21474836";
    assert Digits(214748364) == "214748364";
  }
}
