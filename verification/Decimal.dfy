/** The port argument: src/linux/main.c's digit check and its wrapping 16-bit parser. */
module Decimal {
  import opened Text

  const DIGITS_MAX := 5
  const VALUE_MAX := "65365"
  const WRAP := 0x1_0000

  /** Truncation of a size to int16_t. */
  function ToInt16(n: int): (i: int)
    ensures -0x8000 <= i < 0x8000
  {
    var m := n % WRAP;
    if m < 0x8000 then m else m - WRAP
  }

  /** How many leading characters the parser reads: its index starts at (int16_t)(len - 1). */
  function ReadLength(len: nat): (k: nat)
    ensures k <= len
    ensures 1 <= len <= 0x8000 ==> k == len
  {
    var start := ToInt16(len - 1);
    if start < 0 then 0 else start + 1
  }

  lemma {:induction false} ValueCons(c: char, t: string)
    requires IsDigit(c) && AllDigits(t)
    ensures AllDigits([c] + t)
    ensures Value([c] + t) == Digit(c) * Pow10(|t|) + Value(t)
  {
    var n := |t|;
    if n == 0 {
      assert Value([c]) == 10 * Value([c][..0]) + Digit(c);
      assert [c] + t == [c];
    } else {
      var front, last := t[..n - 1], t[n - 1];
      ValueCons(c, front);
      assert ([c] + t)[..n] == [c] + front;
      assert Value([c] + t) == 10 * Value([c] + front) + Digit(last);
      Distribute(Digit(c), Pow10(n - 1), Value(front));
    }
  }

  lemma Distribute(d: int, p: int, v: int)
    ensures 10 * (d * p + v) == d * (10 * p) + 10 * v
  {
  }

  /** What the parser returns. */
  function Value16(s: string): (v: nat)
    requires AllDigits(s)
    ensures v < WRAP
  {
    Value(s[..ReadLength(|s|)]) % WRAP
  }

  lemma ModUnique(x: int, q: int, r: int)
    requires x == WRAP * q + r && 0 <= r < WRAP
    ensures x % WRAP == r
  {
  }

  /** One turn of the parser's loop, in 16-bit arithmetic and exactly. */
  lemma ModStep(d: nat, p: nat, v: nat)
    requires d < 10
    ensures (v % WRAP + (d * (p % WRAP)) % WRAP) % WRAP == (d * p + v) % WRAP
    ensures (p % WRAP * 10) % WRAP == (10 * p) % WRAP
  {
    var q, r := p / WRAP, p % WRAP;
    var e, f := (d * r) / WRAP, (d * r) % WRAP;
    var g, h := v / WRAP, v % WRAP;
    assert d * p == WRAP * (d * q) + d * r by {
      assert p == WRAP * q + r;
      assert d * (WRAP * q) == WRAP * (d * q);
      assert d * p == d * (WRAP * q + r) == d * (WRAP * q) + d * r;
    }
    var c := (h + f) / WRAP;
    ModUnique(d * p + v, d * q + e + g + c, (h + f) % WRAP);
    ModUnique(10 * p, 10 * q + (10 * r) / WRAP, (10 * r) % WRAP);
  }

  /** uint16_t product and sum. */
  function Times16(a: nat, b: nat): (n: nat)
    ensures n < WRAP
  {
    a * b % WRAP
  }

  function Plus16(a: nat, b: nat): (n: nat)
    ensures n < WRAP
  {
    (a + b) % WRAP
  }

  /** One turn of the loop at index i: the value and the weight it leaves. */
  lemma ParserTurn(s: string, i: nat, k: nat)
    requires AllDigits(s) && i < k <= |s|
    ensures var p, v := Pow10(k - 1 - i) % WRAP, Value(s[i + 1..k]) % WRAP;
            && Plus16(v, Times16(Digit(s[i]), p)) == Value(s[i..k]) % WRAP
            && Times16(p, 10) == Pow10(k - i) % WRAP
  {
    ValueCons(s[i], s[i + 1..k]);
    assert s[i..k] == [s[i]] + s[i + 1..k];
    ModStep(Digit(s[i]), Pow10(k - 1 - i), Value(s[i + 1..k]));
  }

  /** Right-to-left wrapping parser: the decimal value of the characters read, modulo 2^16. */
  method ParseDecimal(s: string) returns (number: nat)
    requires AllDigits(s)
    ensures number == Value16(s)
  {
    ghost var k := ReadLength(|s|);
    assert Value(s[k..k]) == 0 && Pow10(0) == 1;
    assert s[0..k] == s[..k];
    number := 0;
    var val := 1;
    var i := ToInt16(|s| - 1);
    hide Value, Pow10, Digit, ToInt16, Times16, Plus16;
    while i >= 0
      invariant i < k
      invariant number == Value(s[if i < 0 then 0 else i + 1..k]) % WRAP
      invariant i >= 0 ==> val == Pow10(k - 1 - i) % WRAP
    {
      ParserTurn(s, i, k);
      var value := Times16(Digit(s[i]), val);
      number := Plus16(number, value);
      val := Times16(val, 10);
      i := i - 1;
    }
  }

  lemma {:induction false} ValueBound(s: string)
    requires AllDigits(s)
    ensures Value(s) < Pow10(|s|)
  {
    if s != "" {
      ValueBound(s[..|s| - 1]);
    }
  }

  /** Index of the first character in which two strings of the same length differ. */
  function FirstDifference(s: string, t: string): (i: nat)
    requires |s| == |t|
    ensures i <= |s| && forall j | 0 <= j < i :: s[j] == t[j]
    ensures i < |s| ==> s[i] != t[i]
  {
    if s == "" || s[0] != t[0] then 0
    else 1 + FirstDifference(s[1..], t[1..])
  }

  /** Comparing two digit strings of equal length at their first difference is comparing the numbers. */
  lemma {:induction false} FirstDifferenceDecides(s: string, t: string)
    requires |s| == |t| && AllDigits(s) && AllDigits(t)
    ensures var i := FirstDifference(s, t);
            (Value(s) <= Value(t) <==> i == |s| || s[i] < t[i])
  {
    if s != "" {
      Leading(s);
      Leading(t);
      if s[0] == t[0] {
        FirstDifferenceDecides(s[1..], t[1..]);
      } else {
        LeadingDigit(Digit(s[0]), Digit(t[0]), Pow10(|s| - 1), Value(s[1..]), Value(t[1..]));
      }
    }
  }

  lemma Leading(s: string)
    requires s != "" && AllDigits(s)
    ensures Value(s) == Digit(s[0]) * Pow10(|s| - 1) + Value(s[1..])
    ensures Value(s[1..]) < Pow10(|s| - 1)
  {
    ValueCons(s[0], s[1..]);
    assert s == [s[0]] + s[1..];
    ValueBound(s[1..]);
  }

  lemma LeadingDigit(a: nat, b: nat, p: nat, x: nat, y: nat)
    requires a != b && x < p && y < p
    ensures a * p + x <= b * p + y <==> a < b
  {
    if a < b {
      assert (a + 1) * p <= b * p;
    } else {
      assert (b + 1) * p <= a * p;
    }
  }

  lemma MaxValue()
    ensures AllDigits(VALUE_MAX) && Value(VALUE_MAX) == 65365
  {
    assert VALUE_MAX[..4] == "6536" && "6536"[..3] == "653" && "653"[..2] == "65" && "65"[..1] == "6" && "6"[..0] == "";
    assert Value("6") == 6;
    assert Value("65") == 65;
    assert Value("653") == 653;
    assert Value("6536") == 6536;
  }

  /** What the digit check accepts. The empty string is accepted: it returns -1 as a bool. */
  predicate Accepted(s: string) {
    s == "" || (AllDigits(s) && |s| <= DIGITS_MAX && Value(s) <= 65365)
  }

  lemma ShortIsSmall(s: string)
    requires AllDigits(s) && |s| < DIGITS_MAX
    ensures Value(s) <= 9999
  {
    ValueBound(s);
    assert Pow10(4) == 10000;
    PowMonotone(|s|, 4);
  }

  lemma {:induction false} PowMonotone(a: nat, b: nat)
    requires a <= b
    ensures Pow10(a) <= Pow10(b)
  {
    if a < b {
      PowMonotone(a, b - 1);
    }
  }

  /** The digit-by-digit check is the numeric bound. */
  method IsDecimal(s: string) returns (isDecimal: bool)
    ensures isDecimal <==> Accepted(s)
  {
    isDecimal := true;
    var i := 0;
    while i < |s|
      invariant 0 <= i <= |s| && isDecimal
      invariant AllDigits(s[..i])
    {
      if !IsDigit(s[i]) {
        isDecimal := false;
        break;
      }
      i := i + 1;
    }
    if isDecimal {
      assert AllDigits(s);
      if |s| == 0 {
        return true;
      } else if |s| == DIGITS_MAX {
        MaxValue();
        FirstDifferenceDecides(s, VALUE_MAX);
        ghost var d := FirstDifference(s, VALUE_MAX);
        i := 0;
        while i < DIGITS_MAX
          invariant 0 <= i <= d && isDecimal
        {
          if Digit(s[i]) > Digit(VALUE_MAX[i]) {
            isDecimal := false;
            break;
          } else if Digit(s[i]) != Digit(VALUE_MAX[i]) {
            break;
          }
          i := i + 1;
        }
      } else if |s| > DIGITS_MAX {
        isDecimal := false;
      } else {
        ShortIsSmall(s);
      }
    }
  }

  /** A non-empty accepted string is parsed to its exact value, although the weight wraps after five digits. */
  lemma AcceptedParsesExactly(s: string)
    requires Accepted(s) && s != ""
    ensures Value16(s) == Value(s)
  {
    assert s[..|s|] == s;
  }

  /**
   * The documentation calls the bound UINT16_MAX. The check is that bound on a digit string exactly when the
   * string is not empty, is not in 65366..65535, and is not a longer spelling, with leading zeros, of a smaller number.
   */
  lemma NotUint16Max(s: string)
    requires AllDigits(s)
    ensures (Accepted(s) <==> s != "" && Value(s) <= 0xFFFF)
            <==> s != "" && if |s| <= DIGITS_MAX then !(65365 < Value(s) <= 0xFFFF) else Value(s) > 0xFFFF
  {
  }

  /** Both failing families are inhabited: 65366 fits sixteen bits, and 000080 is 80. */
  lemma RejectedPorts()
    ensures !Accepted("65366") && Value("65366") == 65366
    ensures !Accepted("000080") && Value("000080") == 80
  {
    assert "65366"[..4] == "6536" && "6536"[..3] == "653" && "653"[..2] == "65" && "65"[..1] == "6" && "6"[..0] == "";
    assert "000080"[..5] == "00008" && "00008"[..4] == "0000" && "0000"[..3] == "000" && "000"[..2] == "00";
    assert "00"[..1] == "0" && "0"[..0] == "";
    assert Value("6") == 6 && Value("65") == 65 && Value("653") == 653 && Value("6536") == 6536;
    assert Value("0") == 0 && Value("00") == 0 && Value("000") == 0 && Value("0000") == 0 && Value("00008") == 8;
  }
}
