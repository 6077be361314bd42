/** C strings, the fixed-size buffers that hold them, and the decimal printer. */
module Text {

  datatype Option<+T> = None | Some(value: T) {
    function GetOr(default: T): T {
      if Some? then value else default
    }
  }

  const NUL := '\0'
  const CRLF := "\r\n"

  predicate NulFree(s: seq<char>) {
    forall i | 0 <= i < |s| :: s[i] != NUL
  }

  /** The string a C function sees when handed memory m: everything before the first NUL. */
  function CStr(m: seq<char>): (s: string)
    ensures NulFree(s) && s <= m
    ensures |s| < |m| ==> m[|s|] == NUL
  {
    if m == [] || m[0] == NUL then "" else [m[0]] + CStr(m[1..])
  }

  lemma {:induction false} CStrUnique(m: seq<char>, s: string)
    requires NulFree(s) && s <= m
    requires |s| == |m| || m[|s|] == NUL
    ensures CStr(m) == s
  {
    var t := CStr(m);
    assert forall i | 0 <= i < |s| :: m[i] == s[i] != NUL;
    assert forall i | 0 <= i < |t| :: m[i] == t[i] != NUL;
    assert s == m[..|s|] && t == m[..|t|];
  }

  /** What strncpy leaves in the n characters it writes. */
  function Padded(s: string, n: nat): (p: seq<char>)
    ensures |p| == n
  {
    if |s| >= n then s[..n] else s + seq(n - |s|, _ => NUL)
  }

  /** Memory after snprintf(&m[at], size, "%s", text). */
  function Printed(m: seq<char>, at: nat, size: nat, text: string): (p: seq<char>)
    requires at + size <= |m|
    ensures |p| == |m|
  {
    if size == 0 then m
    else
      var k := if |text| < size then |text| else size - 1;
      m[..at] + text[..k] + [NUL] + m[at + k + 1..]
  }

  lemma PaddedIsCStr(s: string, n: nat, rest: seq<char>)
    requires NulFree(s) && |s| < n
    ensures CStr(Padded(s, n) + rest) == s
  {
    CStrUnique(Padded(s, n) + rest, s);
  }

  lemma PrintedIsCStr(m: seq<char>, text: string)
    requires NulFree(text) && |text| < |m|
    ensures CStr(Printed(m, 0, |m|, text)) == text
  {
    CStrUnique(Printed(m, 0, |m|, text), text);
  }

  method Strncpy(dst: array<char>, at: nat, src: seq<char>, n: nat)
    requires at + n <= dst.Length
    modifies dst
    ensures dst[..] == old(dst[..at]) + Padded(CStr(src), n) + old(dst[at + n..])
  {
    var s := CStr(src);
    forall i | 0 <= i < n {
      dst[at + i] := if i < |s| then s[i] else NUL;
    }
    ghost var want := old(dst[..at]) + Padded(s, n) + old(dst[at + n..]);
    assert forall i | 0 <= i < dst.Length :: dst[..][i] == want[i];
  }

  method Snprintf(dst: array<char>, at: nat, size: nat, text: string) returns (written: nat)
    requires at + size <= dst.Length
    modifies dst
    ensures written == |text|
    ensures dst[..] == Printed(old(dst[..]), at, size, text)
  {
    written := |text|;
    if size > 0 {
      var k := if |text| < size then |text| else size - 1;
      forall i | 0 <= i <= k {
        dst[at + i] := if i < k then text[i] else NUL;
      }
      ghost var want := Printed(old(dst[..]), at, size, text);
      assert forall i | 0 <= i < dst.Length :: dst[..][i] == want[i];
    }
  }

  predicate IsDigit(c: char) {
    '0' <= c <= '9'
  }

  predicate AllDigits(s: string) {
    forall i | 0 <= i < |s| :: IsDigit(s[i])
  }

  function Digit(c: char): (d: nat)
    requires IsDigit(c)
    ensures d < 10
  {
    c as int - '0' as int
  }

  /** The number a string of decimal digits denotes. */
  function Value(s: string): nat
    requires AllDigits(s)
  {
    if s == "" then 0 else 10 * Value(s[..|s| - 1]) + Digit(s[|s| - 1])
  }

  /** Decimal text, as %d and %llu print it. */
  function Dec(n: nat): (s: string)
    ensures s != "" && AllDigits(s)
  {
    var d := ('0' as int + n % 10) as char;
    if n < 10 then [d] else Dec(n / 10) + [d]
  }

  lemma {:induction false} DecValue(n: nat)
    ensures Value(Dec(n)) == n
  {
    if n >= 10 {
      DecValue(n / 10);
      assert Dec(n)[..|Dec(n)| - 1] == Dec(n / 10);
    } else {
      assert Dec(n)[..0] == "";
    }
  }

  function Pow10(k: nat): (p: nat)
    ensures p > 0
  {
    if k == 0 then 1 else 10 * Pow10(k - 1)
  }

  lemma {:induction false} DecLength(n: nat, k: nat)
    requires k > 0 && n < Pow10(k)
    ensures |Dec(n)| <= k
  {
    if n >= 10 {
      assert Pow10(1) == 10 * Pow10(0);
      assert n / 10 < Pow10(k - 1);
      DecLength(n / 10, k - 1);
    }
  }
}
