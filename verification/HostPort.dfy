/** The host-port text of the 227 reply (sections 4.1.2 and 5.3.2 of RFC 959). */
module HostPort {
  import opened Text
  import opened Paths

  type Byte = b: int | 0 <= b < 256

  datatype Address = Address(h1: Byte, h2: Byte, h3: Byte, h4: Byte)

  function Quad(a: Address): string {
    Dec(a.h1) + ['.'] + (Dec(a.h2) + ['.'] + (Dec(a.h3) + ['.'] + Dec(a.h4)))
  }

  /** The addresses inet_pton accepts. */
  ghost predicate ValidIp(s: string) {
    exists a :: s == Quad(a)
  }

  function ParseQuad(s: string): Option<Address> {
    var f := SplitOn('.', s);
    if |f| == 4 && (forall i | 0 <= i < 4 :: AllDigits(f[i]) && f[i] != "" && Value(f[i]) < 256) then
      Some(Address(Value(f[0]), Value(f[1]), Value(f[2]), Value(f[3])))
    else None
  }

  /** inet_pton's test: four decimal bytes without leading zeros. */
  predicate IsQuad(s: string) {
    ParseQuad(s).Some? && s == Quad(ParseQuad(s).value)
  }

  lemma DottedFields(a: Address)
    ensures SplitOn('.', Quad(a)) == [Dec(a.h1), Dec(a.h2), Dec(a.h3), Dec(a.h4)]
  {
    DotFree(a.h1);
    DotFree(a.h2);
    DotFree(a.h3);
    DotFree(a.h4);
    hide SplitOn, Dec;
    SplitJoin('.', Dec(a.h3), Dec(a.h4));
    SplitJoin('.', Dec(a.h2), Dec(a.h3) + ['.'] + Dec(a.h4));
    SplitJoin('.', Dec(a.h1), Dec(a.h2) + ['.'] + (Dec(a.h3) + ['.'] + Dec(a.h4)));
  }

  lemma QuadParses(a: Address)
    ensures ParseQuad(Quad(a)) == Some(a)
  {
    DottedFields(a);
    DecValue(a.h1);
    DecValue(a.h2);
    DecValue(a.h3);
    DecValue(a.h4);
    hide Quad, Dec, Value, SplitOn;
  }

  lemma DotFree(n: nat)
    ensures SplitOn('.', Dec(n)) == [Dec(n)]
  {
    assert forall i | 0 <= i < |Dec(n)| :: IsDigit(Dec(n)[i]);
    SplitWhole('.', Dec(n));
  }

  lemma IsQuadExact(s: string)
    ensures IsQuad(s) <==> ValidIp(s)
  {
    if ValidIp(s) {
      var a :| s == Quad(a);
      QuadParses(a);
    }
  }

  lemma QuadFits(a: Address)
    ensures 0 < |Quad(a)| < 16 && NulFree(Quad(a))
  {
    assert Pow10(3) == 1000 by { assert Pow10(1) == 10 && Pow10(2) == 100; }
    DecLength(a.h1, 3);
    DecLength(a.h2, 3);
    DecLength(a.h3, 3);
    DecLength(a.h4, 3);
  }

  function Commas(s: string): (t: string)
    ensures |t| == |s|
    ensures forall i | 0 <= i < |s| :: t[i] == if s[i] == '.' then ',' else s[i]
  {
    seq(|s|, i requires 0 <= i < |s| => if s[i] == '.' then ',' else s[i])
  }

  function HostPortText(ip: string, port: nat): string {
    Commas(ip) + [','] + Dec(port / 256) + [','] + Dec(port % 256)
  }

  /** An independent reader: six comma-separated decimal bytes, the last two making the port. */
  function Decode(t: string): Option<(Address, nat)> {
    var f := SplitOn(',', t);
    if |f| == 6 && (forall i | 0 <= i < 6 :: AllDigits(f[i]) && f[i] != "" && Value(f[i]) < 256) then
      Some((Address(Value(f[0]), Value(f[1]), Value(f[2]), Value(f[3])), Value(f[4]) * 256 + Value(f[5])))
    else None
  }

  lemma CommasConcat(s: string, t: string)
    ensures Commas(s + ['.'] + t) == Commas(s) + [','] + Commas(t)
  {
  }

  lemma DigitsKept(n: nat)
    ensures Commas(Dec(n)) == Dec(n) && ',' !in Dec(n)
  {
    assert forall i | 0 <= i < |Dec(n)| :: IsDigit(Dec(n)[i]);
  }

  lemma QuadCommas(a: Address)
    ensures Commas(Quad(a)) == Dec(a.h1) + [','] + (Dec(a.h2) + [','] + (Dec(a.h3) + [','] + Dec(a.h4)))
  {
    DigitsKept(a.h1);
    DigitsKept(a.h2);
    DigitsKept(a.h3);
    DigitsKept(a.h4);
    CommasConcat(Dec(a.h3), Dec(a.h4));
    CommasConcat(Dec(a.h2), Dec(a.h3) + ['.'] + Dec(a.h4));
    CommasConcat(Dec(a.h1), Dec(a.h2) + ['.'] + (Dec(a.h3) + ['.'] + Dec(a.h4)));
  }

  lemma SplitDec(n: nat)
    ensures SplitOn(',', Dec(n)) == [Dec(n)]
  {
    DigitsKept(n);
    SplitWhole(',', Dec(n));
  }

  lemma QuadFields(a: Address)
    ensures SplitOn(',', Commas(Quad(a))) == [Dec(a.h1), Dec(a.h2), Dec(a.h3), Dec(a.h4)]
  {
    QuadCommas(a);
    SplitDec(a.h1);
    SplitDec(a.h2);
    SplitDec(a.h3);
    SplitDec(a.h4);
    SplitJoin(',', Dec(a.h3), Dec(a.h4));
    SplitJoin(',', Dec(a.h2), Dec(a.h3) + [','] + Dec(a.h4));
    SplitJoin(',', Dec(a.h1), Dec(a.h2) + [','] + (Dec(a.h3) + [','] + Dec(a.h4)));
  }

  lemma HostPortFields(a: Address, port: nat)
    ensures SplitOn(',', HostPortText(Quad(a), port))
         == [Dec(a.h1), Dec(a.h2), Dec(a.h3), Dec(a.h4), Dec(port / 256), Dec(port % 256)]
  {
    var p, q := Dec(port / 256), Dec(port % 256);
    QuadFields(a);
    SplitDec(port / 256);
    SplitDec(port % 256);
    SplitJoin(',', Commas(Quad(a)) + [','] + p, q);
    SplitJoin(',', Commas(Quad(a)), p);
  }

  /** The text decodes to the address and the port it was made from. */
  lemma HostPortDecodes(a: Address, port: nat)
    requires port < 0x1_0000
    ensures Decode(HostPortText(Quad(a), port)) == Some((a, port))
  {
    HostPortFields(a, port);
    DecValue(a.h1);
    DecValue(a.h2);
    DecValue(a.h3);
    DecValue(a.h4);
    DecValue(port / 256);
    DecValue(port % 256);
  }

  /** Different addresses or ports never share a text. */
  lemma HostPortUnique(a: Address, p: nat, b: Address, q: nat)
    requires p < 0x1_0000 && q < 0x1_0000
    requires HostPortText(Quad(a), p) == HostPortText(Quad(b), q)
    ensures a == b && p == q
  {
    HostPortDecodes(a, p);
    HostPortDecodes(b, q);
  }
}
