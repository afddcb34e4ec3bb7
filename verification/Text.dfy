/** Decimal text as `wg show` and Rust's `Display` print it, and as `u16::from_str` reads it. */
module Text {
  import opened Common
  import opened DesiredStates

  datatype Cidr = Cidr(ip: Ipv4, prefix: nat)

  predicate IsDigit(c: char) { '0' <= c <= '9' }

  predicate AllDigits(s: string) { forall i :: 0 <= i < |s| ==> IsDigit(s[i]) }

  function DigitValue(c: char): nat
    requires IsDigit(c)
  {
    (c - '0') as nat
  }

  function Decimal(n: nat): (s: string)
    ensures s != [] && AllDigits(s)
  {
    var last := [('0' as int + n % 10) as char];
    if n < 10 then last else Decimal(n / 10) + last
  }

  function DecimalValue(s: string): nat
    requires AllDigits(s)
  {
    if s == [] then 0 else DecimalValue(s[..|s| - 1]) * 10 + DigitValue(s[|s| - 1])
  }

  lemma {:induction false} DecimalRoundTrip(n: nat)
    ensures DecimalValue(Decimal(n)) == n
  {
    var s := Decimal(n);
    if n >= 10 {
      DecimalRoundTrip(n / 10);
      assert s[..|s| - 1] == Decimal(n / 10);
    } else {
      assert s[..|s| - 1] == [];
      assert DecimalValue([]) == 0;
    }
  }

  /** `str::parse::<u16>`: an optional plus sign, then digits, within range. */
  function ParseU16(s: string): Option<nat> {
    var body := if s != [] && s[0] == '+' then s[1..] else s;
    if body == [] || !AllDigits(body) || DecimalValue(body) >= 65536 then None
    else Some(DecimalValue(body))
  }

  lemma {:induction false} ParseU16Decimal(n: nat)
    requires n < 65536
    ensures ParseU16(Decimal(n)) == Some(n)
    ensures Decimal(n) != "off"
  {
    DecimalRoundTrip(n);
    assert IsDigit(Decimal(n)[0]);
  }

  function FormatIp(ip: Ipv4): string {
    Decimal(ip.a) + "." + (Decimal(ip.b) + "." + (Decimal(ip.c) + "." + Decimal(ip.d)))
  }

  function FormatCidr(c: Cidr): string {
    FormatIp(c.ip) + "/" + Decimal(c.prefix)
  }

  /** Text up to the first separator is determined by the whole. */
  lemma {:induction false} SplitUnique(a: string, b: string, c: char, x: string, y: string)
    requires c !in a && c !in b
    requires a + [c] + x == b + [c] + y
    ensures a == b && x == y
  {
    var s := a + [c] + x;
    assert s[|a|] == c;
    assert forall i :: 0 <= i < |a| ==> s[i] == a[i];
    assert s == b + [c] + y && s[|b|] == c;
    assert forall i :: 0 <= i < |b| ==> s[i] == b[i];
    assert a == s[..|a|] && b == s[..|b|];
    assert x == s[|a| + 1..] && y == s[|b| + 1..];
  }

  lemma {:induction false} DecimalInjective(m: nat, n: nat)
    requires Decimal(m) == Decimal(n)
    ensures m == n
  {
    DecimalRoundTrip(m);
    DecimalRoundTrip(n);
  }

  lemma {:induction false} FormatIpInjective(p: Ipv4, q: Ipv4)
    requires FormatIp(p) == FormatIp(q)
    ensures p == q
  {
    SplitUnique(Decimal(p.a), Decimal(q.a), '.',
      Decimal(p.b) + "." + (Decimal(p.c) + "." + Decimal(p.d)),
      Decimal(q.b) + "." + (Decimal(q.c) + "." + Decimal(q.d)));
    SplitUnique(Decimal(p.b), Decimal(q.b), '.', Decimal(p.c) + "." + Decimal(p.d), Decimal(q.c) + "." + Decimal(q.d));
    SplitUnique(Decimal(p.c), Decimal(q.c), '.', Decimal(p.d), Decimal(q.d));
    DecimalInjective(p.a, q.a);
    DecimalInjective(p.b, q.b);
    DecimalInjective(p.c, q.c);
    DecimalInjective(p.d, q.d);
  }

  /** Printing an address range loses nothing. */
  lemma {:induction false} FormatCidrInjective(c: Cidr, d: Cidr)
    requires FormatCidr(c) == FormatCidr(d)
    ensures c == d
  {
    SplitUnique(FormatIp(c.ip), FormatIp(d.ip), '/', Decimal(c.prefix), Decimal(d.prefix));
    FormatIpInjective(c.ip, d.ip);
    DecimalInjective(c.prefix, d.prefix);
  }

  lemma {:induction false} FormatCidrIsNotNone(c: Cidr)
    ensures FormatCidr(c) != "(none)"
  {
    assert FormatCidr(c)[0] == Decimal(c.ip.a)[0];
  }
}
