/** What a WireGuard key is: the standard base64 text of 32 bytes
    (crates/zerovpn-host-agent/src/state.rs, `valid_key`; section 4 of RFC 4648). */
module Base64 {
  import opened DesiredStates
  import opened WireGuard
  import opened Alphabets

  const ALPHABET := UPPER + LOWER + DIGITS + "+/"

  function At(n: nat): char
    requires n < 64
  {
    assert |ALPHABET| == 64;
    ALPHABET[n]
  }

  /** Twenty-four bits as four digits. */
  function Four(x: Octet, y: Octet, z: Octet): string {
    [At(x / 4), At(x % 4 * 16 + y / 16), At(y % 16 * 4 + z / 64), At(z % 64)]
  }

  /** Three bytes make four digits; two make three and one pad, one makes two and two pads. */
  function Encode(b: seq<Octet>): string {
    if b == [] then ""
    else if |b| == 1 then [At(b[0] / 4), At(b[0] % 4 * 16), '=', '=']
    else if |b| == 2 then [At(b[0] / 4), At(b[0] % 4 * 16 + b[1] / 16), At(b[1] % 16 * 4), '=']
    else Four(b[0], b[1], b[2]) + Encode(b[3..])
  }

  /** `Sextet` reads the alphabet back, and nothing else. */
  lemma {:induction false} SextetReadsAlphabet(n: nat, c: char)
    ensures n < 64 ==> Sextet(At(n)) == n
    ensures Sextet(c) < 64 ==> At(Sextet(c)) == c
  {
    AlphabetAt(n);
    AlphabetAt(Sextet(c));
  }

  lemma {:induction false} AlphabetAt(n: nat)
    ensures n < 26 ==> At(n) == 'A' + n as char
    ensures 26 <= n < 52 ==> At(n) == 'a' + (n - 26) as char
    ensures 52 <= n < 62 ==> At(n) == '0' + (n - 52) as char
    ensures At(62) == '+' && At(63) == '/'
  {
    UpperAt(n);
    if n >= 26 { LowerAt(n - 26); }
    if n >= 52 { DigitAt(n - 52); }
  }

  lemma {:induction false} OneDigit(c: char, rest: string)
    requires |rest| >= 2
    ensures CanonicalDigits([c] + rest) <==> Sextet(c) < 64 && CanonicalDigits(rest)
  {
    assert ([c] + rest)[1..] == rest;
  }

  lemma {:induction false} FourDigits(a: char, b: char, c: char, d: char, rest: string)
    requires |rest| >= 2
    ensures CanonicalDigits([a, b, c, d] + rest) <==>
            Sextet(a) < 64 && Sextet(b) < 64 && Sextet(c) < 64 && Sextet(d) < 64 && CanonicalDigits(rest)
  {
    OneDigit(d, rest);
    OneDigit(c, [d] + rest);
    OneDigit(b, [c] + ([d] + rest));
    OneDigit(a, [b] + ([c] + ([d] + rest)));
    assert [a, b, c, d] + rest == [a] + ([b] + ([c] + ([d] + rest)));
  }

  lemma {:induction false} LastDigits(a: char, b: char, c: char, d: char)
    ensures CanonicalDigits([a, b, c, d]) <==>
            Sextet(a) < 64 && Sextet(b) < 64 && Sextet(c) < 64 && Sextet(c) % 4 == 0 && d == '='
  {
    OneDigit(b, [c, d]);
    OneDigit(a, [b] + [c, d]);
    assert [a, b, c, d] == [a] + ([b] + [c, d]);
  }

  type Digit = n: nat | n < 64

  lemma {:induction false} DigitsAreCanonical(p: Digit, q: Digit, r: Digit, s: Digit, rest: string)
    ensures r % 4 == 0 ==> CanonicalDigits([At(p), At(q), At(r), '='])
    ensures |rest| >= 2 && CanonicalDigits(rest) ==> CanonicalDigits([At(p), At(q), At(r), At(s)] + rest)
  {
    SextetReadsAlphabet(p, 'A');
    SextetReadsAlphabet(q, 'A');
    SextetReadsAlphabet(r, 'A');
    SextetReadsAlphabet(s, 'A');
    LastDigits(At(p), At(q), At(r), '=');
    if |rest| >= 2 { FourDigits(At(p), At(q), At(r), At(s), rest); }
  }

  lemma {:induction false} FourTimes(y: Octet)
    ensures y % 16 * 4 < 64 && y % 16 * 4 % 4 == 0
  {
  }

  lemma {:induction false} FourOf(x: Octet, y: Octet, z: Octet) returns (p: Digit, q: Digit, r: Digit, s: Digit)
    ensures Four(x, y, z) == [At(p), At(q), At(r), At(s)]
  {
    p, q, r, s := x / 4, x % 4 * 16 + y / 16, y % 16 * 4 + z / 64, z % 64;
  }

  lemma {:induction false} ThreeOf(b: seq<Octet>) returns (p: Digit, q: Digit, r: Digit)
    requires |b| == 2
    ensures r % 4 == 0 && Encode(b) == [At(p), At(q), At(r), '=']
  {
    FourTimes(b[1]);
    p, q, r := b[0] / 4, b[0] % 4 * 16 + b[1] / 16, b[1] % 16 * 4;
  }

  /** The text of two bytes more than a multiple of three is canonical. */
  lemma {:induction false} EncodedIsCanonical(b: seq<Octet>)
    requires |b| % 3 == 2
    ensures 3 * |Encode(b)| == 4 * |b| + 4 && CanonicalDigits(Encode(b))
  {
    if |b| == 2 {
      var p, q, r := ThreeOf(b);
      DigitsAreCanonical(p, q, r, 0, "");
    } else {
      EncodedIsCanonical(b[3..]);
      var p, q, r, s := FourOf(b[0], b[1], b[2]);
      DigitsAreCanonical(p, q, r, s, Encode(b[3..]));
    }
  }

  /** Four digits as three bytes. */
  function Bytes(p: Digit, q: Digit, r: Digit, s: Digit): (b: seq<Octet>)
    ensures |b| == 3
  {
    [p * 4 + q / 16, q % 16 * 16 + r / 4, r % 4 * 64 + s]
  }

  lemma {:induction false} BytesRoundTrip(p: Digit, q: Digit, r: Digit, s: Digit)
    ensures var b := Bytes(p, q, r, s);
            && Four(b[0], b[1], b[2]) == [At(p), At(q), At(r), At(s)]
            && (r % 4 == 0 ==> Encode(b[..2]) == [At(p), At(q), At(r), '='])
  {
    var b := Bytes(p, q, r, s);
    Regroup(p, q, r, s);
    SameFour(b[0], b[1], b[2], p, q, r, s);
    if r % 4 == 0 { SameThree(b[..2], p, q, r); }
  }

  lemma {:induction false} Regroup(p: Digit, q: Digit, r: Digit, s: Digit)
    ensures var x, y, z := p * 4 + q / 16, q % 16 * 16 + r / 4, r % 4 * 64 + s;
            && x / 4 == p && x % 4 * 16 + y / 16 == q && y % 16 * 4 + z / 64 == r && z % 64 == s
            && (r % 4 == 0 ==> y % 16 * 4 == r)
  {
    var x, y, z := p * 4 + q / 16, q % 16 * 16 + r / 4, r % 4 * 64 + s;
    assert x / 4 == p && x % 4 == q / 16;
    assert y / 16 == q % 16 && y % 16 == r / 4;
    assert z / 64 == r % 4 && z % 64 == s;
  }

  lemma {:induction false} SameFour(x: Octet, y: Octet, z: Octet, p: Digit, q: Digit, r: Digit, s: Digit)
    requires x / 4 == p && x % 4 * 16 + y / 16 == q && y % 16 * 4 + z / 64 == r && z % 64 == s
    ensures Four(x, y, z) == [At(p), At(q), At(r), At(s)]
  {
  }

  lemma {:induction false} SameThree(b: seq<Octet>, p: Digit, q: Digit, r: Digit)
    requires |b| == 2 && b[0] / 4 == p && b[0] % 4 * 16 + b[1] / 16 == q && b[1] % 16 * 4 == r
    ensures Encode(b) == [At(p), At(q), At(r), '=']
  {
  }

  /** Every canonical text of whole groups is the text of some bytes. */
  lemma {:induction false} CanonicalIsEncoded(k: string) returns (b: seq<Octet>)
    requires |k| >= 4 && |k| % 4 == 0 && CanonicalDigits(k)
    ensures |b| == |k| / 4 * 3 - 1 && Encode(b) == k
  {
    var a, c, d, e := k[0], k[1], k[2], k[3];
    var rest := k[4..];
    assert k == [a, c, d, e] + rest;
    SextetReadsAlphabet(0, a);
    SextetReadsAlphabet(0, c);
    SextetReadsAlphabet(0, d);
    if |k| == 4 {
      assert k == [a, c, d, e];
      LastDigits(a, c, d, e);
      BytesRoundTrip(Sextet(a), Sextet(c), Sextet(d), 0);
      b := Bytes(Sextet(a), Sextet(c), Sextet(d), 0)[..2];
    } else {
      FourDigits(a, c, d, e, rest);
      SextetReadsAlphabet(0, e);
      var tail := CanonicalIsEncoded(rest);
      var head := Bytes(Sextet(a), Sextet(c), Sextet(d), Sextet(e));
      BytesRoundTrip(Sextet(a), Sextet(c), Sextet(d), Sextet(e));
      b := head + tail;
      assert b[3..] == tail && b[0] == head[0] && b[1] == head[1] && b[2] == head[2];
    }
  }

  /** `valid_key` accepts exactly the base64 texts of 32 bytes. */
  lemma {:induction false} ValidKeyIsBase64(k: Key)
    ensures ValidKey(k) <==> exists b: seq<Octet> :: |b| == 32 && Encode(b) == k
  {
    if ValidKey(k) {
      var b := CanonicalIsEncoded(k);
      assert |b| == 32;
    }
    if b: seq<Octet> :| |b| == 32 && Encode(b) == k {
      EncodedIsCanonical(b);
    }
  }

  function Zeros(n: nat): seq<Octet> {
    seq(n, _ => 0)
  }

  function As(n: nat): string {
    seq(n, _ => 'A')
  }

  lemma {:induction false} ZeroGroups()
    ensures Four(0, 0, 0) == As(4) && Encode([0, 0]) == As(3) + "="
  {
    AlphabetAt(0);
    SameFour(0, 0, 0, 0, 0, 0, 0);
    SameThree([0, 0], 0, 0, 0);
  }

  lemma {:induction false} ZerosAreAs(k: nat)
    ensures Encode(Zeros(3 * k + 2)) == As(4 * k + 3) + "="
  {
    ZeroGroups();
    var z := Zeros(3 * k + 2);
    if k == 0 {
      assert z == [0, 0];
    } else {
      ZerosAreAs(k - 1);
      assert z[3..] == Zeros(3 * (k - 1) + 2);
      assert Encode(z) == Four(z[0], z[1], z[2]) + Encode(z[3..]);
      assert As(4) + (As(4 * (k - 1) + 3) + "=") == As(4 * k + 3) + "=";
    }
  }

  /** The key that WireGuard reads as none is the text of 32 zero bytes. */
  lemma {:induction false} ZeroKeyIsZeros(k: Key)
    ensures ZeroKey(k) <==> k == Encode(Zeros(32))
  {
    ZerosAreAs(10);
    var zero := As(43) + "=";
    assert ZeroKey(zero);
    if ZeroKey(k) { assert k == zero; }
  }
}
