/** What `str::from_utf8` accepts (as crates/zerovpn-worker/src/docker_stats.rs uses it):
    exactly the encodings of sequences of Unicode scalar values (RFC 3629, section 3). */
module Utf8 {
  import opened Chunked

  type Scalar = c: nat | c < 0xD800 || 0xE000 <= c <= 0x10FFFF

  type Six = n: nat | n < 64

  function Word2(a: nat, b: Six): nat { a * 64 + b }

  function Word3(a: nat, b: Six, c: Six): nat { Word2(Word2(a, b), c) }

  function Word4(a: nat, b: Six, c: Six, d: Six): nat { Word2(Word3(a, b, c), d) }

  /** The encoding of one character: seven, eleven, sixteen or twenty-one bits. */
  function Encoded(c: Scalar): Bytes {
    if c < 0x80 then [c]
    else if c < 0x800 then [192 + c / 64, 128 + c % 64]
    else if c < 0x10000 then [224 + c / 64 / 64, 128 + c / 64 % 64, 128 + c % 64]
    else [240 + c / 64 / 64 / 64, 128 + c / 64 / 64 % 64, 128 + c / 64 % 64, 128 + c % 64]
  }

  function Text(cs: seq<Scalar>): Bytes {
    if cs == [] then [] else Encoded(cs[0]) + Text(cs[1..])
  }

  lemma {:induction false} Unword(a: nat, b: Six)
    ensures Word2(a, b) / 64 == a && Word2(a, b) % 64 == b
  {
  }

  // --------------------------------------------------------------- white space

  /** The characters that `trim` removes: Unicode's White_Space property. */
  predicate White(c: Scalar) {
    || 9 <= c <= 13 || c == 32 || c == 0x85 || c == 0xA0 || c == 0x1680 || 0x2000 <= c <= 0x200A
    || c == 0x2028 || c == 0x2029 || c == 0x202F || c == 0x205F || c == 0x3000
  }

  /** The blanks the decoder trims are the encodings of exactly those characters. */
  lemma {:induction false} BlanksAreWhite(c: Scalar)
    ensures White(c) <==>
            var e := Encoded(c);
            || (|e| == 1 && Blank1(e[0])) || (|e| == 2 && Blank2(e[0], e[1])) || (|e| == 3 && Blank3(e[0], e[1], e[2]))
  {
    if 0x800 <= c < 0x10000 { ThreeByteBlanks(c); }
  }

  lemma {:induction false} ThreeByteBlanks(c: Scalar)
    requires 0x800 <= c < 0x10000
    ensures White(c) <==> Blank3(Encoded(c)[0], Encoded(c)[1], Encoded(c)[2])
  {
    var a, b, d := c / 64 / 64, c / 64 % 64, c % 64;
    assert c == (a * 64 + b) * 64 + d;
  }

  // ---------------------------------------------------------------- soundness

  lemma {:induction false} TwoBytes(c: Scalar, rest: Bytes)
    requires 0x80 <= c < 0x800
    ensures ValidUtf8(Encoded(c) + rest) <==> ValidUtf8(rest)
  {
    var s := Encoded(c) + rest;
    assert 194 <= s[0] < 224 && Continuation(s[1]);
    assert s[2..] == rest;
  }

  lemma {:induction false} ThreeBytes(c: Scalar, rest: Bytes)
    requires 0x800 <= c < 0x10000
    ensures ValidUtf8(Encoded(c) + rest) <==> ValidUtf8(rest)
  {
    var s := Encoded(c) + rest;
    var a, b := c / 64 / 64, c / 64 % 64;
    assert a < 16 && (a == 0 ==> b >= 32) && (a == 13 ==> b < 32);
    assert s[0] == 224 + a && s[1] == 128 + b;
    assert s[3..] == rest;
  }

  lemma {:induction false} FourBytes(c: Scalar, rest: Bytes)
    requires 0x10000 <= c
    ensures ValidUtf8(Encoded(c) + rest) <==> ValidUtf8(rest)
  {
    var s := Encoded(c) + rest;
    var a, b := c / 64 / 64 / 64, c / 64 / 64 % 64;
    assert a < 5 && (a == 0 ==> b >= 16) && (a == 4 ==> b < 16);
    assert s[0] == 240 + a && s[1] == 128 + b;
    assert s[4..] == rest;
  }

  lemma {:induction false} OneCharacter(c: Scalar, rest: Bytes)
    ensures ValidUtf8(Encoded(c) + rest) <==> ValidUtf8(rest)
  {
    if c < 0x80 { assert (Encoded(c) + rest)[1..] == rest; }
    else if c < 0x800 { TwoBytes(c, rest); }
    else if c < 0x10000 { ThreeBytes(c, rest); }
    else { FourBytes(c, rest); }
  }

  lemma {:induction false} TextIsValid(cs: seq<Scalar>)
    ensures ValidUtf8(Text(cs))
  {
    if cs != [] {
      TextIsValid(cs[1..]);
      OneCharacter(cs[0], Text(cs[1..]));
    }
  }

  // ------------------------------------------------------------- completeness

  lemma {:induction false} FirstCharacter(s: Bytes) returns (c: Scalar)
    requires s != [] && ValidUtf8(s)
    ensures |Encoded(c)| <= |s| && s[..|Encoded(c)|] == Encoded(c)
  {
    if s[0] < 128 {
      c := s[0];
    } else if s[0] < 224 {
      c := Word2(s[0] - 192, s[1] - 128);
      Unword(s[0] - 192, s[1] - 128);
    } else if s[0] < 240 {
      var a: nat, b: Six, d: Six := s[0] - 224, s[1] - 128, s[2] - 128;
      ThreeIsScalar(a, b, d);
      c := Word3(a, b, d);
      Unword(a, b);
      Unword(Word2(a, b), d);
    } else {
      var a: nat, b: Six, d: Six, e: Six := s[0] - 240, s[1] - 128, s[2] - 128, s[3] - 128;
      FourIsScalar(a, b, d, e);
      c := Word4(a, b, d, e);
      Unword(a, b);
      Unword(Word2(a, b), d);
      Unword(Word3(a, b, d), e);
    }
  }

  lemma {:induction false} ThreeIsScalar(a: nat, b: Six, c: Six)
    requires a < 16 && (a == 0 ==> b >= 32) && (a == 13 ==> b < 32)
    ensures 0x800 <= Word3(a, b, c) < 0x10000 && !(0xD800 <= Word3(a, b, c) < 0xE000)
  {
  }

  lemma {:induction false} FourIsScalar(a: nat, b: Six, c: Six, d: Six)
    requires a < 5 && (a == 0 ==> b >= 16) && (a == 4 ==> b < 16)
    ensures 0x10000 <= Word4(a, b, c, d) <= 0x10FFFF
  {
  }

  lemma {:induction false} ValidIsText(s: Bytes) returns (cs: seq<Scalar>)
    requires ValidUtf8(s)
    ensures Text(cs) == s
    decreases |s|
  {
    if s == [] {
      cs := [];
    } else {
      var c := FirstCharacter(s);
      var rest := s[|Encoded(c)|..];
      assert s == Encoded(c) + rest;
      OneCharacter(c, rest);
      var tail := ValidIsText(rest);
      cs := [c] + tail;
      assert cs[1..] == tail;
    }
  }

  /** A line is readable if and only if it is the encoding of some text. */
  lemma {:induction false} ValidUtf8Iff(s: Bytes)
    ensures ValidUtf8(s) <==> exists cs: seq<Scalar> :: Text(cs) == s
  {
    if ValidUtf8(s) { var cs := ValidIsText(s); }
    if cs: seq<Scalar> :| Text(cs) == s { TextIsValid(cs); }
  }

  // ------------------------------------------------------------------ trimming

  function DropFirst(cs: seq<Scalar>): seq<Scalar> {
    if cs != [] && White(cs[0]) then DropFirst(cs[1..]) else cs
  }

  function DropLast(cs: seq<Scalar>): seq<Scalar> {
    if cs != [] && White(cs[|cs| - 1]) then DropLast(cs[..|cs| - 1]) else cs
  }

  /** The bytes of a character tell it from every other by their ranges. */
  lemma {:induction false} EncodedRanges(c: Scalar)
    ensures var e := Encoded(c);
            && (|e| == 1 ==> e[0] < 128)
            && (|e| == 2 ==> 194 <= e[0] < 224 && Continuation(e[1]))
            && (|e| == 3 ==> 224 <= e[0] < 240 && Continuation(e[1]) && Continuation(e[2]))
            && (|e| == 4 ==> 240 <= e[0] < 245 && Continuation(e[1]) && Continuation(e[2]) && Continuation(e[3]))
            && 1 <= |e| <= 4
  {
  }

  /** `trim_start` removes exactly the leading white space of a text. */
  lemma {:induction false} TrimStartDrops(cs: seq<Scalar>)
    ensures TrimStart(Text(cs)) == Text(DropFirst(cs))
  {
    if cs != [] {
      FirstOf(Encoded(cs[0]), cs[0], Text(cs[1..]));
      TrimStartDrops(cs[1..]);
    }
  }

  lemma {:induction false} FirstOf(e: Bytes, c: Scalar, rest: Bytes)
    requires e == Encoded(c)
    ensures TrimStart(e + rest) == if White(c) then TrimStart(rest) else e + rest
  {
    EncodedRanges(c);
    BlanksAreWhite(c);
    var s := e + rest;
    assert s[|e|..] == rest;
  }

  lemma {:induction false} TextSnoc(cs: seq<Scalar>, c: Scalar)
    ensures Text(cs + [c]) == Text(cs) + Encoded(c)
  {
    if cs == [] {
      assert cs + [c] == [c];
    } else {
      TextSnoc(cs[1..], c);
      assert (cs + [c])[1..] == cs[1..] + [c];
      Regroup(Encoded(cs[0]), Text(cs[1..]), Encoded(c));
    }
  }

  lemma {:induction false} Regroup(a: Bytes, b: Bytes, c: Bytes)
    ensures a + (b + c) == a + b + c
  {
  }

  /** `trim_end` removes exactly the trailing white space. */
  lemma {:induction false} TrimEndDrops(cs: seq<Scalar>)
    ensures TrimEnd(Text(cs)) == Text(DropLast(cs))
  {
    if cs != [] {
      var front, c := cs[..|cs| - 1], cs[|cs| - 1];
      assert cs == front + [c];
      TextSnoc(front, c);
      LastOf(Text(front), Encoded(c), c);
      TrimEndDrops(front);
    }
  }

  lemma {:induction false} LastOf(rest: Bytes, e: Bytes, c: Scalar)
    requires e == Encoded(c)
    ensures TrimEnd(rest + e) == if White(c) then TrimEnd(rest) else rest + e
  {
    EncodedRanges(c);
    BlanksAreWhite(c);
    var s := rest + e;
    assert s[..|s| - |e|] == rest;
    assert s[|s| - |e|..] == e;
  }
}
