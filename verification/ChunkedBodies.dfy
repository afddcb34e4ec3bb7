/** Bodies as Docker sends them, and bodies cut off in the middle
    (crates/zerovpn-worker/src/docker_stats.rs, `decode_chunked`). */
module ChunkedBodies {
  import opened Common
  import opened Chunked

  // ------------------------------------------------------------ hexadecimal text

  const LOWER_HEX := "0123456789abcdef"
  const UPPER_HEX := "0123456789ABCDEF"

  function LowerDigit(n: nat): Byte
    requires n < 16
  {
    assert |LOWER_HEX| == 16 && LOWER_HEX[n] < 128 as char;
    LOWER_HEX[n] as nat
  }

  function UpperDigit(n: nat): Byte
    requires n < 16
  {
    assert |UPPER_HEX| == 16 && UPPER_HEX[n] < 128 as char;
    UPPER_HEX[n] as nat
  }

  /** The digits are those of the two alphabets, with their places as values. */
  lemma {:induction false} HexDigitIff(b: Byte, n: nat)
    requires n < 16
    ensures HexDigit(b) == Some(n) <==> b == LowerDigit(n) || b == UpperDigit(n)
  {
    if n < 10 {
      assert LowerDigit(n) == 48 + n == UpperDigit(n);
    } else {
      assert LowerDigit(n) == 87 + n && UpperDigit(n) == 55 + n;
    }
  }

  /** `n` in lower-case hexadecimal, without leading zeros. */
  function HexText(n: nat): (t: Bytes)
    ensures t != []
  {
    if n < 16 then [LowerDigit(n)] else HexText(n / 16) + [LowerDigit(n % 16)]
  }

  lemma {:induction false} HexTextValue(n: nat)
    ensures AllHex(HexText(n)) && HexValue(HexText(n)) == n
  {
    HexDigitIff(LowerDigit(n % 16), n % 16);
    var t := HexText(n);
    if n < 16 {
      assert t[..0] == [] && HexValue([]) == 0;
    } else {
      HexTextValue(n / 16);
      assert t[..|t| - 1] == HexText(n / 16);
    }
  }

  /** Hexadecimal digits are ASCII, and so readable. */
  lemma {:induction false} HexIsReadable(s: Bytes)
    requires AllHex(s)
    ensures ValidUtf8(s)
  {
    if s != [] {
      assert HexDigit(s[0]).Some?;
      HexIsReadable(s[1..]);
    }
  }

  /** A line that is just a size in hexadecimal announces that size. */
  lemma {:induction false} HexTextSize(n: nat)
    requires n <= USIZE_MAX
    ensures LineSize(HexText(n)) == Some(n)
  {
    var c := ChunkText(HexText(n), [], []);
    HexTextValue(n);
    HexIsReadable(HexText(n));
    assert Line(c) == HexText(n);
    LineSizeIsExact(c);
  }

  /** `from_str_radix`: digits, at most one plus sign before them, and no overflow. */
  lemma {:induction false} ParseHexIff(s: Bytes, n: nat)
    ensures ParseHex(s) == Some(n) <==>
            exists digits: Bytes ::
              && (s == digits || s == [43] + digits)
              && digits != [] && AllHex(digits) && HexValue(digits) == n <= USIZE_MAX
  {
    if digits: Bytes :| (s == digits || s == [43] + digits) && digits != [] && AllHex(digits) && HexValue(digits) == n <= USIZE_MAX {
      assert HexDigit(digits[0]).Some?;
      assert s == [43] + digits ==> s[1..] == digits;
    }
    if ParseHex(s) == Some(n) {
      var digits := if s != [] && s[0] == 43 then s[1..] else s;
      assert s == digits || s == [43] + digits;
    }
  }

  // ------------------------------------------------------------- Docker's bodies

  function Joined(parts: seq<Bytes>): Bytes {
    if parts == [] then [] else parts[0] + Joined(parts[1..])
  }

  /** Each part behind its length, and an empty chunk at the end. */
  function Sent(parts: seq<Bytes>): Bytes {
    if parts == [] then [48, CR, LF, CR, LF]
    else HexText(|parts[0]|) + [CR, LF] + parts[0] + [CR, LF] + Sent(parts[1..])
  }

  function Chunks(parts: seq<Bytes>): seq<ChunkText> {
    seq(|parts|, i requires 0 <= i < |parts| => ChunkText(HexText(|parts[i]|), [], parts[i]))
  }

  const END := ChunkText([48], [], [])

  lemma {:induction false} SentIsEncoded(parts: seq<Bytes>)
    ensures Sent(parts) == Encode(Chunks(parts), END, [CR, LF])
    ensures Joined(parts) == AllData(Chunks(parts))
  {
    if parts != [] {
      var cs := Chunks(parts);
      SentIsEncoded(parts[1..]);
      assert cs[1..] == Chunks(parts[1..]);
      assert Line(cs[0]) == HexText(|parts[0]|);
    } else {
      assert Chunks(parts) == [];
      assert Line(END) + [CR, LF] + [CR, LF] == [48, CR, LF, CR, LF];
    }
  }

  /** Round trip: whatever non-empty parts are sent, decoding returns them joined. */
  lemma {:induction false} DecodeSent(parts: seq<Bytes>)
    requires forall i :: 0 <= i < |parts| ==> parts[i] != []
    requires |Sent(parts)| <= USIZE_MAX
    ensures Decode(Sent(parts)) == Decoded(Joined(parts))
  {
    var cs := Chunks(parts);
    SentIsEncoded(parts);
    forall k | 0 <= k < |cs| ensures ChunkOk(cs[k]) && ValidUtf8(Line(cs[k])) {
      HexTextValue(|parts[k]|);
      HexIsReadable(HexText(|parts[k]|));
      assert Line(cs[k]) == HexText(|parts[k]|);
    }
    assert [48][..0] == [] && HexValue([]) == 0 && LastOk(END);
    DecodeIsExactIff(cs, END, [CR, LF]);
  }

  // ------------------------------------------------------------------ cut bodies

  /** Whole chunks on the wire, with whatever follows them. */
  function Wire(chunks: seq<ChunkText>, tail: Bytes): Bytes {
    if chunks == [] then tail
    else Line(chunks[0]) + [CR, LF] + chunks[0].data + [CR, LF] + Wire(chunks[1..], tail)
  }

  ghost predicate AllRead(sizeOf: Bytes -> Option<nat>, chunks: seq<ChunkText>) {
    forall k :: 0 <= k < |chunks| ==> ChunkOk(chunks[k]) && ValidUtf8(Line(chunks[k])) && Reads(sizeOf, chunks[k])
  }

  lemma {:induction false} WholeChunksFirst(s: Bytes, i: nat, chunks: seq<ChunkText>, tail: Bytes, sizeOf: Bytes -> Option<nat>)
    requires |s| <= USIZE_MAX && i <= |s| && s[i..] == Wire(chunks, tail)
    requires AllRead(sizeOf, chunks)
    ensures |tail| <= |s|
    ensures DecodeFrom(s, i, sizeOf) == Prepend(AllData(chunks), DecodeFrom(s, |s| - |tail|, sizeOf))
    decreases |chunks|
  {
    if chunks == [] {
      assert i == |s| - |tail|;
      EmptyPrepend(DecodeFrom(s, i, sizeOf));
    } else {
      var c := chunks[0];
      assert ChunkOk(c) && ValidUtf8(Line(c)) && Reads(sizeOf, c);
      var j := FirstChunk(s, i, c, Wire(chunks[1..], tail), sizeOf);
      WholeChunksFirst(s, j, chunks[1..], tail, sizeOf);
      PrependTwice(c.data, AllData(chunks[1..]), DecodeFrom(s, |s| - |tail|, sizeOf));
    }
  }

  lemma {:induction false} FirstChunk(s: Bytes, i: nat, c: ChunkText, rest: Bytes, sizeOf: Bytes -> Option<nat>) returns (j: nat)
    requires |s| <= USIZE_MAX && i <= |s| && ChunkOk(c) && Reads(sizeOf, c) && ValidUtf8(Line(c))
    requires s[i..] == Line(c) + [CR, LF] + c.data + [CR, LF] + rest
    ensures j <= |s| && s[j..] == rest
    ensures DecodeFrom(s, i, sizeOf) == Prepend(c.data, DecodeFrom(s, j, sizeOf))
  {
    ChunkStep(s, i, c, rest, sizeOf);
    OneChunk(s, i, c.data, sizeOf);
    j := NextChunk(s, i, sizeOf).end + 2;
  }

  lemma {:induction false} OneChunk(s: Bytes, i: nat, data: Bytes, sizeOf: Bytes -> Option<nat>)
    requires i < |s| && NextChunk(s, i, sizeOf).Chunk?
    requires var n := NextChunk(s, i, sizeOf); s[n.start..n.end] == data
    ensures DecodeFrom(s, i, sizeOf) == Prepend(data, DecodeFrom(s, NextChunk(s, i, sizeOf).end + 2, sizeOf))
  {
  }

  lemma {:induction false} NoChunk(s: Bytes, i: nat, sizeOf: Bytes -> Option<nat>)
    requires i < |s| ==> NextChunk(s, i, sizeOf) == Stop
    ensures DecodeFrom(s, i, sizeOf) == Decoded([])
  {
  }

  lemma {:induction false} EmptyPrepend(d: Decoded)
    ensures Prepend([], d) == d
  {
    if d.Decoded? { assert [] + d.bytes == d.bytes; }
  }

  /** A body that breaks off inside a chunk decodes to the whole chunks before it, and so
      does one that breaks off inside a chunk line. */
  lemma {:induction false} CutBodyKeepsWholeChunks(chunks: seq<ChunkText>, c: ChunkText, part: Bytes)
    requires forall k :: 0 <= k < |chunks| ==> ChunkOk(chunks[k]) && ValidUtf8(Line(chunks[k]))
    requires ChunkOk(c) && |part| < |c.data|
    requires |Wire(chunks, Line(c) + [CR, LF] + part)| + |c.data| <= USIZE_MAX
    ensures Decode(Wire(chunks, Line(c) + [CR, LF] + part)) == Decoded(AllData(chunks))
    ensures Decode(Wire(chunks, Line(c))) == Decoded(AllData(chunks))
  {
    var cut := Line(c) + [CR, LF] + part;
    WireLength(chunks, cut, Line(c));
    forall k | 0 <= k < |chunks| ensures Reads(LineSize, chunks[k]) {
      WireHolds(chunks, cut, k);
      LineSizeIsExact(chunks[k]);
    }
    LineSizeIsExact(c);
    CutTail(chunks, c, part, LineSize);
    LineTail(chunks, c, LineSize);
  }

  lemma {:induction false} WireHolds(chunks: seq<ChunkText>, tail: Bytes, k: nat)
    requires k < |chunks|
    ensures |chunks[k].data| <= |Wire(chunks, tail)|
  {
    if k > 0 { WireHolds(chunks[1..], tail, k - 1); }
  }

  lemma {:induction false} WireLength(chunks: seq<ChunkText>, a: Bytes, b: Bytes)
    ensures |Wire(chunks, a)| - |a| == |Wire(chunks, b)| - |b| >= 0
  {
    if chunks != [] { WireLength(chunks[1..], a, b); }
  }

  lemma {:induction false} CutTail(chunks: seq<ChunkText>, c: ChunkText, part: Bytes, sizeOf: Bytes -> Option<nat>)
    requires AllRead(sizeOf, chunks) && ChunkOk(c) && Reads(sizeOf, c) && |part| < |c.data|
    requires |Wire(chunks, Line(c) + [CR, LF] + part)| + |c.data| <= USIZE_MAX
    ensures DecodeFrom(Wire(chunks, Line(c) + [CR, LF] + part), 0, sizeOf) == Decoded(AllData(chunks))
  {
    var tail := Line(c) + [CR, LF] + part;
    var s := Wire(chunks, tail);
    assert s[0..] == s;
    WholeChunksFirst(s, 0, chunks, tail, sizeOf);
    var i := |s| - |tail|;
    WireEnds(chunks, tail);
    CutStops(s, i, c, part, sizeOf);
    NoChunk(s, i, sizeOf);
    assert AllData(chunks) + [] == AllData(chunks);
  }

  lemma {:induction false} CutStops(s: Bytes, i: nat, c: ChunkText, part: Bytes, sizeOf: Bytes -> Option<nat>)
    requires i < |s| && s[i..] == Line(c) + [CR, LF] + part && |s| + |c.data| <= USIZE_MAX
    requires ChunkOk(c) && Reads(sizeOf, c) && |part| < |c.data|
    ensures NextChunk(s, i, sizeOf) == Stop
  {
    LineHasNoCr(c);
    FindLineEnd(s, i, Line(c), part);
    assert s[i..i + |Line(c)|] == s[i..][..|Line(c)|] == Line(c);
  }

  lemma {:induction false} LineTail(chunks: seq<ChunkText>, c: ChunkText, sizeOf: Bytes -> Option<nat>)
    requires AllRead(sizeOf, chunks) && ChunkOk(c) && |Wire(chunks, Line(c))| <= USIZE_MAX
    ensures DecodeFrom(Wire(chunks, Line(c)), 0, sizeOf) == Decoded(AllData(chunks))
  {
    var s := Wire(chunks, Line(c));
    assert s[0..] == s;
    WholeChunksFirst(s, 0, chunks, Line(c), sizeOf);
    var i := |s| - |Line(c)|;
    WireEnds(chunks, Line(c));
    LineHasNoCr(c);
    NoCrNoLine(s, i);
    NoChunk(s, i, sizeOf);
    assert AllData(chunks) + [] == AllData(chunks);
  }

  lemma {:induction false} WireEnds(chunks: seq<ChunkText>, tail: Bytes)
    ensures |tail| <= |Wire(chunks, tail)| && Wire(chunks, tail)[|Wire(chunks, tail)| - |tail|..] == tail
  {
    if chunks != [] {
      WireEnds(chunks[1..], tail);
      var rest := Wire(chunks[1..], tail);
      var head := Line(chunks[0]) + [CR, LF] + chunks[0].data + [CR, LF];
      assert Wire(chunks, tail) == head + rest;
      assert (head + rest)[|head| + |rest| - |tail|..] == rest[|rest| - |tail|..];
    }
  }

  lemma {:induction false} NoCrNoLine(s: Bytes, i: nat)
    requires i <= |s| && CR !in s[i..]
    ensures FindCrlf(s, i).None?
    decreases |s| - i
  {
    if i + 1 < |s| {
      assert s[i] == s[i..][0] && s[i..][0] in s[i..];
      assert s[i + 1..] == s[i..][1..];
      NoCrNoLine(s, i + 1);
    }
  }
}
