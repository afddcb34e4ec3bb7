/** The chunked-body decoder (crates/zerovpn-worker/src/docker_stats.rs, `decode_chunked`)
    against section 7.1 of RFC 9112. */
module Chunked {
  import opened Common

  type Byte = n: nat | n < 256
  type Bytes = seq<Byte>

  const CR: Byte := 13
  const LF: Byte := 10
  const SEMICOLON: Byte := 59
  const USIZE_MAX := 0xFFFF_FFFF_FFFF_FFFF

  // ------------------------------------------------------ library behaviour used

  /** `windows(2).position(== CRLF)`, from `i`: the first CRLF at or after `i`. */
  function FindCrlf(s: Bytes, i: nat): (r: Option<nat>)
    requires i <= |s|
    ensures r.Some? ==> i <= r.value && r.value + 1 < |s| && s[r.value] == CR && s[r.value + 1] == LF
    decreases |s| - i
  {
    if i + 1 >= |s| then None
    else if s[i] == CR && s[i + 1] == LF then Some(i)
    else FindCrlf(s, i + 1)
  }

  predicate CrlfAt(s: Bytes, k: nat) {
    k + 1 < |s| && s[k] == CR && s[k + 1] == LF
  }

  /** It is the first one, and None means there is none. */
  lemma {:induction false} FindCrlfIsFirst(s: Bytes, i: nat, k: nat)
    requires i <= k && CrlfAt(s, k)
    ensures FindCrlf(s, i).Some? && FindCrlf(s, i).value <= k
    decreases |s| - i
  {
    if i < k { FindCrlfIsFirst(s, i + 1, k); }
  }

  predicate Continuation(b: Byte) { 128 <= b < 192 }

  /** `str::from_utf8` succeeds. */
  predicate ValidUtf8(s: Bytes) {
    if s == [] then true
    else if s[0] < 128 then ValidUtf8(s[1..])
    else if 194 <= s[0] < 224 then |s| >= 2 && Continuation(s[1]) && ValidUtf8(s[2..])
    else if 224 <= s[0] < 240 then
      && |s| >= 3 && Continuation(s[1]) && Continuation(s[2])
      && (s[0] == 224 ==> s[1] >= 160) && (s[0] == 237 ==> s[1] < 160) && ValidUtf8(s[3..])
    else if 240 <= s[0] < 245 then
      && |s| >= 4 && Continuation(s[1]) && Continuation(s[2]) && Continuation(s[3])
      && (s[0] == 240 ==> s[1] >= 144) && (s[0] == 244 ==> s[1] < 144) && ValidUtf8(s[4..])
    else false
  }

  /** `split(';').next()`. */
  function BeforeSemicolon(s: Bytes): Bytes {
    if s == [] || s[0] == SEMICOLON then [] else [s[0]] + BeforeSemicolon(s[1..])
  }

  /** One-, two- and three-byte encodings of the characters `trim` removes. */
  predicate Blank1(a: Byte) { a == 32 || 9 <= a <= 13 }

  predicate Blank2(a: Byte, b: Byte) { a == 194 && (b == 133 || b == 160) }

  predicate Blank3(a: Byte, b: Byte, c: Byte) {
    || (a == 225 && b == 154 && c == 128)
    || (a == 226 && b == 128 && (128 <= c <= 138 || c == 168 || c == 169 || c == 175))
    || (a == 226 && b == 129 && c == 159)
    || (a == 227 && b == 128 && c == 128)
  }

  function TrimStart(s: Bytes): Bytes {
    if |s| >= 1 && Blank1(s[0]) then TrimStart(s[1..])
    else if |s| >= 2 && Blank2(s[0], s[1]) then TrimStart(s[2..])
    else if |s| >= 3 && Blank3(s[0], s[1], s[2]) then TrimStart(s[3..])
    else s
  }

  function TrimEnd(s: Bytes): Bytes {
    var n := |s|;
    if n >= 1 && Blank1(s[n - 1]) then TrimEnd(s[..n - 1])
    else if n >= 2 && Blank2(s[n - 2], s[n - 1]) then TrimEnd(s[..n - 2])
    else if n >= 3 && Blank3(s[n - 3], s[n - 2], s[n - 1]) then TrimEnd(s[..n - 3])
    else s
  }

  function HexDigit(b: Byte): Option<nat> {
    if 48 <= b <= 57 then Some(b - 48)
    else if 65 <= b <= 70 then Some(b - 55)
    else if 97 <= b <= 102 then Some(b - 87)
    else None
  }

  predicate AllHex(s: Bytes) { forall i :: 0 <= i < |s| ==> HexDigit(s[i]).Some? }

  function HexValue(s: Bytes): nat
    requires AllHex(s)
  {
    if s == [] then 0 else HexValue(s[..|s| - 1]) * 16 + HexDigit(s[|s| - 1]).value
  }

  /** `usize::from_str_radix(_, 16)`: an optional plus sign, digits, no overflow. */
  function ParseHex(s: Bytes): Option<nat> {
    var body := if s != [] && s[0] == 43 then s[1..] else s;
    if body == [] || !AllHex(body) || HexValue(body) > USIZE_MAX then None else Some(HexValue(body))
  }

  /** The size a chunk line announces, or None if the decoder gives up on it. */
  function LineSize(line: Bytes): Option<nat> {
    var text := if ValidUtf8(line) then line else [];
    ParseHex(TrimEnd(TrimStart(BeforeSemicolon(text))))
  }

  // -------------------------------------------------------------------- decoder

  /** What the decoder finds at a position: nothing more to decode, a chunk size that
      overflows the index (a panic), or the bounds of a chunk's data. */
  datatype Next = Stop | Overflow | Chunk(start: nat, end: nat)

  /** `sizeOf` reads the size off a chunk line. */
  function NextChunk(s: Bytes, i: nat, sizeOf: Bytes -> Option<nat>): (n: Next)
    requires i < |s|
    ensures n.Chunk? ==> i + 2 <= n.start < n.end <= |s|
  {
    var line := FindCrlf(s, i);
    if line.None? then Stop
    else
      var size := sizeOf(s[i..line.value]);
      var start := line.value + 2;
      if size.None? || size.value == 0 then Stop
      else if start + size.value > USIZE_MAX then Overflow
      else if start + size.value > |s| then Stop
      else Chunk(start, start + size.value)
  }

  /** A panic is an outcome of its own, not a result. */
  datatype Decoded = Decoded(bytes: Bytes) | Panicked

  function Prepend(out: Bytes, d: Decoded): Decoded {
    if d.Panicked? then Panicked else Decoded(out + d.bytes)
  }

  /** What the loop yields from position `i` on. */
  function DecodeFrom(s: Bytes, i: nat, sizeOf: Bytes -> Option<nat>): Decoded
    decreases |s| - i
  {
    if i >= |s| then Decoded([])
    else match NextChunk(s, i, sizeOf)
      case Stop => Decoded([])
      case Overflow => Panicked
      case Chunk(start, end) => Prepend(s[start..end], DecodeFrom(s, end + 2, sizeOf))
  }

  /** The loop of `decode_chunked`. It terminates on every input and never reads outside it. */
  method DecodeLoop(s: Bytes, sizeOf: Bytes -> Option<nat>) returns (r: Decoded)
    ensures r == DecodeFrom(s, 0, sizeOf)
  {
    var out: Bytes := [];
    var i := 0;
    ghost var result := DecodeFrom(s, i, sizeOf);
    assert Prepend([], result) == result;
    while i < |s|
      invariant result == Prepend(out, DecodeFrom(s, i, sizeOf))
      decreases |s| - i
    {
      var next := NextChunk(s, i, sizeOf);
      if next.Stop? { break; }
      if next.Overflow? { return Panicked; }
      DecodeStep(s, i, sizeOf, out);
      out := out + s[next.start..next.end];
      i := next.end + 2;
    }
    assert out + [] == out;
    return Decoded(out);
  }

  function Decode(s: Bytes): Decoded {
    DecodeFrom(s, 0, LineSize)
  }

  /** `decode_chunked`. */
  method DecodeChunked(s: Bytes) returns (r: Decoded)
    ensures r == Decode(s)
  {
    r := DecodeLoop(s, LineSize);
  }

  lemma {:induction false} DecodeStep(s: Bytes, i: nat, sizeOf: Bytes -> Option<nat>, out: Bytes)
    requires i < |s| && NextChunk(s, i, sizeOf).Chunk?
    ensures var n := NextChunk(s, i, sizeOf);
            Prepend(out, DecodeFrom(s, i, sizeOf)) == Prepend(out + s[n.start..n.end], DecodeFrom(s, n.end + 2, sizeOf))
  {
    var n := NextChunk(s, i, sizeOf);
    PrependTwice(out, s[n.start..n.end], DecodeFrom(s, n.end + 2, sizeOf));
  }

  lemma {:induction false} PrependTwice(a: Bytes, b: Bytes, d: Decoded)
    ensures Prepend(a, Prepend(b, d)) == Prepend(a + b, d)
  {
    if d.Decoded? { assert a + (b + d.bytes) == a + b + d.bytes; }
  }

  // -------------------------------------------- well-formed bodies (RFC 9112, 7.1)

  /** A chunk: its size in hexadecimal, whatever extension follows on the line (empty, or
      optional blanks and a semicolon first), and its data. */
  datatype ChunkText = ChunkText(hex: Bytes, extension: Bytes, data: Bytes)

  predicate SpaceOrTab(b: Byte) { b == 32 || b == 9 }

  /** `chunk-ext`: nothing, or optional blanks, a semicolon, and text free of line ends. */
  predicate Extension(s: Bytes) {
    s == [] || (s[0] == SEMICOLON && CR !in s) || (SpaceOrTab(s[0]) && |s| > 1 && Extension(s[1..]))
  }

  predicate ChunkOk(c: ChunkText) {
    && c.hex != [] && AllHex(c.hex) && HexValue(c.hex) == |c.data| && c.data != []
    && Extension(c.extension)
  }

  predicate LastOk(c: ChunkText) {
    c.hex != [] && AllHex(c.hex) && HexValue(c.hex) == 0 && Extension(c.extension)
  }

  function Line(c: ChunkText): Bytes {
    c.hex + c.extension
  }

  /** The body on the wire: chunks, the last chunk, then any trailer section. */
  function Encode(chunks: seq<ChunkText>, last: ChunkText, trailer: Bytes): Bytes {
    if chunks == [] then Line(last) + [CR, LF] + trailer
    else Line(chunks[0]) + [CR, LF] + chunks[0].data + [CR, LF] + Encode(chunks[1..], last, trailer)
  }

  /** The data of the chunks before the first whose line is not UTF-8. */
  function Readable(chunks: seq<ChunkText>): Bytes {
    if chunks == [] || !ValidUtf8(Line(chunks[0])) then [] else chunks[0].data + Readable(chunks[1..])
  }

  function AllData(chunks: seq<ChunkText>): Bytes {
    if chunks == [] then [] else chunks[0].data + AllData(chunks[1..])
  }

  // ---------------------------------------------------- reading one chunk line

  lemma {:induction false} ExtensionHasNoCr(s: Bytes)
    requires Extension(s)
    ensures CR !in s
  {
    if s != [] && s[0] != SEMICOLON {
      ExtensionHasNoCr(s[1..]);
      assert s == [s[0]] + s[1..];
    }
  }

  /** What precedes the semicolon on a chunk line is the size and blanks. */
  lemma {:induction false} SizePart(hex: Bytes, ext: Bytes)
    requires AllHex(hex) && Extension(ext)
    ensures BeforeSemicolon(hex + ext) == hex + BeforeSemicolon(ext)
    ensures forall i :: 0 <= i < |BeforeSemicolon(ext)| ==> SpaceOrTab(BeforeSemicolon(ext)[i])
  {
    if hex != [] {
      SizePart(hex[1..], ext);
      assert (hex + ext)[1..] == hex[1..] + ext;
      assert hex == [hex[0]] + hex[1..];
      assert HexDigit(hex[0]).Some?;
    } else {
      assert hex + ext == ext;
      if ext != [] && ext[0] != SEMICOLON { SizePart(hex, ext[1..]); assert hex + ext[1..] == ext[1..]; }
    }
  }

  lemma {:induction false} TrimEndBlanks(hex: Bytes, blanks: Bytes)
    requires hex != [] && AllHex(hex)
    requires forall i :: 0 <= i < |blanks| ==> SpaceOrTab(blanks[i])
    ensures TrimEnd(hex + blanks) == hex
  {
    var s := hex + blanks;
    var n := |s|;
    if blanks == [] {
      assert s == hex && s[n - 1] == hex[|hex| - 1] && HexDigit(hex[|hex| - 1]).Some?;
    } else {
      assert s[n - 1] == blanks[|blanks| - 1];
      TrimEndBlanks(hex, blanks[..|blanks| - 1]);
      assert s[..n - 1] == hex + blanks[..|blanks| - 1];
    }
  }

  /** A chunk line that is UTF-8 is read as its size; any other is refused. */
  lemma {:induction false} LineSizeIsExact(c: ChunkText)
    requires c.hex != [] && AllHex(c.hex) && Extension(c.extension)
    ensures !ValidUtf8(Line(c)) ==> LineSize(Line(c)).None?
    ensures ValidUtf8(Line(c)) && HexValue(c.hex) <= USIZE_MAX ==> LineSize(Line(c)) == Some(HexValue(c.hex))
  {
    if ValidUtf8(Line(c)) {
      SizePart(c.hex, c.extension);
      var blanks := BeforeSemicolon(c.extension);
      var part := c.hex + blanks;
      assert part[0] == c.hex[0] && HexDigit(c.hex[0]).Some?;
      assert TrimStart(part) == part;
      TrimEndBlanks(c.hex, blanks);
    } else {
      assert BeforeSemicolon([]) == [] && TrimStart([]) == [] && TrimEnd([]) == [];
    }
  }

  lemma {:induction false} LineHasNoCr(c: ChunkText)
    requires AllHex(c.hex) && Extension(c.extension)
    ensures CR !in Line(c)
  {
    ExtensionHasNoCr(c.extension);
  }

  lemma {:induction false} FindLineEnd(s: Bytes, i: nat, line: Bytes, rest: Bytes)
    requires i <= |s| && s[i..] == line + [CR, LF] + rest && CR !in line
    ensures FindCrlf(s, i) == Some(i + |line|)
  {
    var t := line + [CR, LF] + rest;
    var e := i + |line|;
    assert |s| == i + |t|;
    assert forall k :: i <= k < |s| ==> s[k] == s[i..][k - i] == t[k - i];
    assert t[|line|] == CR && t[|line| + 1] == LF && s[e] == CR && s[e + 1] == LF;
    assert forall k :: i <= k < e ==> s[k] == line[k - i] && line[k - i] in line && s[k] != CR;
    FindCrlfIsFirst(s, i, e);
  }

  // ------------------------------------------------------------------- round trip

  /** `sizeOf` reads exactly the lines `readable` says it can. */
  ghost predicate Reads(sizeOf: Bytes -> Option<nat>, c: ChunkText) {
    sizeOf(Line(c)) == if ValidUtf8(Line(c)) then Some(|c.data|) else None
  }

  lemma {:induction false} DecodeEncoded(s: Bytes, i: nat, chunks: seq<ChunkText>, last: ChunkText, trailer: Bytes,
                                         sizeOf: Bytes -> Option<nat>)
    requires |s| <= USIZE_MAX && i <= |s| && s[i..] == Encode(chunks, last, trailer)
    requires forall k :: 0 <= k < |chunks| ==> ChunkOk(chunks[k]) && Reads(sizeOf, chunks[k])
    requires AllHex(last.hex) && Extension(last.extension) && sizeOf(Line(last)) in {Some(0), None}
    ensures DecodeFrom(s, i, sizeOf) == Decoded(Readable(chunks))
    decreases |chunks|
  {
    if chunks == [] {
      LineHasNoCr(last);
      FindLineEnd(s, i, Line(last), trailer);
      assert s[i..i + |Line(last)|] == s[i..][..|Line(last)|] == Line(last);
    } else {
      var c, rest := chunks[0], Encode(chunks[1..], last, trailer);
      assert ChunkOk(c) && Reads(sizeOf, c);
      ChunkStep(s, i, c, rest, sizeOf);
      if ValidUtf8(Line(c)) {
        var n := NextChunk(s, i, sizeOf);
        DecodeEncoded(s, n.end + 2, chunks[1..], last, trailer, sizeOf);
      }
    }
  }

  /** One chunk on the wire is found, delimited and stepped over exactly. */
  lemma {:induction false} ChunkStep(s: Bytes, i: nat, c: ChunkText, rest: Bytes, sizeOf: Bytes -> Option<nat>)
    requires |s| <= USIZE_MAX && i <= |s| && ChunkOk(c) && Reads(sizeOf, c)
    requires s[i..] == Line(c) + [CR, LF] + c.data + [CR, LF] + rest
    ensures i < |s|
    ensures !ValidUtf8(Line(c)) ==> NextChunk(s, i, sizeOf) == Stop
    ensures ValidUtf8(Line(c)) ==>
              var n := NextChunk(s, i, sizeOf);
              n.Chunk? && s[n.start..n.end] == c.data && n.end + 2 <= |s| && s[n.end + 2..] == rest
  {
    LineHasNoCr(c);
    assert s[i..] == Line(c) + [CR, LF] + (c.data + [CR, LF] + rest);
    FindLineEnd(s, i, Line(c), c.data + [CR, LF] + rest);
    WireSlices(s, i, Line(c), c.data, rest);
  }

  lemma {:induction false} WireSlices(s: Bytes, i: nat, line: Bytes, data: Bytes, rest: Bytes)
    requires i <= |s| && s[i..] == line + [CR, LF] + data + [CR, LF] + rest
    ensures var start := i + |line| + 2;
            && start + |data| + 2 <= |s|
            && s[i..i + |line|] == line
            && s[start..start + |data|] == data
            && s[start + |data| + 2..] == rest
  {
    var t := s[i..];
    var start := |line| + 2;
    assert s[i..i + |line|] == t[..|line|] == line;
    assert s[i + start..i + start + |data|] == t[start..start + |data|] == data;
    assert s[i + start + |data| + 2..] == t[start + |data| + 2..] == rest;
  }

  /** For every well-formed body: decoding returns exactly the data of the chunks before
      the first whose line is not UTF-8, and never panics. */
  lemma {:induction false} DecodeReturnsReadableData(chunks: seq<ChunkText>, last: ChunkText, trailer: Bytes)
    requires forall k :: 0 <= k < |chunks| ==> ChunkOk(chunks[k])
    requires LastOk(last) && |Encode(chunks, last, trailer)| <= USIZE_MAX
    ensures Decode(Encode(chunks, last, trailer)) == Decoded(Readable(chunks))
  {
    var s := Encode(chunks, last, trailer);
    assert s[0..] == s;
    forall k | 0 <= k < |chunks| ensures Reads(LineSize, chunks[k]) {
      DataFits(chunks, last, trailer, k);
      LineSizeIsExact(chunks[k]);
    }
    LineSizeIsExact(last);
    DecodeEncoded(s, 0, chunks, last, trailer, LineSize);
  }

  lemma {:induction false} DataFits(chunks: seq<ChunkText>, last: ChunkText, trailer: Bytes, k: nat)
    requires k < |chunks|
    ensures |chunks[k].data| <= |Encode(chunks, last, trailer)|
  {
    if k > 0 { DataFits(chunks[1..], last, trailer, k - 1); }
  }

  /** So the decoder is exact on a well-formed body if and only if every chunk line is
      UTF-8. The grammar also allows bytes above 127 in a quoted extension value that are
      not; such a body is cut short. */
  lemma {:induction false} DecodeIsExactIff(chunks: seq<ChunkText>, last: ChunkText, trailer: Bytes)
    requires forall k :: 0 <= k < |chunks| ==> ChunkOk(chunks[k])
    requires LastOk(last) && |Encode(chunks, last, trailer)| <= USIZE_MAX
    ensures Decode(Encode(chunks, last, trailer)) == Decoded(AllData(chunks))
       <==> forall k :: 0 <= k < |chunks| ==> ValidUtf8(Line(chunks[k]))
  {
    DecodeReturnsReadableData(chunks, last, trailer);
    ReadableIsAllIff(chunks);
  }

  lemma {:induction false} ReadableIsAllIff(chunks: seq<ChunkText>)
    requires forall k :: 0 <= k < |chunks| ==> ChunkOk(chunks[k])
    ensures Readable(chunks) == AllData(chunks) <==> forall k :: 0 <= k < |chunks| ==> ValidUtf8(Line(chunks[k]))
    ensures |Readable(chunks)| <= |AllData(chunks)|
  {
    if chunks != [] {
      var c, tail := chunks[0], chunks[1..];
      ReadableIsAllIff(tail);
      assert ChunkOk(c);
      if ValidUtf8(Line(c)) {
        assert Readable(chunks) == c.data + Readable(tail) && AllData(chunks) == c.data + AllData(tail);
        assert (c.data + Readable(tail))[|c.data|..] == Readable(tail);
        assert (c.data + AllData(tail))[|c.data|..] == AllData(tail);
        assert forall k :: 0 < k < |chunks| ==> chunks[k] == tail[k - 1];
        assert forall k :: 0 <= k < |tail| ==> tail[k] == chunks[k + 1];
      }
    }
  }

  /** Reaching a position by decoding whole chunks from `i`. */
  ghost predicate Reaches(s: Bytes, i: nat, j: nat, sizeOf: Bytes -> Option<nat>)
    decreases |s| - i
  {
    i == j || (i < |s| && NextChunk(s, i, sizeOf).Chunk? && Reaches(s, NextChunk(s, i, sizeOf).end + 2, j, sizeOf))
  }

  /** At `j` stands a line, up to the first CRLF, whose size carries the index past the
      address space. */
  ghost predicate OverflowsAt(s: Bytes, j: nat, sizeOf: Bytes -> Option<nat>) {
    j < |s| && FindCrlf(s, j).Some? &&
    var e := FindCrlf(s, j).value;
    var size := sizeOf(s[j..e]);
    size.Some? && size.value > 0 && e + 2 + size.value > USIZE_MAX
  }

  /** The decoder is documented as never panicking mid-tick. It does, exactly when a chunk
      line it reaches announces a size that carries the index past the address space. */
  lemma {:induction false} PanicsIff(s: Bytes, i: nat, sizeOf: Bytes -> Option<nat>)
    ensures DecodeFrom(s, i, sizeOf).Panicked?
       <==> exists j: nat :: Reaches(s, i, j, sizeOf) && OverflowsAt(s, j, sizeOf)
    decreases |s| - i
  {
    if i < |s| && NextChunk(s, i, sizeOf).Chunk? {
      var next := NextChunk(s, i, sizeOf).end + 2;
      PanicsIff(s, next, sizeOf);
      if DecodeFrom(s, i, sizeOf).Panicked? {
        var j: nat :| Reaches(s, next, j, sizeOf) && OverflowsAt(s, j, sizeOf);
        assert Reaches(s, i, j, sizeOf);
      }
    } else if i < |s| && NextChunk(s, i, sizeOf) == Overflow {
      assert Reaches(s, i, i, sizeOf) && OverflowsAt(s, i, sizeOf);
    }
  }

  lemma {:induction false} LargestSizePanics(line: Bytes, rest: Bytes)
    requires CR !in line && LineSize(line) == Some(USIZE_MAX)
    ensures Decode(line + [CR, LF] + rest) == Panicked
  {
    var s := line + [CR, LF] + rest;
    assert s[0..] == s;
    FindLineEnd(s, 0, line, rest);
    assert s[0..|line|] == line;
  }

  lemma {:induction false} AllF(s: Bytes)
    requires forall i :: 0 <= i < |s| ==> s[i] == 70
    ensures ValidUtf8(s) && BeforeSemicolon(s) == s && TrimEnd(TrimStart(s)) == s && AllHex(s)
    decreases |s|
  {
    if s != [] { AllF(s[1..]); }
  }

  function Fs(n: nat): Bytes {
    seq(n, _ => 70)
  }

  function Pow16(n: nat): nat {
    if n == 0 then 1 else 16 * Pow16(n - 1)
  }

  lemma {:induction false} HexOfFs(n: nat)
    ensures AllHex(Fs(n)) && HexValue(Fs(n)) == Pow16(n) - 1
  {
    if n > 0 {
      HexOfFs(n - 1);
      assert Fs(n)[..n - 1] == Fs(n - 1);
    }
  }

  lemma {:induction false} SixteenFIsLargest()
    ensures LineSize(Fs(16)) == Some(USIZE_MAX)
  {
    AllF(Fs(16));
    HexOfFs(16);
    assert Pow16(4) == 65536;
    assert Pow16(8) == 65536 * 65536;
    assert Pow16(12) == 65536 * 65536 * 65536;
    assert Pow16(16) == USIZE_MAX + 1;
  }

  /** For example any body that starts with the line FFFFFFFFFFFFFFFF. */
  lemma {:induction false} SixteenFPanics(rest: Bytes)
    ensures Decode(Fs(16) + [CR, LF] + rest) == Panicked
  {
    SixteenFIsLargest();
    LargestSizePanics(Fs(16), rest);
  }

  lemma {:induction false} NotUtf8After(ascii: Bytes, rest: Bytes)
    requires (forall i :: 0 <= i < |ascii| ==> ascii[i] < 128) && rest != [] && rest[0] == 255
    ensures !ValidUtf8(ascii + rest)
    decreases |ascii|
  {
    if ascii != [] {
      NotUtf8After(ascii[1..], rest);
      assert (ascii + rest)[1..] == ascii[1..] + rest;
    }
  }

  /** And a one-chunk body whose quoted extension value holds the byte 255 decodes to nothing. */
  lemma {:induction false} ObsTextExtensionCutsBody(x: Byte, last: ChunkText, trailer: Bytes)
    requires LastOk(last)
    ensures var c := ChunkText([49], [59, 97, 61, 34, 255, 34], [x]);
            && ChunkOk(c)
            && (|Encode([c], last, trailer)| <= USIZE_MAX ==> Decode(Encode([c], last, trailer)) == Decoded([]))
  {
    var c := ChunkText([49], [59, 97, 61, 34, 255, 34], [x]);
    assert [49][..0] == [];
    assert HexValue([]) == 0 && HexValue([49]) == 1;
    assert Line(c) == [49, 59, 97, 61, 34] + [255, 34];
    NotUtf8After([49, 59, 97, 61, 34], [255, 34]);
    if |Encode([c], last, trailer)| <= USIZE_MAX {
      DecodeReturnsReadableData([c], last, trailer);
    }
  }
}
