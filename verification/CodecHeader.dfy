/** The 16-byte header in front of every chunk of a message. */
module CodecHeader {
  import opened Wrappers

  const HEADER_SIZE: int := 16

  datatype Header = Header(
    messageId: int,
    chunkNum: int,
    totalChunks: int,
    senderIdSize: int,
    chunkSize: int,
    totalSize: int)

  /** (x & 0xFF) on a number's two's-complement bits. */
  function Byte0(x: int): byte { x % 0x100 }

  /** (x & 0xFF00) >> 8 */
  function Byte1(x: int): byte { x / 0x100 % 0x100 }

  /** (x & 0xFF0000) >> 16 */
  function Byte2(x: int): byte { x / 0x1_0000 % 0x100 }

  /** (x & 0x7F000000) >> 24 */
  function Byte3(x: int): byte { x / 0x100_0000 % 0x80 }

  function HeaderBytes(h: Header): (bytes: seq<byte>)
    ensures |bytes| == HEADER_SIZE
  {
    [Byte1(h.messageId), Byte0(h.messageId), Byte1(h.chunkNum), Byte0(h.chunkNum),
     Byte1(h.totalChunks), Byte0(h.totalChunks), Byte1(h.senderIdSize), Byte0(h.senderIdSize),
     Byte3(h.chunkSize), Byte2(h.chunkSize), Byte1(h.chunkSize), Byte0(h.chunkSize),
     Byte3(h.totalSize), Byte2(h.totalSize), Byte1(h.totalSize), Byte0(h.totalSize)]
  }

  function Big16(a: int, b: int): int {
    0x100 * a + b
  }

  function Big32(a: int, b: int, c: int, d: int): int {
    0x100_0000 * a + 0x1_0000 * b + 0x100 * c + d
  }

  /** The layout: four big-endian fields of 16 bits, then two of 32. */
  predicate Laid(bytes: seq<byte>, h: Header) {
    && |bytes| >= 16
    && Big16(bytes[0], bytes[1]) == h.messageId
    && Big16(bytes[2], bytes[3]) == h.chunkNum
    && Big16(bytes[4], bytes[5]) == h.totalChunks
    && Big16(bytes[6], bytes[7]) == h.senderIdSize
    && Big32(bytes[8], bytes[9], bytes[10], bytes[11]) == h.chunkSize
    && Big32(bytes[12], bytes[13], bytes[14], bytes[15]) == h.totalSize
  }

  lemma {:induction false} HeaderIsLaid(h: Header)
    ensures HeaderFits(h) ==> Laid(HeaderBytes(h), h)
  {
    Split16(h.messageId);
    Split16(h.chunkNum);
    Split16(h.totalChunks);
    Split16(h.senderIdSize);
    Split31(h.chunkSize);
    Split31(h.totalSize);
    hide Byte0, Byte1, Byte2, Byte3;
  }

  /** What is decoded stands in the first sixteen bytes, unless a size has its top bit set. */
  lemma {:induction false} DecodedIsLaid(data: seq<byte>)
    requires |data| >= 16 && data[8] < 0x80 && data[12] < 0x80
    ensures Laid(data, DecodeHeader(data))
  {
  }

  /** A size with its top bit set is negative, as 32-bit numbers are. */
  lemma {:induction false} DecodedSign(data: seq<byte>)
    requires |data| >= 16
    ensures DecodeHeader(data).chunkSize ==
            Big32(data[8], data[9], data[10], data[11]) - if data[8] < 0x80 then 0 else 0x1_0000_0000
    ensures DecodeHeader(data).totalSize ==
            Big32(data[12], data[13], data[14], data[15]) - if data[12] < 0x80 then 0 else 0x1_0000_0000
  {
  }

  /** Bytes that are missing read as zeros. */
  lemma {:induction false} ShortIsPadded(data: seq<byte>)
    ensures DecodeHeader(data + [0]) == DecodeHeader(data)
  {
  }

  method EncodeHeader(h: Header) returns (data: array<byte>)
    ensures fresh(data) && data[..] == HeaderBytes(h)
    ensures HeaderFits(h) ==> Laid(data[..], h)
  {
    HeaderIsLaid(h);
    hide Laid, HeaderFits;
    hide Byte0, Byte1, Byte2, Byte3;
    data := new byte[16];
    data[0] := Byte1(h.messageId);
    data[1] := Byte0(h.messageId);
    data[2] := Byte1(h.chunkNum);
    data[3] := Byte0(h.chunkNum);
    data[4] := Byte1(h.totalChunks);
    data[5] := Byte0(h.totalChunks);
    data[6] := Byte1(h.senderIdSize);
    data[7] := Byte0(h.senderIdSize);
    data[8] := Byte3(h.chunkSize);
    data[9] := Byte2(h.chunkSize);
    data[10] := Byte1(h.chunkSize);
    data[11] := Byte0(h.chunkSize);
    data[12] := Byte3(h.totalSize);
    data[13] := Byte2(h.totalSize);
    data[14] := Byte1(h.totalSize);
    data[15] := Byte0(h.totalSize);
  }

  /** A byte past the end of the input reads as zero under the bit operators. */
  function At(data: seq<byte>, i: nat): byte {
    if i < |data| then data[i] else 0
  }

  function Signed(b: byte): int {
    if b < 0x80 then b else b - 0x100
  }

  function Read16(data: seq<byte>, i: nat): int {
    0x100 * At(data, i) + At(data, i + 1)
  }

  /** The shifted top byte lands on the sign bit of a 32-bit number. */
  function Read32(data: seq<byte>, i: nat): int {
    0x100_0000 * Signed(At(data, i)) + 0x1_0000 * At(data, i + 1) + 0x100 * At(data, i + 2) + At(data, i + 3)
  }

  function DecodeHeader(data: seq<byte>): (h: Header)
    ensures 0 <= h.messageId < 0x1_0000 && 0 <= h.senderIdSize < 0x1_0000
  {
    Header(Read16(data, 0), Read16(data, 2), Read16(data, 4), Read16(data, 6), Read32(data, 8), Read32(data, 12))
  }

  predicate HeaderFits(h: Header) {
    && 0 <= h.messageId < 0x1_0000
    && 0 <= h.chunkNum < 0x1_0000
    && 0 <= h.totalChunks < 0x1_0000
    && 0 <= h.senderIdSize < 0x1_0000
    && 0 <= h.chunkSize < 0x8000_0000
    && 0 <= h.totalSize < 0x8000_0000
  }

  lemma {:induction false} Split16(x: int)
    ensures 0x100 * Byte1(x) + Byte0(x) == x <==> 0 <= x < 0x1_0000
    ensures 0 <= 0x100 * Byte1(x) + Byte0(x) < 0x1_0000
  {
  }

  lemma {:induction false} Split31(x: int)
    ensures 0x100_0000 * Byte3(x) + 0x1_0000 * Byte2(x) + 0x100 * Byte1(x) + Byte0(x) == x <==> 0 <= x < 0x8000_0000
  {
    assert x / 0x1_0000 == x / 0x100 / 0x100;
    assert x / 0x100_0000 == x / 0x1_0000 / 0x100;
  }

  lemma {:induction false} Join16(hi: byte, lo: byte)
    ensures Byte1(0x100 * hi + lo) == hi && Byte0(0x100 * hi + lo) == lo
  {
  }

  lemma {:induction false} DropByte(hi: int, lo: byte)
    ensures (0x100 * hi + lo) / 0x100 == hi && (0x100 * hi + lo) % 0x100 == lo
  {
  }

  lemma {:induction false} BytesOfWord(x: int)
    ensures x / 0x1_0000 == x / 0x100 / 0x100
    ensures x / 0x100_0000 == x / 0x100 / 0x100 / 0x100
  {
  }

  lemma {:induction false} Join32(top: int, b: byte, c: byte, d: byte)
    ensures var x := 0x100_0000 * top + 0x1_0000 * b + 0x100 * c + d;
            Byte3(x) == top % 0x80 && Byte2(x) == b && Byte1(x) == c && Byte0(x) == d
  {
    var high := 0x100 * top + b as int;
    var middle := 0x100 * high + c as int;
    var x := 0x100 * middle + d as int;
    DropByte(top, b);
    DropByte(high, c);
    DropByte(middle, d);
    BytesOfWord(x);
  }

  /** A header survives encoding and decoding exactly when no field overflows its bits. */
  lemma {:induction false} HeaderRoundTrip(h: Header, rest: seq<byte>)
    ensures DecodeHeader(HeaderBytes(h) + rest) == h <==> HeaderFits(h)
  {
    Split16(h.messageId);
    Split16(h.chunkNum);
    Split16(h.totalChunks);
    Split16(h.senderIdSize);
    Split31(h.chunkSize);
    Split31(h.totalSize);
  }

  /** Sixteen bytes survive decoding and encoding exactly when the two unused bits are clear. */
  lemma {:induction false} BytesRoundTrip(data: seq<byte>)
    requires |data| >= HEADER_SIZE
    ensures HeaderBytes(DecodeHeader(data)) == data[..HEADER_SIZE] <==> data[8] < 0x80 && data[12] < 0x80
  {
    hide Byte0, Byte1, Byte2, Byte3;
    Join16(data[0], data[1]);
    Join16(data[2], data[3]);
    Join16(data[4], data[5]);
    Join16(data[6], data[7]);
    Join32(Signed(data[8]), data[9], data[10], data[11]);
    Join32(Signed(data[12]), data[13], data[14], data[15]);
    SignBit(data[8]);
    SignBit(data[12]);
    var bytes := HeaderBytes(DecodeHeader(data));
    assert forall i :: 0 <= i < 16 && i != 8 && i != 12 ==> bytes[i] == data[i];
  }

  lemma {:induction false} SignBit(b: byte)
    ensures Signed(b) % 0x80 == b <==> b < 0x80
  {
  }
}
