/** Splits one message into headed chunks, and numbers the messages of a sender. */
module CodecEncoder {
  import opened CodecHeader
  import opened Wrappers

  const MAX_MESSAGE_ID: int := 0x1_0000

  const DEFAULT_MAX_MESSAGE_SIZE: int := 0xFFFF

  /** Math.ceil(n / d): exact for the sizes of arrays, whose quotients a double represents closely enough. */
  function CeilDiv(n: nat, d: int): nat
    requires d > 0
  {
    DivisionIsNatural(n, d);
    (n + d - 1) / d
  }

  /** Strings are their UTF-8 bytes. */
  datatype Payload = Payload(messageId: nat, maxMessageSize: int, senderId: seq<byte>, data: seq<byte>)
  {
    /** Room for data in one chunk. */
    function Room(): int {
      maxMessageSize - HEADER_SIZE - |senderId|
    }

    predicate HasRoom() {
      Room() > 0
    }

    /** The data size divided by the room, rounded up. */
    function ChunkCount(): nat
      requires HasRoom()
    {
      CeilDiv(|data|, Room())
    }

    function Start(k: nat): int {
      k * Room()
    }

    function End(k: nat): int {
      if (k + 1) * Room() < |data| then (k + 1) * Room() else |data|
    }

    /** The part of the data that chunk k carries. */
    function Piece(k: nat): seq<byte>
      requires HasRoom() && k < ChunkCount()
    {
      ChunkBounds(|data|, Room(), k);
      data[Start(k)..End(k)]
    }

    function HeaderOf(k: nat): Header
      requires HasRoom() && k < ChunkCount()
    {
      Header(messageId, k, ChunkCount(), |senderId|, |senderId| + |Piece(k)|, |data|)
    }

    function Chunk(k: nat): seq<byte>
      requires HasRoom() && k < ChunkCount()
    {
      HeaderBytes(HeaderOf(k)) + senderId + Piece(k)
    }
  }

  datatype Event =
    | Data(messageId: int, chunkNum: nat, totalChunks: nat, senderId: seq<byte>, chunk: seq<byte>)
    | Done(messageId: int, senderId: seq<byte>)
    | NoRoom(messageId: int, senderId: seq<byte>)

  function DataEvent(p: Payload, k: nat): Event
    requires p.HasRoom() && k < p.ChunkCount()
  {
    Data(p.messageId, k, p.ChunkCount(), p.senderId, p.Chunk(k))
  }

  function DataEvents(p: Payload, n: nat): (events: seq<Event>)
    requires p.HasRoom() && n <= p.ChunkCount()
    ensures |events| == n && forall k :: 0 <= k < n ==> events[k] == DataEvent(p, k)
  {
    if n == 0 then [] else DataEvents(p, n - 1) + [DataEvent(p, n - 1)]
  }

  // ---------------------------------------------------------------- arithmetic of chunks

  lemma {:induction false} MulMonotone(a: int, b: int, d: int)
    requires a <= b && d >= 0
    ensures a * d <= b * d
  {
  }

  lemma {:induction false} MulNext(k: int, d: int)
    ensures (k + 1) * d == k * d + d
  {
  }

  lemma {:induction false} DivisionBounds(m: int, d: int)
    requires d > 0
    ensures m / d * d <= m < m / d * d + d
  {
  }

  lemma {:induction false} DivisionIsNatural(n: nat, d: int)
    requires d > 0
    ensures (n + d - 1) / d >= 0
  {
  }

  /** The chunk count is the least number of chunks that hold the data. */
  lemma {:induction false} CountIsCeiling(n: nat, d: int)
    requires d > 0
    ensures n <= CeilDiv(n, d) * d < n + d
  {
    DivisionBounds(n + d - 1, d);
  }

  /** Chunk k starts inside the data, and it is the last one exactly when it reaches the end. */
  lemma {:induction false} ChunkBounds(n: nat, d: int, k: nat)
    requires d > 0 && k < CeilDiv(n, d)
    ensures 0 <= k * d < n
    ensures (k + 1) * d == k * d + d
    ensures (k + 1) * d >= n <==> k + 1 == CeilDiv(n, d)
  {
    var q := CeilDiv(n, d);
    CountIsCeiling(n, d);
    MulNext(k, d);
    MulMonotone(0, k, d);
    MulMonotone(k + 1, q, d);
    if k + 1 < q {
      MulNext(k + 1, d);
      MulMonotone(k + 2, q, d);
    }
  }

  /** Pieces follow each other from the start of the data to its end. */
  lemma {:induction false} PiecesTile(p: Payload, k: nat)
    requires p.HasRoom() && k < p.ChunkCount()
    ensures p.Start(0) == 0 <= p.Start(k) < p.End(k) <= |p.data|
    ensures p.End(k) == if p.Start(k) + p.Room() < |p.data| then p.Start(k) + p.Room() else |p.data|
    ensures if k + 1 < p.ChunkCount() then p.End(k) == p.Start(k + 1) == p.Start(k) + p.Room() else p.End(k) == |p.data|
  {
    ChunkBounds(|p.data|, p.Room(), k);
  }

  lemma {:induction false} NoChunksWithoutData(p: Payload)
    requires p.HasRoom()
    ensures p.Start(0) == 0
    ensures p.ChunkCount() == 0 <==> |p.data| == 0
  {
    CountIsCeiling(|p.data|, p.Room());
    if p.ChunkCount() > 0 {
      ChunkBounds(|p.data|, p.Room(), 0);
    }
  }

  // ---------------------------------------------------------------- what the worker posts, byte by byte

  /** Chunk k of n: the header, the sender id, and from byte k * room on as much of the data as there is room for. */
  predicate Carries(p: Payload, room: int, n: nat, k: nat, chunk: seq<byte>) {
    var from, body := k * room, 16 + |p.senderId|;
    var size := Min(room, |p.data| - from);
    && 0 <= from < from + size <= |p.data|
    && |chunk| == body + size && chunk[16..body] == p.senderId && chunk[body..] == p.data[from..from + size]
    && var h := Header(p.messageId, k, n, |p.senderId|, |p.senderId| + size, |p.data|);
       HeaderFits(h) ==> Laid(chunk, h)
  }

  /** As many chunks as it takes, in order, and then done; or the one error. */
  ghost predicate Posted(p: Payload, events: seq<Event>) {
    var room := p.maxMessageSize - 16 - |p.senderId|;
    if room <= 0 then events == [NoRoom(p.messageId, p.senderId)]
    else
      var n := |events| - 1;
      && n >= 0 && events[n] == Done(p.messageId, p.senderId)
      && |p.data| <= n * room < |p.data| + room
      && forall k :: 0 <= k < n ==>
           && events[k].Data? && events[k].messageId == p.messageId && events[k].senderId == p.senderId
           && events[k].chunkNum == k && events[k].totalChunks == n
           && Carries(p, room, n, k, events[k].chunk)
  }

  lemma {:induction false} ChunkCarries(p: Payload, k: nat)
    requires p.HasRoom() && k < p.ChunkCount()
    ensures Carries(p, p.maxMessageSize - 16 - |p.senderId|, p.ChunkCount(), k, p.Chunk(k))
  {
    hide CeilDiv, HeaderBytes, HeaderFits, Laid;
    PiecesTile(p, k);
    HeaderIsLaid(p.HeaderOf(k));
    var h := HeaderBytes(p.HeaderOf(k));
    LaidPrefix(h, p.senderId + p.Piece(k), p.HeaderOf(k));
    assert p.Chunk(k) == h + (p.senderId + p.Piece(k));
  }

  lemma {:induction false} LaidPrefix(bytes: seq<byte>, rest: seq<byte>, h: Header)
    ensures Laid(bytes, h) ==> Laid(bytes + rest, h)
  {
  }

  lemma {:induction false} WorkIsExact(p: Payload)
    ensures p.HasRoom() <==> p.maxMessageSize - 16 - |p.senderId| > 0
    ensures Posted(p, if p.HasRoom() then DataEvents(p, p.ChunkCount()) + [Done(p.messageId, p.senderId)]
                      else [NoRoom(p.messageId, p.senderId)])
  {
    hide Carries, CeilDiv, Payload.Chunk;
    if p.HasRoom() {
      CountIsCeiling(|p.data|, p.Room());
      forall k | 0 <= k < p.ChunkCount()
        ensures Carries(p, p.maxMessageSize - 16 - |p.senderId|, p.ChunkCount(), k, p.Chunk(k))
      {
        ChunkCarries(p, k);
      }
    }
  }

  // ---------------------------------------------------------------- the worker

  method Work(p: Payload) returns (events: seq<Event>)
    ensures events == if p.HasRoom() then DataEvents(p, p.ChunkCount()) + [Done(p.messageId, p.senderId)]
                      else [NoRoom(p.messageId, p.senderId)]
    ensures Posted(p, events)
  {
    WorkIsExact(p);
    hide Posted, HeaderBytes, CeilDiv, Payload.Start, Payload.End;
    var totalSize := |p.data|;
    var maxChunkSize := p.maxMessageSize - HEADER_SIZE;
    var readOffset := 0;
    var senderIdSize := |p.senderId|;
    var dataBytesInChunk := maxChunkSize - senderIdSize;
    if dataBytesInChunk <= 0 {
      return [NoRoom(p.messageId, p.senderId)];
    }
    var totalChunks := CeilDiv(totalSize, dataBytesInChunk);
    NoChunksWithoutData(p);
    var chunkNum := 0;
    events := [];
    while readOffset < totalSize
      invariant 0 <= chunkNum <= totalChunks
      invariant readOffset == if chunkNum < totalChunks then p.Start(chunkNum) else totalSize
      invariant events == DataEvents(p, chunkNum)
      decreases totalSize - readOffset
    {
      PiecesTile(p, chunkNum);
      var chunkSize := Min(maxChunkSize, senderIdSize + totalSize - readOffset);
      var readSize := chunkSize - senderIdSize;
      var header := Header(p.messageId, chunkNum, totalChunks, senderIdSize, chunkSize, totalSize);
      var headerBytes := EncodeHeader(header);
      var chunk := headerBytes[..] + p.senderId + p.data[readOffset..readOffset + readSize];
      assert chunk == p.Chunk(chunkNum);
      events := events + [Data(p.messageId, chunkNum, totalChunks, p.senderId, chunk)];
      readOffset := readOffset + readSize;
      chunkNum := chunkNum + 1;
    }
    if chunkNum < totalChunks {
      PiecesTile(p, chunkNum);
    }
    events := events + [Done(p.messageId, p.senderId)];
  }

  /** The pieces of the first n chunks, one after the other. */
  function Pieces(p: Payload, n: nat): seq<byte>
    requires p.HasRoom() && n <= p.ChunkCount()
  {
    if n == 0 then [] else Pieces(p, n - 1) + p.Piece(n - 1)
  }

  lemma {:induction false} PiecesArePrefix(p: Payload, n: nat)
    requires p.HasRoom() && 0 < n <= p.ChunkCount()
    ensures 0 <= p.End(n - 1) <= |p.data| && Pieces(p, n) == p.data[..p.End(n - 1)]
  {
    hide Payload.Start, Payload.End, CeilDiv;
    PiecesTile(p, n - 1);
    var piece := p.Piece(n - 1);
    if n == 1 {
      assert Pieces(p, 0) == [] && Pieces(p, 1) == Pieces(p, 0) + piece;
    } else {
      PiecesArePrefix(p, n - 1);
      PiecesTile(p, n - 2);
    }
  }

  /** The chunks carry the whole message, each byte once, and none is larger than allowed. */
  lemma {:induction false} ChunksCarryMessage(p: Payload)
    requires p.HasRoom()
    ensures Pieces(p, p.ChunkCount()) == p.data
    ensures forall k :: 0 <= k < p.ChunkCount() ==> HEADER_SIZE + |p.senderId| < |p.Chunk(k)| <= p.maxMessageSize
  {
    hide Payload.Start, Payload.End, CeilDiv, HeaderBytes;
    NoChunksWithoutData(p);
    if p.ChunkCount() > 0 {
      PiecesArePrefix(p, p.ChunkCount());
      PiecesTile(p, p.ChunkCount() - 1);
    }
    forall k | 0 <= k < p.ChunkCount()
      ensures HEADER_SIZE + |p.senderId| < |p.Chunk(k)| <= p.maxMessageSize
    {
      PiecesTile(p, k);
    }
  }

  // ---------------------------------------------------------------- header limits

  /** No header field of any chunk overflows its bits. */
  predicate Encodable(p: Payload) {
    && p.HasRoom()
    && p.messageId < MAX_MESSAGE_ID
    && forall k :: 0 <= k < p.ChunkCount() ==> HeaderFits(p.HeaderOf(k))
  }

  lemma {:induction false} CeilDivBelow(n: nat, d: int, bound: nat)
    requires d > 0
    ensures CeilDiv(n, d) <= bound <==> n <= bound * d
  {
    var q := CeilDiv(n, d);
    CountIsCeiling(n, d);
    if q <= bound {
      MulMonotone(q, bound, d);
    } else {
      MulMonotone(bound + 1, q, d);
      MulNext(bound, d);
    }
  }

  /** With the default limit, sender ids of up to 32,750 bytes leave room for 2 GiB of data in 65,535 chunks. */
  lemma {:induction false} DefaultIsEncodable(p: Payload)
    requires p.maxMessageSize == DEFAULT_MAX_MESSAGE_SIZE
    requires p.messageId < MAX_MESSAGE_ID && |p.senderId| <= 32_750 && |p.data| < 0x8000_0000
    ensures Encodable(p)
  {
    hide Payload.Start, Payload.End, CeilDiv;
    CeilDivBelow(|p.data|, p.Room(), 65_535);
    MulMonotone(32_769, p.Room(), 65_535);
    forall k | 0 <= k < p.ChunkCount() ensures HeaderFits(p.HeaderOf(k)) {
      PiecesTile(p, k);
    }
  }

  /** One more byte of sender id and the chunk count of some message overflows. */
  lemma {:induction false} SenderLimitIsTight(senderSize: nat, room: int)
    requires room == DEFAULT_MAX_MESSAGE_SIZE - HEADER_SIZE - senderSize > 0
    ensures (forall n: nat :: n < 0x8000_0000 ==> CeilDiv(n, room) < 0x1_0000) <==> senderSize <= 32_750
  {
    hide CeilDiv;
    forall n: nat ensures CeilDiv(n, room) <= 65_535 <==> n <= 65_535 * room {
      CeilDivBelow(n, room, 65_535);
    }
    assert CeilDiv(0x7FFF_FFFF, room) <= 65_535 <==> 0x7FFF_FFFF <= 65_535 * room;
  }

  // ---------------------------------------------------------------- message ids

  /** Ids run from 1 to 65,535 and start over. */
  function NextId(counter: nat): nat {
    if counter + 1 >= MAX_MESSAGE_ID then 1 else counter + 1
  }

  /** The k-th id handed out after the counter stood at c. */
  function NthId(c: nat, k: nat): nat
    requires k > 0
  {
    if k == 1 then NextId(c) else NextId(NthId(c, k - 1))
  }

  lemma {:induction false} NthIdIsCyclic(c: nat, k: nat)
    requires k > 0
    ensures NthId(c, k) == (NextId(c) + k - 2) % 65_535 + 1
  {
    if k > 1 {
      NthIdIsCyclic(c, k - 1);
    }
  }

  /** Two ids of a sender agree exactly when a whole number of cycles lies between them. */
  lemma {:induction false} IdsRepeatByCycle(c: nat, i: nat, j: nat)
    requires 0 < i <= j
    ensures 1 <= NthId(c, i) <= 65_535
    ensures NthId(c, i) == NthId(c, j) <==> (j - i) % 65_535 == 0
  {
    NthIdIsCyclic(c, i);
    NthIdIsCyclic(c, j);
  }

  class Encoder {
    var counter: nat
    const maxMessageSize: int

    constructor (maxMessageSize: int)
      requires maxMessageSize > HEADER_SIZE
      ensures counter == 0 && this.maxMessageSize == maxMessageSize
    {
      counter := 0;
      this.maxMessageSize := maxMessageSize;
    }

    /** The encoder, or null where the constructor throws. */
    static method Create(maxMessageSize: int) returns (e: Encoder?)
      ensures e == null <==> maxMessageSize <= HEADER_SIZE
      ensures e != null ==> fresh(e) && e.counter == 0 && e.maxMessageSize == maxMessageSize
    {
      if maxMessageSize <= HEADER_SIZE {
        return null;
      }
      e := new Encoder(maxMessageSize);
    }

    /** Numbers the message and hands it to the worker. */
    method Encode(senderId: seq<byte>, data: seq<byte>) returns (messageId: nat, payload: Payload)
      modifies this
      ensures counter == messageId == NextId(old(counter))
      ensures messageId == if old(counter) < 65_535 then old(counter) + 1 else 1
      ensures payload == Payload(messageId, maxMessageSize, senderId, data)
    {
      counter := counter + 1;
      if counter >= MAX_MESSAGE_ID {
        counter := 1;
      }
      messageId := counter;
      payload := Payload(messageId, maxMessageSize, senderId, data);
    }
  }
}
