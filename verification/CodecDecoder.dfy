/** Reassembles messages from their chunks, in whatever order and interleaving those arrive. */
module CodecDecoder {
  import opened CodecEncoder
  import opened CodecHeader
  import opened Wrappers

  datatype Container = Container(senderId: seq<byte>, data: seq<byte>, chunksReceived: int, totalChunks: int)

  type Containers = map<seq<byte>, Container>

  datatype Outcome = Waiting | Complete(senderId: seq<byte>, data: seq<byte>) | RangeError

  datatype Decoded = Decoded(containers: Containers, outcome: Outcome)

  const UNDERSCORE: byte := 95

  const ZERO_DIGIT: byte := 48

  function Decimal(n: nat): (s: seq<byte>)
    ensures |s| > 0 && forall i :: 0 <= i < |s| ==> ZERO_DIGIT <= s[i] < ZERO_DIGIT + 10
  {
    if n < 10 then [ZERO_DIGIT + n] else Decimal(n / 10) + [ZERO_DIGIT + n % 10]
  }

  /** senderId + '_' + messageId */
  function KeyOf(senderId: seq<byte>, messageId: nat): seq<byte> {
    senderId + [UNDERSCORE] + Decimal(messageId)
  }

  function Zeros(n: nat): (s: seq<byte>)
    ensures |s| == n
  {
    if n == 0 then [] else Zeros(n - 1) + [0]
  }

  /** slice: bounds beyond the end are clamped. */
  function Slice(s: seq<byte>, lo: nat, hi: nat): seq<byte> {
    if lo <= hi && lo <= |s| then s[lo..Min(hi, |s|)] else []
  }

  /** What a container becomes with one more chunk at offset; set throws outside the buffer. */
  function Place(c: Container, bytes: seq<byte>, offset: int): Container
    requires 0 <= offset && offset + |bytes| <= |c.data|
  {
    c.(data := c.data[..offset] + bytes + c.data[offset + |bytes|..], chunksReceived := c.chunksReceived + 1)
  }

  function Decode(containers: Containers, input: seq<byte>): Decoded {
    var header := DecodeHeader(input);
    var dataStart := HEADER_SIZE + header.senderIdSize;
    var dataSize := header.chunkSize - header.senderIdSize;
    var senderId := Slice(input, HEADER_SIZE, dataStart);
    var id := KeyOf(senderId, header.messageId);
    if id !in containers && header.totalSize < 0 then Decoded(containers, RangeError)
    else
      var container := if id in containers then containers[id]
                       else Container(senderId, Zeros(header.totalSize), 0, header.totalChunks);
      var offset := if header.chunkNum == header.totalChunks - 1 then |container.data| - dataSize
                    else header.chunkNum * dataSize;
      var bytes := Slice(input, dataStart, |input|);
      if offset < 0 || offset + |bytes| > |container.data| then Decoded(containers[id := container], RangeError)
      else
        var filled := Place(container, bytes, offset);
        if filled.chunksReceived == filled.totalChunks
        then Decoded(containers - {id}, Complete(filled.senderId, filled.data))
        else Decoded(containers[id := filled], Waiting)
  }

  // ---------------------------------------------------------------- one input, byte by byte

  /** What is left of the input between two positions, which may lie beyond its end. */
  lemma {:induction false} SliceExact(s: seq<byte>, lo: nat, hi: nat)
    requires lo <= hi
    ensures |Slice(s, lo, hi)| == if lo <= |s| then Min(hi, |s|) - lo else 0
    ensures forall i :: 0 <= i < |Slice(s, lo, hi)| ==> Slice(s, lo, hi)[i] == s[lo + i]
  {
  }

  /** The container an input is for: the one there is, or a new one of zeros. */
  predicate StartsFrom(before: Containers, h: Header, sender: seq<byte>, id: seq<byte>, c: Container) {
    if id in before then c == before[id]
    else
      && c.senderId == sender && c.chunksReceived == 0 && c.totalChunks == h.totalChunks
      && |c.data| == h.totalSize && forall i :: 0 <= i < |c.data| ==> c.data[i] == 0
  }

  /** Where the body goes: as many bodies in as its number says, the last one up against the end. */
  function OffsetOf(h: Header, c: Container): int {
    if h.chunkNum + 1 == h.totalChunks then |c.data| - (h.chunkSize - h.senderIdSize)
    else h.chunkNum * (h.chunkSize - h.senderIdSize)
  }

  /** The container c with the body written over its data from offset on. */
  predicate WrittenTo(c: Container, body: seq<byte>, offset: int, data: seq<byte>) {
    && |data| == |c.data|
    && forall i :: 0 <= i < |data| ==>
         data[i] == if offset <= i < offset + |body| then body[i - offset] else c.data[i]
  }

  /** What any input does to the containers, and what is answered. */
  ghost predicate Accepted(before: Containers, input: seq<byte>, after: Containers, outcome: Outcome) {
    var h := DecodeHeader(input);
    var sender, body := Slice(input, 16, 16 + h.senderIdSize), Slice(input, 16 + h.senderIdSize, |input|);
    var id := KeyOf(sender, h.messageId);
    && SameElsewhere(before, after, id)
    && if id !in before && h.totalSize < 0 then outcome == RangeError && id !in after
       else exists c: Container :: StartsFrom(before, h, sender, id, c) && Outcomes(h, c, body, id, after, outcome)
  }

  ghost predicate Outcomes(h: Header, c: Container, body: seq<byte>, id: seq<byte>, after: Containers,
                           outcome: Outcome)
  {
    var offset := OffsetOf(h, c);
    if offset < 0 || offset + |body| > |c.data| then outcome == RangeError && id in after && after[id] == c
    else if c.chunksReceived + 1 == c.totalChunks then
      id !in after && outcome.Complete? && outcome.senderId == c.senderId && WrittenTo(c, body, offset, outcome.data)
    else
      && outcome.Waiting? && id in after
      && after[id].senderId == c.senderId && after[id].totalChunks == c.totalChunks
      && after[id].chunksReceived == c.chunksReceived + 1 && WrittenTo(c, body, offset, after[id].data)
  }

  lemma {:induction false} ZerosAreZero(n: nat)
    ensures forall i :: 0 <= i < n ==> Zeros(n)[i] == 0
  {
    if n > 0 {
      ZerosAreZero(n - 1);
    }
  }

  lemma {:induction false} PlaceWrites(c: Container, bytes: seq<byte>, offset: int)
    requires 0 <= offset && offset + |bytes| <= |c.data|
    ensures WrittenTo(c, bytes, offset, Place(c, bytes, offset).data)
    ensures Place(c, bytes, offset) ==
            c.(data := Place(c, bytes, offset).data, chunksReceived := c.chunksReceived + 1)
  {
  }

  lemma {:induction false} DecodeIsExact(before: Containers, input: seq<byte>)
    ensures Accepted(before, input, Decode(before, input).containers, Decode(before, input).outcome)
  {
    hide KeyOf, DecodeHeader, Zeros, Place, Slice, WrittenTo;
    var h := DecodeHeader(input);
    var sender, body := Slice(input, 16, 16 + h.senderIdSize), Slice(input, 16 + h.senderIdSize, |input|);
    var id, r := KeyOf(sender, h.messageId), Decode(before, input);
    if id in before || h.totalSize >= 0 {
      var c := if id in before then before[id] else Container(sender, Zeros(h.totalSize), 0, h.totalChunks);
      if id !in before {
        ZerosAreZero(h.totalSize);
      }
      var offset := OffsetOf(h, c);
      if 0 <= offset && offset + |body| <= |c.data| {
        PlaceWrites(c, body, offset);
      }
      assert StartsFrom(before, h, sender, id, c);
      assert Outcomes(h, c, body, id, r.containers, r.outcome);
    }
  }

  class Decoder {
    var chunksByMessageId: Containers

    constructor ()
      ensures chunksByMessageId == map[]
    {
      chunksByMessageId := map[];
    }

    method Accept(input: seq<byte>) returns (outcome: Outcome)
      modifies this
      ensures Decoded(chunksByMessageId, outcome) == Decode(old(chunksByMessageId), input)
      ensures Accepted(old(chunksByMessageId), input, chunksByMessageId, outcome)
    {
      DecodeIsExact(chunksByMessageId, input);
      hide Accepted;
      hide KeyOf, DecodeHeader, Zeros;
      var header := DecodeHeader(input);
      var dataStart := HEADER_SIZE + header.senderIdSize;
      var dataSize := header.chunkSize - header.senderIdSize;
      var senderId := Slice(input, HEADER_SIZE, dataStart);
      var id := KeyOf(senderId, header.messageId);
      if id !in chunksByMessageId {
        if header.totalSize < 0 {
          return RangeError;
        }
        chunksByMessageId :=
          chunksByMessageId[id := Container(senderId, Zeros(header.totalSize), 0, header.totalChunks)];
      }
      var container := chunksByMessageId[id];
      assert chunksByMessageId == old(chunksByMessageId)[id := container];
      var isLastChunk := header.chunkNum == header.totalChunks - 1;
      var offset := if isLastChunk then |container.data| - dataSize else header.chunkNum * dataSize;
      var bytes := Slice(input, dataStart, |input|);
      if offset < 0 || offset + |bytes| > |container.data| {
        return RangeError;
      }
      container := Place(container, bytes, offset);
      if container.chunksReceived == container.totalChunks {
        chunksByMessageId := chunksByMessageId - {id};
        return Complete(container.senderId, container.data);
      }
      chunksByMessageId := chunksByMessageId[id := container];
      return Waiting;
    }
  }

  // ---------------------------------------------------------------- keys do not collide

  function Value(digits: seq<byte>): int {
    if |digits| == 0 then 0 else Value(digits[..|digits| - 1]) * 10 + digits[|digits| - 1] - ZERO_DIGIT
  }

  lemma {:induction false} ValueOfDecimal(n: nat)
    ensures Value(Decimal(n)) == n
  {
    if n < 10 {
      assert Decimal(n)[..0] == [];
    } else {
      ValueOfDecimal(n / 10);
      assert Decimal(n)[..|Decimal(n / 10)|] == Decimal(n / 10);
    }
  }

  /** The last underscore ends the sender id, whatever that contains. */
  lemma {:induction false} KeyInjective(s: seq<byte>, m: nat, t: seq<byte>, n: nat)
    ensures KeyOf(s, m) == KeyOf(t, n) <==> s == t && m == n
  {
    hide Decimal, Value;
    if KeyOf(s, m) == KeyOf(t, n) {
      UnderscoreAt(s, m, t, n);
      UnderscoreAt(t, n, s, m);
      assert KeyOf(s, m)[..|s|] == s && KeyOf(s, m)[|s| + 1..] == Decimal(m);
      assert KeyOf(t, n)[..|t|] == t && KeyOf(t, n)[|t| + 1..] == Decimal(n);
      ValueOfDecimal(m);
      ValueOfDecimal(n);
    }
  }

  lemma {:induction false} UnderscoreAt(s: seq<byte>, m: nat, t: seq<byte>, n: nat)
    requires KeyOf(s, m) == KeyOf(t, n)
    ensures |s| <= |t|
  {
    hide Decimal;
    assert KeyOf(s, m)[|s|] == UNDERSCORE;
    forall i | |t| < i < |KeyOf(t, n)| ensures KeyOf(t, n)[i] != UNDERSCORE {
      DigitsAfterSender(t, n, i);
    }
  }

  lemma {:induction false} DigitsAfterSender(s: seq<byte>, m: nat, i: nat)
    requires |s| < i < |KeyOf(s, m)|
    ensures KeyOf(s, m)[i] != UNDERSCORE
  {
    hide Decimal;
    assert KeyOf(s, m)[i] == Decimal(m)[i - |s| - 1];
  }

  // ---------------------------------------------------------------- one chunk

  function NewContainer(p: Payload): Container
    requires p.HasRoom()
  {
    Container(p.senderId, Zeros(|p.data|), 0, p.ChunkCount())
  }

  function PayloadKey(p: Payload): seq<byte> {
    KeyOf(p.senderId, p.messageId)
  }

  /** The container of a message of which the chunks in got have arrived. */
  ghost predicate Partly(p: Payload, got: set<nat>, c: Container)
    requires Encodable(p)
  {
    && c.senderId == p.senderId
    && c.totalChunks == p.ChunkCount()
    && c.chunksReceived == |got|
    && |c.data| == |p.data|
    && (forall k :: k in got ==> k < p.ChunkCount() && PieceAt(p, k, c.data))
  }

  ghost predicate PieceAt(p: Payload, k: nat, data: seq<byte>)
    requires p.HasRoom() && k < p.ChunkCount()
  {
    |data| == |p.data| && 0 <= p.Start(k) <= p.End(k) <= |data| && data[p.Start(k)..p.End(k)] == p.Piece(k)
  }

  lemma {:induction false} ReadsBack(p: Payload, k: nat)
    requires Encodable(p) && k < p.ChunkCount()
    ensures DecodeHeader(p.Chunk(k)) == p.HeaderOf(k)
    ensures Slice(p.Chunk(k), HEADER_SIZE, HEADER_SIZE + |p.senderId|) == p.senderId
    ensures Slice(p.Chunk(k), HEADER_SIZE + |p.senderId|, |p.Chunk(k)|) == p.Piece(k)
  {
    hide HeaderBytes, DecodeHeader, Payload.Piece;
    var h := HeaderBytes(p.HeaderOf(k));
    HeaderRoundTrip(p.HeaderOf(k), p.senderId + p.Piece(k));
    assert p.Chunk(k) == h + (p.senderId + p.Piece(k));
    assert p.Chunk(k)[|h|..|h| + |p.senderId|] == p.senderId;
    assert p.Chunk(k)[|h| + |p.senderId|..] == p.Piece(k);
  }

  /** A chunk goes to its place: the last one is counted back from the end, the others are equally long. */
  lemma {:induction false} DecodeChunk(containers: Containers, p: Payload, k: nat, c: Container)
    requires Encodable(p) && k < p.ChunkCount()
    requires c == if PayloadKey(p) in containers then containers[PayloadKey(p)] else NewContainer(p)
    requires c.totalChunks == p.ChunkCount() && |c.data| == |p.data|
    ensures 0 <= p.Start(k) && p.Start(k) + |p.Piece(k)| <= |c.data|
    ensures var filled := Place(c, p.Piece(k), p.Start(k));
            Decode(containers, p.Chunk(k)) ==
            if filled.chunksReceived == filled.totalChunks
            then Decoded(containers - {PayloadKey(p)}, Complete(filled.senderId, filled.data))
            else Decoded(containers[PayloadKey(p) := filled], Waiting)
  {
    hide HeaderBytes, DecodeHeader, Payload.End, KeyOf, Zeros, Slice, CeilDiv, Place;
    ReadsBack(p, k);
    PiecesTile(p, k);
    assert HeaderFits(p.HeaderOf(k));
  }

  /** Placing bytes changes their own range and no other. */
  lemma {:induction false} PlaceChanges(c: Container, bytes: seq<byte>, offset: int, lo: int, hi: int)
    requires 0 <= offset && offset + |bytes| <= |c.data| && 0 <= lo <= hi <= |c.data|
    ensures |Place(c, bytes, offset).data| == |c.data|
    ensures Place(c, bytes, offset).data[offset..offset + |bytes|] == bytes
    ensures hi <= offset || offset + |bytes| <= lo ==> Place(c, bytes, offset).data[lo..hi] == c.data[lo..hi]
  {
  }

  /** Placing a chunk that had not arrived keeps the ones that had. */
  lemma {:induction false} PlaceKeeps(p: Payload, got: set<nat>, c: Container, k: nat)
    requires Encodable(p) && Partly(p, got, c) && k < p.ChunkCount() && k !in got
    ensures 0 <= p.Start(k) && p.Start(k) + |p.Piece(k)| <= |c.data|
    ensures Partly(p, got + {k}, Place(c, p.Piece(k), p.Start(k)))
  {
    hide CeilDiv, Payload.Start, Payload.End;
    PiecesTile(p, k);
    var c' := Place(c, p.Piece(k), p.Start(k));
    PlaceChanges(c, p.Piece(k), p.Start(k), 0, 0);
    forall j | j in got + {k} ensures j < p.ChunkCount() && PieceAt(p, j, c'.data) {
      PiecesTile(p, j);
      if j != k {
        PiecesApart(p, j, k);
        PlaceChanges(c, p.Piece(k), p.Start(k), p.Start(j), p.End(j));
      }
    }
  }

  lemma {:induction false} PiecesApart(p: Payload, j: nat, k: nat)
    requires p.HasRoom() && j < p.ChunkCount() && k < p.ChunkCount() && j != k
    ensures p.End(j) <= p.Start(k) || p.End(k) <= p.Start(j)
  {
    var d := p.Room();
    if j < k {
      MulMonotone(j + 1, k, d);
    } else {
      MulMonotone(k + 1, j, d);
    }
  }

  /** Once every chunk is there, the container holds the message. */
  lemma {:induction false} FullIsWhole(p: Payload, got: set<nat>, c: Container)
    requires Encodable(p) && Partly(p, got, c)
    requires forall k :: 0 <= k < p.ChunkCount() ==> k in got
    ensures c.data == p.data
  {
    hide CeilDiv;
    forall i | 0 <= i < |p.data| ensures c.data[i] == p.data[i] {
      var k := ChunkOfByte(p, i);
      assert PieceAt(p, k, c.data);
      assert c.data[p.Start(k)..p.End(k)][i - p.Start(k)] == p.Piece(k)[i - p.Start(k)];
    }
  }

  lemma {:induction false} ChunkOfByte(p: Payload, i: nat) returns (k: nat)
    requires p.HasRoom() && i < |p.data|
    ensures k < p.ChunkCount() && p.Start(k) <= i < p.End(k)
  {
    var d := p.Room();
    DivisionBounds(i, d);
    DivisionIsNatural(i, d);
    k := i / d;
    MulNext(k, d);
    CountIsCeiling(|p.data|, d);
    if k >= p.ChunkCount() {
      MulMonotone(p.ChunkCount(), k, d);
    }
  }

  // ---------------------------------------------------------------- whole runs

  /** Chunk k of message m arrives. */
  datatype Delivery = Delivery(m: nat, k: nat)

  /** Messages that fit their headers. */
  ghost predicate Sendable(msgs: seq<Payload>) {
    forall m :: 0 <= m < |msgs| ==> Encodable(msgs[m])
  }

  predicate SameId(p: Payload, q: Payload) {
    p.senderId == q.senderId && p.messageId == q.messageId
  }

  /** Each chunk arrives at most once, in any order and interleaving. */
  ghost predicate EachOnce(msgs: seq<Payload>, ds: seq<Delivery>)
    requires Sendable(msgs)
  {
    && (forall t :: 0 <= t < |ds| ==> ds[t].m < |msgs| && ds[t].k < msgs[ds[t].m].ChunkCount())
    && (forall t, u :: 0 <= t < u < |ds| ==> ds[t] != ds[u])
  }

  /** Moreover, no chunk arrives while another message with its sender and id is under way: ids may be used again. */
  ghost predicate Deliverable(msgs: seq<Payload>, ds: seq<Delivery>)
    requires Sendable(msgs)
  {
    EachOnce(msgs, ds) &&
    forall t, m :: 0 <= t < |ds| && 0 <= m < |msgs| && m != ds[t].m && SameId(msgs[m], msgs[ds[t].m]) ==>
      !Underway(msgs, ds[..t], m)
  }

  /** Every chunk of message m has arrived. */
  ghost predicate Whole(msgs: seq<Payload>, ds: seq<Delivery>, m: nat)
    requires m < |msgs| && msgs[m].HasRoom()
  {
    forall k :: 0 <= k < msgs[m].ChunkCount() ==> Delivery(m, k) in ds
  }

  /** Some chunks of message m have arrived and some have not. */
  ghost predicate Underway(msgs: seq<Payload>, ds: seq<Delivery>, m: nat)
    requires m < |msgs| && msgs[m].HasRoom()
  {
    (exists k: nat :: Delivery(m, k) in ds) && !Whole(msgs, ds, m)
  }

  /** With an id of its own for every message, every order and interleaving will do. */
  lemma {:induction false} OwnIdsAreDeliverable(msgs: seq<Payload>, ds: seq<Delivery>)
    requires Sendable(msgs) && EachOnce(msgs, ds)
    requires forall i, j :: 0 <= i < j < |msgs| ==> !SameId(msgs[i], msgs[j])
    ensures Deliverable(msgs, ds)
  {
    hide Underway, Payload.ChunkCount;
  }

  /** The chunks of message m that have arrived. */
  function Got(ds: seq<Delivery>, m: nat): set<nat> {
    if |ds| == 0 then {}
    else
      var last := ds[|ds| - 1];
      Got(ds[..|ds| - 1], m) + (if last.m == m then {last.k} else {})
  }

  ghost function Run(msgs: seq<Payload>, ds: seq<Delivery>): Decoded
    requires Sendable(msgs) && Deliverable(msgs, ds)
  {
    if |ds| == 0 then Decoded(map[], Waiting)
    else
      var last := ds[|ds| - 1];
      DeliverableBefore(msgs, ds);
      Decode(Run(msgs, ds[..|ds| - 1]).containers, msgs[last.m].Chunk(last.k))
  }

  lemma {:induction false} GotExact(ds: seq<Delivery>, m: nat)
    ensures forall k :: k in Got(ds, m) <==> Delivery(m, k) in ds
  {
    if |ds| > 0 {
      GotExact(ds[..|ds| - 1], m);
      assert ds == ds[..|ds| - 1] + [ds[|ds| - 1]];
    }
  }

  /** A set of numbers below n has n elements exactly when it has them all. */
  lemma {:induction false} BoundedSet(s: set<nat>, n: nat)
    requires forall k :: k in s ==> k < n
    ensures |s| <= n
    ensures |s| == n <==> forall k :: 0 <= k < n ==> k in s
  {
    if n > 0 {
      BoundedSet(s - {n - 1}, n - 1);
      if n - 1 in s {
        assert |s - {n - 1}| == |s| - 1;
      } else {
        assert s - {n - 1} == s;
      }
    }
  }

  predicate InFlight(p: Payload, got: set<nat>)
    requires p.HasRoom()
  {
    0 < |got| < p.ChunkCount()
  }

  /** The container of a message in flight holds what has arrived of it. */
  ghost predicate Kept(p: Payload, got: set<nat>, containers: Containers)
    requires Encodable(p)
  {
    && (forall k :: k in got ==> k < p.ChunkCount())
    && (InFlight(p, got) ==> PayloadKey(p) in containers && Partly(p, got, containers[PayloadKey(p)]))
  }

  /** And there is no container under its key otherwise. */
  ghost predicate Tracked(p: Payload, got: set<nat>, containers: Containers)
    requires Encodable(p)
  {
    Kept(p, got, containers) && (PayloadKey(p) in containers ==> InFlight(p, got))
  }

  ghost predicate Inv(msgs: seq<Payload>, ds: seq<Delivery>, containers: Containers)
    requires Sendable(msgs)
  {
    && (forall m :: 0 <= m < |msgs| ==> Kept(msgs[m], Got(ds, m), containers))
    && (forall key :: key in containers ==> Belongs(msgs, ds, key))
  }

  /** The key is that of a message in flight. */
  ghost predicate Belongs(msgs: seq<Payload>, ds: seq<Delivery>, key: seq<byte>)
    requires Sendable(msgs)
  {
    exists m :: 0 <= m < |msgs| && key == PayloadKey(msgs[m]) && InFlight(msgs[m], Got(ds, m))
  }

  ghost predicate SameElsewhere(a: Containers, b: Containers, id: seq<byte>) {
    forall key :: key != id ==> (key in a <==> key in b) && (key in a ==> a[key] == b[key])
  }

  ghost predicate AllArrived(p: Payload, got: set<nat>)
    requires p.HasRoom()
  {
    forall k :: 0 <= k < p.ChunkCount() ==> k in got
  }

  lemma {:induction false} OneDelivery(p: Payload, got: set<nat>, containers: Containers, k: nat)
    requires Encodable(p) && Tracked(p, got, containers) && k < p.ChunkCount() && k !in got
    ensures var r := Decode(containers, p.Chunk(k));
            && Tracked(p, got + {k}, r.containers)
            && SameElsewhere(containers, r.containers, PayloadKey(p))
            && r.outcome == if AllArrived(p, got + {k}) then Complete(p.senderId, p.data) else Waiting
  {
    hide Payload.ChunkCount, Payload.Chunk, Payload.Piece, Payload.Start, Decode, KeyOf, PieceAt, Zeros;
    var id := PayloadKey(p);
    var c := if id in containers then containers[id] else NewContainer(p);
    BoundedSet(got, p.ChunkCount());
    assert |got + {k}| == |got| + 1;
    BoundedSet(got + {k}, p.ChunkCount());
    assert Partly(p, got, c);
    DecodeChunk(containers, p, k, c);
    PlaceKeeps(p, got, c, k);
    var filled := Place(c, p.Piece(k), p.Start(k));
    if AllArrived(p, got + {k}) {
      FullIsWhole(p, got + {k}, filled);
    }
  }

  lemma {:induction false} AllHaveRoom(msgs: seq<Payload>)
    requires Sendable(msgs)
    ensures forall m :: 0 <= m < |msgs| ==> msgs[m].HasRoom()
  {
  }

  /** What one more chunk of message m does to the containers keeps the invariant. */
  lemma {:induction false} InvOneMore(msgs: seq<Payload>, before: seq<Delivery>, after: seq<Delivery>, m: nat,
                                      containers: Containers, next: Containers)
    requires Sendable(msgs) && Inv(msgs, before, containers) && m < |msgs|
    requires SameElsewhere(containers, next, PayloadKey(msgs[m])) && Tracked(msgs[m], Got(after, m), next)
    requires forall j :: 0 <= j < |msgs| && j != m ==> Got(after, j) == Got(before, j)
    requires forall j :: 0 <= j < |msgs| && j != m && PayloadKey(msgs[j]) == PayloadKey(msgs[m]) ==>
               msgs[j].HasRoom() && !InFlight(msgs[j], Got(before, j))
    ensures Inv(msgs, after, next)
  {
    AllHaveRoom(msgs);
    hide PayloadKey, Encodable, InFlight, Payload.ChunkCount, Payload.HasRoom, Partly, Got, Belongs;
    forall j | 0 <= j < |msgs| && j != m ensures Kept(msgs[j], Got(after, j), next) {
      assert Kept(msgs[j], Got(before, j), containers);
    }
    forall key | key in next ensures Belongs(msgs, after, key) {
      BelongsStill(msgs, before, after, m, key);
    }
  }

  lemma {:induction false} BelongsStill(msgs: seq<Payload>, before: seq<Delivery>, after: seq<Delivery>, m: nat,
                                        key: seq<byte>)
    requires Sendable(msgs) && m < |msgs|
    requires if key == PayloadKey(msgs[m]) then InFlight(msgs[m], Got(after, m)) else Belongs(msgs, before, key)
    requires forall j :: 0 <= j < |msgs| && j != m ==> Got(after, j) == Got(before, j)
    ensures Belongs(msgs, after, key)
  {
    AllHaveRoom(msgs);
    hide PayloadKey, Encodable, InFlight, Payload.ChunkCount, Payload.HasRoom, Partly, Got;
    if key == PayloadKey(msgs[m]) {
      assert InFlight(msgs[m], Got(after, m));
    } else {
      var j :| 0 <= j < |msgs| && key == PayloadKey(msgs[j]) && InFlight(msgs[j], Got(before, j));
      assert InFlight(msgs[j], Got(after, j));
    }
  }

  /** If no other message is in flight under the key of m, a container there is that of m. */
  lemma {:induction false} InvTracks(msgs: seq<Payload>, ds: seq<Delivery>, m: nat, containers: Containers)
    requires Sendable(msgs) && Inv(msgs, ds, containers) && m < |msgs|
    requires forall j :: 0 <= j < |msgs| && j != m && PayloadKey(msgs[j]) == PayloadKey(msgs[m]) ==>
               msgs[j].HasRoom() && !InFlight(msgs[j], Got(ds, j))
    ensures Tracked(msgs[m], Got(ds, m), containers)
  {
    AllHaveRoom(msgs);
    hide PayloadKey, Encodable, InFlight, Payload.ChunkCount, Payload.HasRoom, Partly, Got;
    assert Kept(msgs[m], Got(ds, m), containers);
  }

  lemma {:induction false} StepKeepsInv(msgs: seq<Payload>, init: seq<Delivery>, last: Delivery, containers: Containers)
    requires Sendable(msgs) && Inv(msgs, init, containers)
    requires last.m < |msgs| && last.k < msgs[last.m].ChunkCount() && last !in init
    requires forall m :: 0 <= m < |msgs| && m != last.m && PayloadKey(msgs[m]) == PayloadKey(msgs[last.m]) ==>
               msgs[m].HasRoom() && !InFlight(msgs[m], Got(init, m))
    ensures var p, got := msgs[last.m], Got(init + [last], last.m);
            var r := Decode(containers, p.Chunk(last.k));
            && Inv(msgs, init + [last], r.containers)
            && r.outcome == if AllArrived(p, got) then Complete(p.senderId, p.data) else Waiting
  {
    AllHaveRoom(msgs);
    hide PayloadKey, Decode, Encodable, InFlight, Payload.ChunkCount, Payload.Chunk, Partly, AllArrived, Inv, Tracked,
      SameElsewhere, Payload.HasRoom;
    var p := msgs[last.m];
    assert (init + [last])[..|init|] == init;
    GotExact(init, last.m);
    InvTracks(msgs, init, last.m, containers);
    OneDelivery(p, Got(init, last.m), containers, last.k);
    InvOneMore(msgs, init, init + [last], last.m, containers, Decode(containers, p.Chunk(last.k)).containers);
  }

  lemma {:induction false} RunKeepsInv(msgs: seq<Payload>, ds: seq<Delivery>)
    requires Sendable(msgs) && Deliverable(msgs, ds)
    ensures Inv(msgs, ds, Run(msgs, ds).containers)
    ensures |ds| > 0 ==>
              var p := msgs[ds[|ds| - 1].m];
              Run(msgs, ds).outcome ==
              if AllArrived(p, Got(ds, ds[|ds| - 1].m)) then Complete(p.senderId, p.data) else Waiting
  {
    hide PayloadKey, Decode, Encodable, Payload.ChunkCount, Payload.Chunk, Kept, InFlight, AllArrived, Sendable,
      Underway;
    if |ds| == 0 {
      NothingTracked(msgs);
    } else {
      var init, last := ds[..|ds| - 1], ds[|ds| - 1];
      assert ds == init + [last];
      DeliverableBefore(msgs, ds);
      RunKeepsInv(msgs, init);
      OthersRest(msgs, ds);
      StepKeepsInv(msgs, init, last, Run(msgs, init).containers);
    }
  }

  lemma {:induction false} DeliverableBefore(msgs: seq<Payload>, ds: seq<Delivery>)
    requires Sendable(msgs) && |ds| > 0 && Deliverable(msgs, ds)
    ensures Deliverable(msgs, ds[..|ds| - 1])
  {
    hide Underway, Payload.ChunkCount;
    var init := ds[..|ds| - 1];
    assert forall t :: 0 <= t < |init| ==> init[..t] == ds[..t];
  }

  lemma {:induction false} OthersRest(msgs: seq<Payload>, ds: seq<Delivery>)
    requires Sendable(msgs) && |ds| > 0 && Deliverable(msgs, ds)
    ensures var init, last := ds[..|ds| - 1], ds[|ds| - 1];
            forall m :: 0 <= m < |msgs| && m != last.m && PayloadKey(msgs[m]) == PayloadKey(msgs[last.m]) ==>
              msgs[m].HasRoom() && !InFlight(msgs[m], Got(init, m))
  {
    AllHaveRoom(msgs);
    hide Underway, InFlight, Payload.ChunkCount, Got, Encodable, KeyOf;
    var init, last := ds[..|ds| - 1], ds[|ds| - 1];
    DeliverableBefore(msgs, ds);
    forall m | 0 <= m < |msgs| && m != last.m && PayloadKey(msgs[m]) == PayloadKey(msgs[last.m])
      ensures !InFlight(msgs[m], Got(init, m))
    {
      KeyInjective(msgs[m].senderId, msgs[m].messageId, msgs[last.m].senderId, msgs[last.m].messageId);
      GotBounded(msgs, init, m);
      InFlightIsUnderway(msgs, init, m);
    }
  }

  lemma {:induction false} GotBounded(msgs: seq<Payload>, ds: seq<Delivery>, m: nat)
    requires Sendable(msgs) && EachOnce(msgs, ds) && m < |msgs|
    ensures forall k :: k in Got(ds, m) ==> k < msgs[m].ChunkCount()
  {
    hide Payload.ChunkCount, Got;
    GotExact(ds, m);
  }

  lemma {:induction false} NothingTracked(msgs: seq<Payload>)
    requires Sendable(msgs)
    ensures Inv(msgs, [], map[])
  {
  }

  lemma {:induction false} InFlightIsUnderway(msgs: seq<Payload>, ds: seq<Delivery>, m: nat)
    requires m < |msgs| && msgs[m].HasRoom() && forall k :: k in Got(ds, m) ==> k < msgs[m].ChunkCount()
    ensures InFlight(msgs[m], Got(ds, m)) <==> Underway(msgs, ds, m)
    ensures AllArrived(msgs[m], Got(ds, m)) <==> Whole(msgs, ds, m)
  {
    hide Payload.ChunkCount, Got;
    var got := Got(ds, m);
    GotExact(ds, m);
    BoundedSet(got, msgs[m].ChunkCount());
    SomeElement(got);
  }

  /**
   Whatever the order and interleaving, decode stays silent except on the last chunk of a message to
   arrive, where it returns exactly that message, and it keeps containers only for messages underway.
   */
  lemma {:induction false} Reassembles(msgs: seq<Payload>, ds: seq<Delivery>)
    requires Sendable(msgs) && Deliverable(msgs, ds) && |ds| > 0
    ensures var m := ds[|ds| - 1].m;
            Run(msgs, ds).outcome ==
            if Whole(msgs, ds, m) then Complete(msgs[m].senderId, msgs[m].data) else Waiting
    ensures forall key :: key in Run(msgs, ds).containers <==>
              exists m :: 0 <= m < |msgs| && key == PayloadKey(msgs[m]) && Underway(msgs, ds, m)
  {
    hide PayloadKey, Payload.ChunkCount, Partly, InFlight, Run, Whole, Underway, AllArrived, Got;
    RunKeepsInv(msgs, ds);
    forall m | 0 <= m < |msgs|
      ensures InFlight(msgs[m], Got(ds, m)) <==> Underway(msgs, ds, m)
      ensures AllArrived(msgs[m], Got(ds, m)) <==> Whole(msgs, ds, m)
    {
      GotBounded(msgs, ds, m);
      InFlightIsUnderway(msgs, ds, m);
    }
  }

  lemma {:induction false} SomeElement(s: set<nat>)
    ensures |s| > 0 <==> exists k :: k in s
  {
    if |s| > 0 {
      var k :| k in s;
    } else {
      assert s == {};
    }
  }
}
