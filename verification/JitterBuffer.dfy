/**
 One ring buffer per media source, and the handler that answers a received NACK from them and forwards
 the rest.
 */
module JitterBuffer {
  import opened Nack
  import opened RtpBuffer
  import opened Wrappers

  class JitterBuffer {
    var buffers: map<SSRC, Buffer>
    ghost var Repr: set<object>

    ghost predicate Valid()
      reads this, Repr
    {
      && this in Repr
      && (forall s :: s in buffers ==>
            && {buffers[s], buffers[s].packets} <= Repr
            && buffers[s].Valid()
            && OfSource(buffers[s].State().packets, s))
      && (forall s, t :: s in buffers && t in buffers && s != t ==>
            buffers[s] != buffers[t] && buffers[s].packets != buffers[t].packets)
    }

    /** The state of the ring buffer of one source; a source without a buffer has an empty one. */
    ghost function StateOf(ssrc: SSRC): (s: BufferState)
      requires Valid()
      reads this, Repr
      ensures s.Valid()
    {
      if ssrc in buffers then buffers[ssrc].State() else Empty(MAX_NACK_PAIR_SIZE)
    }

    constructor ()
      ensures Valid() && fresh(Repr)
      ensures forall ssrc :: StateOf(ssrc) == Empty(MAX_NACK_PAIR_SIZE)
    {
      buffers := map[];
      Repr := {this};
    }

    method PushRTP(p: Packet) returns (nack: Option<TransportLayerNack>)
      requires Valid()
      modifies Repr
      ensures Valid() && fresh(Repr - old(Repr))
      ensures StateOf(p.ssrc) == AfterReport(Settled(old(StateOf(p.ssrc)), p), p.sn)
      ensures forall s :: s != p.ssrc ==> StateOf(s) == old(StateOf(s))
      ensures nack == NackFor(Settled(old(StateOf(p.ssrc)), p), p.sn)
      ensures Pushed(old(StateOf(p.ssrc)), p, StateOf(p.ssrc), nack)
    {
      hide Pushed, Settled, AfterReport, NackFor, OfSource, Empty;
      var buffer := EnsureBuffer(p.ssrc);
      PushKeepsSource(buffer.State(), p);
      nack := buffer.Push(p);
    }

    /** The buffer of the source, created on its first packet. */
    method EnsureBuffer(ssrc: SSRC) returns (buffer: Buffer)
      requires Valid()
      modifies this
      ensures Valid() && fresh(Repr - old(Repr)) && old(Repr) <= Repr
      ensures ssrc in buffers && buffer == buffers[ssrc]
      ensures forall s :: StateOf(s) == old(StateOf(s))
    {
      hide OfSource, Empty, BufferState.Valid;
      EmptyIsValid();
      if ssrc !in buffers {
        buffer := new Buffer();
        buffers := buffers[ssrc := buffer];
        Repr := Repr + {buffer, buffer.packets};
      } else {
        buffer := buffers[ssrc];
      }
    }

    method GetPacket(ssrc: SSRC, sn: u16) returns (p: Option<Packet>)
      requires Valid()
      ensures p == StateOf(ssrc).packets[sn]
      ensures p.Some? ==> p.value.ssrc == ssrc && p.value.sn == sn
    {
      if ssrc !in buffers {
        return None;
      }
      p := buffers[ssrc].GetPacket(sn);
    }

    method RemoveBuffer(ssrc: SSRC)
      requires Valid()
      modifies this
      ensures Valid() && Repr == old(Repr)
      ensures StateOf(ssrc) == Empty(MAX_NACK_PAIR_SIZE)
      ensures forall s :: s != ssrc ==> StateOf(s) == old(StateOf(s))
    {
      buffers := buffers - {ssrc};
    }
  }

  /** Every kept packet belongs to the source. */
  ghost predicate OfSource(packets: seq<Option<Packet>>, ssrc: SSRC) {
    forall i :: 0 <= i < |packets| && packets[i].Some? ==> packets[i].value.ssrc == ssrc
  }

  lemma {:induction false} EmptyIsValid()
    ensures Empty(MAX_NACK_PAIR_SIZE).Valid()
    ensures forall ssrc :: OfSource(Empty(MAX_NACK_PAIR_SIZE).packets, ssrc)
  {
  }

  lemma {:induction false} PushKeepsSource(s: BufferState, p: Packet)
    requires s.Valid() && OfSource(s.packets, p.ssrc)
    ensures OfSource(AfterReport(Settled(s, p), p.sn).packets, p.ssrc)
  {
    hide ClearScan;
    var t := Store(Init(s, p), p);
    var scan, from := Scan(t.packets, t.lastClearTS, t.lastClearSN), Wrap(t.lastClearSN + 1);
    forall k: int | 0 <= k < SLOTS
      ensures var r := ClearScan(scan, from, p.sn, p.ts).packets;
              |r| == SLOTS && (r[k] == t.packets[k] || r[k] == None)
    {
      ClearScanKeeps(scan, from, p.sn, p.ts, k);
    }
    ClearScanKeeps(scan, from, p.sn, p.ts, 0);
  }

  // ---------------------------------------------------------------- splitting a NACK

  /** The buffered packets among those asked for, in the order asked. */
  function Found(packets: seq<Option<Packet>>, sns: seq<u16>): seq<Packet>
    requires |packets| == SLOTS
  {
    if |sns| == 0 then [] else
      var last := sns[|sns| - 1];
      Found(packets, sns[..|sns| - 1]) + (if packets[last].Some? then [packets[last].value] else [])
  }

  /** The numbers asked for that are not buffered, in the order asked. */
  function NotFound(packets: seq<Option<Packet>>, sns: seq<u16>): seq<u16>
    requires |packets| == SLOTS
  {
    if |sns| == 0 then [] else
      var last := sns[|sns| - 1];
      NotFound(packets, sns[..|sns| - 1]) + (if packets[last].Some? then [] else [last])
  }

  function Numbers(ps: seq<Packet>): seq<u16> {
    if |ps| == 0 then [] else Numbers(ps[..|ps| - 1]) + [ps[|ps| - 1].sn]
  }

  /** Nothing asked for is lost or answered twice. */
  lemma {:induction false} SplitConserves(packets: seq<Option<Packet>>, sns: seq<u16>)
    requires |packets| == SLOTS
    requires forall i :: 0 <= i < SLOTS && packets[i].Some? ==> packets[i].value.sn == i
    ensures multiset(Numbers(Found(packets, sns))) + multiset(NotFound(packets, sns)) == multiset(sns)
  {
    hide Numbers;
    if |sns| == 0 {
      NumbersOfNone();
    } else {
      var init, last := sns[..|sns| - 1], sns[|sns| - 1];
      SplitConserves(packets, init);
      assert multiset(sns) == multiset(init) + multiset{last} by { assert sns == init + [last]; }
      if packets[last].Some? {
        NumbersAppend(Found(packets, init), packets[last].value);
        assert NotFound(packets, sns) == NotFound(packets, init);
      } else {
        assert Found(packets, sns) == Found(packets, init);
      }
    }
  }

  lemma {:induction false} NumbersOfNone()
    ensures Numbers([]) == []
  {
  }

  lemma {:induction false} NumbersAppend(ps: seq<Packet>, p: Packet)
    ensures Numbers(ps + [p]) == Numbers(ps) + [p.sn]
  {
    assert (ps + [p])[..|ps|] == ps;
  }

  /** What is answered was asked for and comes from the buffer; what is forwarded is not in it. */
  lemma {:induction false} SplitIsHonest(packets: seq<Option<Packet>>, sns: seq<u16>, ssrc: SSRC)
    requires |packets| == SLOTS && OfSource(packets, ssrc)
    requires forall i :: 0 <= i < SLOTS && packets[i].Some? ==> packets[i].value.sn == i
    ensures forall p :: p in Found(packets, sns) <==> p.sn in sns && packets[p.sn] == Some(p)
    ensures forall p :: p in Found(packets, sns) ==> p.ssrc == ssrc
    ensures forall sn :: sn in NotFound(packets, sns) <==> sn in sns && packets[sn].None?
  {
    if |sns| > 0 {
      SplitIsHonest(packets, sns[..|sns| - 1], ssrc);
      assert sns == sns[..|sns| - 1] + [sns[|sns| - 1]];
    }
  }

  lemma {:induction false} SplitNone(packets: seq<Option<Packet>>)
    requires |packets| == SLOTS
    ensures Found(packets, []) == [] && NotFound(packets, []) == []
  {
  }

  lemma {:induction false} SplitAppend(packets: seq<Option<Packet>>, sns: seq<u16>, sn: u16)
    requires |packets| == SLOTS
    ensures Found(packets, sns + [sn]) == Found(packets, sns) + if packets[sn].Some? then [packets[sn].value] else []
    ensures NotFound(packets, sns + [sn]) == NotFound(packets, sns) + if packets[sn].Some? then [] else [sn]
  {
    assert (sns + [sn])[..|sns|] == sns;
  }

  lemma {:induction false} SplitConcat(packets: seq<Option<Packet>>, a: seq<u16>, b: seq<u16>)
    requires |packets| == SLOTS
    ensures Found(packets, a + b) == Found(packets, a) + Found(packets, b)
    ensures NotFound(packets, a + b) == NotFound(packets, a) + NotFound(packets, b)
  {
    if |b| == 0 {
      assert a + b == a;
    } else {
      var init, last := b[..|b| - 1], b[|b| - 1];
      SplitConcat(packets, a, init);
      assert a + b == (a + init) + [last];
      SplitAppend(packets, a + init, last);
    }
  }

  /** What is left of one pair still fits one pair. */
  lemma {:induction false} NotFoundClimbs(packets: seq<Option<Packet>>, start: u16, sns: seq<u16>, n: nat)
    requires |packets| == SLOTS && Climbing(start, sns, n)
    ensures Climbing(start, NotFound(packets, sns), n)
  {
    hide SnDelta;
    if |sns| > 0 {
      var init, last := sns[..|sns| - 1], sns[|sns| - 1];
      assert Climbing(start, init, SnDelta(start, last));
      NotFoundClimbs(packets, start, init, SnDelta(start, last));
    }
  }

  lemma {:induction false} RepackedPair(packets: seq<Option<Packet>>, pair: NackPair)
    requires |packets| == SLOTS
    requires |NotFound(packets, Expand(pair))| > 0
    ensures Expand(PairOf(NotFound(packets, Expand(pair)))) == NotFound(packets, Expand(pair))
  {
    hide Expand, PairOf;
    ExpandInOrder(pair);
    NotFoundClimbs(packets, pair.packetId, Expand(pair), 17);
    ClimbingInOrder(pair.packetId, NotFound(packets, Expand(pair)));
    PairOfExpands(NotFound(packets, Expand(pair)));
  }

  /** One pair is left for each of the first n asked ones that is not all answered, in their order. */
  ghost predicate Leftovers(slots: seq<Option<Packet>>, asked: seq<NackPair>, n: nat, left: seq<NackPair>,
                            from: seq<nat>)
    requires |slots| == SLOTS && n <= |asked|
  {
    && |left| == |from|
    && (forall i, j :: 0 <= i < j < |from| ==> from[i] < from[j])
    && (forall i :: 0 <= i < |from| ==>
          from[i] < n && Expand(left[i]) == NotFound(slots, Expand(asked[from[i]])) && |Expand(left[i])| > 0)
    && (forall k :: 0 <= k < n && k !in from ==> NotFound(slots, Expand(asked[k])) == [])
  }

  lemma {:induction false} OneMoreLeft(slots: seq<Option<Packet>>, asked: seq<NackPair>, n: nat, left: seq<NackPair>,
                                       from: seq<nat>, pair: NackPair)
    requires |slots| == SLOTS && n < |asked| && Leftovers(slots, asked, n, left, from)
    requires Expand(pair) == NotFound(slots, Expand(asked[n])) && |Expand(pair)| > 0
    ensures Leftovers(slots, asked, n + 1, left + [pair], from + [n])
  {
    hide Expand, NotFound;
    assert n in from + [n] && forall k :: k in from ==> k in from + [n];
  }

  lemma {:induction false} NoMoreLeft(slots: seq<Option<Packet>>, asked: seq<NackPair>, n: nat, left: seq<NackPair>,
                                      from: seq<nat>)
    requires |slots| == SLOTS
    ensures n < |asked| && Leftovers(slots, asked, n, left, from) && NotFound(slots, Expand(asked[n])) == [] ==>
              Leftovers(slots, asked, n + 1, left, from)
    ensures Leftovers(slots, asked, 0, [], [])
  {
    hide Expand, NotFound;
  }

  class NackHandler {
    const jitterBuffer: JitterBuffer

    constructor (jitterBuffer: JitterBuffer)
      ensures this.jitterBuffer == jitterBuffer
    {
      this.jitterBuffer := jitterBuffer;
    }

    /** Answers what is buffered and forwards the rest; there is nothing to forward iff all was found. */
    method HandleNack(nack: TransportLayerNack)
      returns (rtpPackets: seq<Packet>, forwarded: Option<TransportLayerNack>, ghost from: seq<nat>)
      requires jitterBuffer.Valid()
      ensures forwarded.Some? ==>
                Leftovers(jitterBuffer.StateOf(nack.mediaSSRC).packets, nack.nacks, |nack.nacks|,
                          forwarded.value.nacks, from)
      ensures var slots, asked := jitterBuffer.StateOf(nack.mediaSSRC).packets, ExpandAll(nack.nacks);
              && rtpPackets == Found(slots, asked)
              && (forwarded.None? <==> NotFound(slots, asked) == [])
              && (forwarded.Some? ==>
                    && forwarded.value.mediaSSRC == nack.mediaSSRC
                    && forwarded.value.senderSSRC == nack.senderSSRC
                    && ExpandAll(forwarded.value.nacks) == NotFound(slots, asked))
    {
      hide Expand, PairOf, Found, NotFound, Leftovers, Follows;
      ghost var slots := jitterBuffer.StateOf(nack.mediaSSRC).packets;
      var actualNacks: seq<NackPair> := [];
      rtpPackets, from := [], [];
      SplitNone(slots);
      NoMoreLeft(slots, nack.nacks, 0, [], []);
      for i := 0 to |nack.nacks|
        invariant rtpPackets == Found(slots, ExpandFirst(nack.nacks, i))
        invariant ExpandAll(actualNacks) == NotFound(slots, ExpandFirst(nack.nacks, i))
        invariant Leftovers(slots, nack.nacks, i, actualNacks, from)
        invariant |actualNacks| == 0 <==> |NotFound(slots, ExpandFirst(nack.nacks, i))| == 0
      {
        var nackPackets := Expand(nack.nacks[i]);
        var notFound: seq<u16> := [];
        ghost var answered := rtpPackets;
        for j := 0 to |nackPackets|
          invariant rtpPackets == answered + Found(slots, nackPackets[..j])
          invariant notFound == NotFound(slots, nackPackets[..j])
        {
          var sn := nackPackets[j];
          assert nackPackets[..j + 1] == nackPackets[..j] + [sn];
          SplitAppend(slots, nackPackets[..j], sn);
          var rtpPacket := jitterBuffer.GetPacket(nack.mediaSSRC, sn);
          if rtpPacket.None? {
            notFound := notFound + [sn];
            continue;
          }
          rtpPackets := rtpPackets + [rtpPacket.value];
        }
        assert nackPackets[..|nackPackets|] == nackPackets;
        SplitConcat(slots, ExpandFirst(nack.nacks, i), nackPackets);
        NoMoreLeft(slots, nack.nacks, i, actualNacks, from);
        if |notFound| > 0 {
          RepackedPair(slots, nack.nacks[i]);
          var pair := CreateNackPair(notFound);
          SingleExpands(pair);
          ExpandAllConcat(actualNacks, [pair]);
          OneMoreLeft(slots, nack.nacks, i, actualNacks, from, pair);
          from := from + [i];
          actualNacks := actualNacks + [pair];
        }
      }
      if |actualNacks| == 0 {
        return rtpPackets, None, from;
      }
      forwarded := Some(TransportLayerNack(nack.senderSSRC, nack.mediaSSRC, actualNacks));
    }
  }

  lemma {:induction false} SingleExpands(pair: NackPair)
    ensures ExpandAll([pair]) == Expand(pair)
  {
    assert ExpandFirst([pair], 0) == [];
  }
}
