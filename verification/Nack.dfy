/**
 Generic NACK pairs: a first lost sequence number and a 16-bit mask of the following lost packets,
 section 6.2.1 of RFC 4585. All sequence numbers are uint16 and wrap.
 */
module Nack {
  import opened Bitmap
  import opened Wrappers

  /** One lost packet plus the sixteen that follow it. */
  const MAX_NACK_PAIR_SIZE: u16 := 17

  datatype NackPair = NackPair(packetId: u16, lostPackets: Bitmap)

  datatype TransportLayerNack = TransportLayerNack(senderSSRC: SSRC, mediaSSRC: SSRC, nacks: seq<NackPair>)

  function SnDelta(startSN: u16, endSN: u16): u16 {
    Wrap(endSN - startSN)
  }

  lemma {:induction false} DeltaReaches(startSN: u16, endSN: u16)
    ensures Wrap(startSN + SnDelta(startSN, endSN)) == endSN
    ensures SnDelta(startSN, endSN) == 0 <==> startSN == endSN
  {
  }

  // ---------------------------------------------------------------- bit masks

  function CalcBLP(fsn: u16, missingSN: u16): Bitmap {
    One(Wrap(missingSN - fsn - 1))
  }

  function AddBLP(fsn: u16, missingSN: u16, blp: Bitmap): Bitmap {
    Or(blp, CalcBLP(fsn, missingSN))
  }

  function SubBLP(fsn: u16, foundSN: u16, blp: Bitmap): Bitmap {
    AndNot(blp, CalcBLP(fsn, foundSN))
  }

  /** Adding a number sets its own bit, subtracting clears it, and neither touches another bit. */
  lemma {:induction false} AddSubBLPBits(fsn: u16, sn: u16, blp: Bitmap, k: nat)
    requires k < 16
    ensures k in AddBLP(fsn, sn, blp) <==> k in blp || sn == Wrap(fsn + k + 1)
    ensures k in SubBLP(fsn, sn, blp) <==> k in blp && sn != Wrap(fsn + k + 1)
  {
    assert Wrap(sn - fsn - 1) == k <==> sn == Wrap(fsn + k + 1);
  }

  // ---------------------------------------------------------------- expansion of a pair

  /** The numbers named by the lowest n bits of the mask. */
  function MaskList(fsn: u16, blp: Bitmap, n: nat): seq<u16>
    requires n <= 16
    decreases n, fsn
  {
    if n == 0 then [] else
      MaskList(fsn, blp, n - 1) + (if n - 1 in blp then [Wrap(fsn + n)] else [])
  }

  /** The packets a NACK pair asks for, as section 6.2.1 of RFC 4585 defines them. */
  function Expand(pair: NackPair): seq<u16> {
    [pair.packetId] + MaskList(pair.packetId, pair.lostPackets, 16)
  }

  lemma {:induction false} MaskListHas(fsn: u16, blp: Bitmap, n: nat)
    requires n <= 16
    ensures forall sn :: sn in MaskList(fsn, blp, n) <==>
              exists k :: 0 <= k < n && k in blp && sn == Wrap(fsn + k + 1)
  {
    if n > 0 {
      MaskListHas(fsn, blp, n - 1);
    }
  }

  /** A pair names its packet id, and bit k names the number k + 1 after it. */
  lemma {:induction false} ExpandExact(pair: NackPair)
    ensures Expand(pair)[0] == pair.packetId
    ensures forall sn :: sn in Expand(pair) <==>
              sn == pair.packetId || exists k :: k in pair.lostPackets && sn == Wrap(pair.packetId + k + 1)
  {
    MaskListHas(pair.packetId, pair.lostPackets, 16);
  }

  function ExpandFirst(pairs: seq<NackPair>, n: nat): seq<u16>
    requires n <= |pairs|
  {
    if n == 0 then [] else ExpandFirst(pairs, n - 1) + Expand(pairs[n - 1])
  }

  function ExpandAll(pairs: seq<NackPair>): seq<u16> {
    ExpandFirst(pairs, |pairs|)
  }

  lemma {:induction false} ExpandFirstPrefix(a: seq<NackPair>, b: seq<NackPair>, n: nat)
    requires n <= |a| && n <= |b|
    requires forall i :: 0 <= i < n ==> a[i] == b[i]
    ensures ExpandFirst(a, n) == ExpandFirst(b, n)
  {
    if n > 0 {
      ExpandFirstPrefix(a, b, n - 1);
    }
  }

  lemma {:induction false} ExpandFirstConcat(a: seq<NackPair>, b: seq<NackPair>, n: nat)
    requires n <= |b|
    ensures ExpandFirst(a + b, |a| + n) == ExpandAll(a) + ExpandFirst(b, n)
  {
    hide Expand;
    if n == 0 {
      ExpandFirstPrefix(a, a + b, |a|);
    } else {
      ExpandFirstConcat(a, b, n - 1);
      ConcatAssoc(ExpandAll(a), ExpandFirst(b, n - 1), Expand(b[n - 1]));
    }
  }

  lemma {:induction false} ExpandAllConcat(a: seq<NackPair>, b: seq<NackPair>)
    ensures ExpandAll(a + b) == ExpandAll(a) + ExpandAll(b)
  {
    ExpandFirstConcat(a, b, |b|);
  }

  // ---------------------------------------------------------------- CreateNackPair

  /** Distances from start grow along the list and stay below n. */
  ghost predicate Climbing(start: u16, sns: seq<u16>, n: nat) {
    && (forall k :: 0 <= k < |sns| ==> SnDelta(start, sns[k]) < n)
    && (forall j, k :: 0 <= j < k < |sns| ==> SnDelta(start, sns[j]) < SnDelta(start, sns[k]))
  }

  lemma {:induction false} ClimbingInOrder(start: u16, sns: seq<u16>)
    requires |sns| > 0 && Climbing(start, sns, 17)
    ensures InOrder(sns)
  {
    forall k | 0 <= k < |sns| ensures SnDelta(sns[0], sns[k]) == SnDelta(start, sns[k]) - SnDelta(start, sns[0]) {
      if k > 0 {
        assert SnDelta(start, sns[0]) < SnDelta(start, sns[k]);
      }
    }
  }

  /** The numbers follow the first one in order, each within the reach of one mask. */
  predicate InOrder(sns: seq<u16>) {
    && |sns| > 0
    && forall j, k :: 0 <= j < k < |sns| ==> SnDelta(sns[0], sns[j]) < SnDelta(sns[0], sns[k]) <= 16
  }

  function PairOf(sns: seq<u16>): (pair: NackPair)
    ensures |sns| > 0 ==> pair.packetId == sns[0]
  {
    if sns == [] then NackPair(0, ZERO)
    else if |sns| == 1 then NackPair(sns[0], ZERO)
    else
      var rest := PairOf(sns[..|sns| - 1]);
      NackPair(sns[0], AddBLP(sns[0], sns[|sns| - 1], rest.lostPackets))
  }

  /** Some later number is d after the first one. */
  predicate Follows(sns: seq<u16>, d: nat) {
    exists i :: 0 < i < |sns| && sns[i] == Wrap(sns[0] as int + d)
  }

  lemma {:induction false} FollowsAppend(sns: seq<u16>, d: nat)
    requires |sns| > 1
    ensures Follows(sns, d) <==>
            Follows(sns[..|sns| - 1], d) || sns[|sns| - 1] == Wrap(sns[0] as int + d)
  {
    hide Wrap;
    var init := sns[..|sns| - 1];
    if Follows(init, d) {
      var i :| 0 < i < |init| && init[i] == Wrap(init[0] as int + d);
      assert sns[i] == init[i];
    }
    if Follows(sns, d) {
      var i :| 0 < i < |sns| && sns[i] == Wrap(sns[0] as int + d);
      assert i < |init| ==> init[i] == sns[i];
    }
  }

  /** For any list, bit k is set if and only if a later number is k + 1 after the first one. */
  lemma {:induction false} PairOfExact(sns: seq<u16>)
    ensures |sns| == 0 ==> PairOf(sns) == NackPair(0, {})
    ensures |sns| > 0 ==> PairOf(sns).packetId == sns[0]
    ensures |sns| > 0 ==> forall k :: 0 <= k < 16 ==> (k in PairOf(sns).lostPackets <==> Follows(sns, k + 1))
  {
    hide AddBLP, Follows;
    if |sns| > 1 {
      var init, last := sns[..|sns| - 1], sns[|sns| - 1];
      PairOfExact(init);
      forall k | 0 <= k < 16 ensures k in PairOf(sns).lostPackets <==> Follows(sns, k + 1) {
        AddSubBLPBits(sns[0], last, PairOf(init).lostPackets, k);
        FollowsAppend(sns, k + 1);
      }
    } else if |sns| == 1 {
      forall d ensures !Follows(sns, d) {
        FollowsNone(sns, d);
      }
    }
  }

  lemma {:induction false} FollowsNone(sns: seq<u16>, d: nat)
    requires |sns| <= 1
    ensures !Follows(sns, d)
  {
  }

  method CreateNackPair(sequenceNumbers: seq<u16>) returns (pair: NackPair)
    ensures pair == PairOf(sequenceNumbers)
    ensures |sequenceNumbers| == 0 ==> pair == NackPair(0, {})
    ensures |sequenceNumbers| > 0 ==>
              && pair.packetId == sequenceNumbers[0]
              && forall k :: 0 <= k < 16 ==> (k in pair.lostPackets <==> Follows(sequenceNumbers, k + 1))
  {
    hide Follows;
    PairOfExact(sequenceNumbers);
    if |sequenceNumbers| == 0 {
      return NackPair(0, ZERO);
    }
    var fsn := sequenceNumbers[0];
    var blp := ZERO;
    for i := 1 to |sequenceNumbers|
      invariant NackPair(fsn, blp) == PairOf(sequenceNumbers[..i])
    {
      blp := AddBLP(fsn, sequenceNumbers[i], blp);
      assert sequenceNumbers[..i + 1][..i] == sequenceNumbers[..i];
    }
    assert sequenceNumbers[..|sequenceNumbers|] == sequenceNumbers;
    return NackPair(fsn, blp);
  }

  /** Only bits below n matter to MaskList. */
  lemma {:induction false} MaskListDepends(fsn: u16, a: Bitmap, b: Bitmap, n: nat)
    requires n <= 16
    requires forall k :: 0 <= k < n ==> (k in a <==> k in b)
    ensures MaskList(fsn, a, n) == MaskList(fsn, b, n)
  {
    if n > 0 {
      MaskListDepends(fsn, a, b, n - 1);
    }
  }

  /** Bits at n and above are clear, so they add nothing. */
  lemma {:induction false} MaskListTop(fsn: u16, blp: Bitmap, n: nat, top: nat)
    requires n <= top <= 16
    requires forall k :: n <= k < top ==> k !in blp
    ensures MaskList(fsn, blp, top) == MaskList(fsn, blp, n)
  {
    if n < top {
      MaskListTop(fsn, blp, n, top - 1);
    }
  }

  lemma {:induction false} MaskListAdd(fsn: u16, blp: Bitmap, before: nat, reach: nat)
    requires before < reach <= 16
    requires forall k :: k in blp ==> k < before
    ensures MaskList(fsn, blp + {reach - 1}, reach) == MaskList(fsn, blp, before) + [Wrap(fsn + reach)]
  {
    MaskListTop(fsn, blp, before, reach - 1);
    MaskListDepends(fsn, blp, blp + {reach - 1}, reach - 1);
  }

  lemma {:induction false} AddBLPInReach(fsn: u16, sn: u16, blp: Bitmap)
    requires 0 < SnDelta(fsn, sn) <= 16
    ensures AddBLP(fsn, sn, blp) == blp + {SnDelta(fsn, sn) - 1}
    ensures Wrap(fsn + SnDelta(fsn, sn)) == sn
  {
  }

  lemma {:induction false} PairOfBits(sns: seq<u16>, n: nat)
    requires InOrder(sns) && 0 < n <= |sns|
    ensures forall k :: k in PairOf(sns[..n]).lostPackets ==> k < SnDelta(sns[0], sns[n - 1])
    ensures MaskList(sns[0], PairOf(sns[..n]).lostPackets, SnDelta(sns[0], sns[n - 1])) == sns[1..n]
  {
    if n > 1 {
      PairOfBits(sns, n - 1);
      var fsn, prior := sns[0], PairOf(sns[..n - 1]).lostPackets;
      PairOfSnoc(sns, n);
      AddBLPInReach(fsn, sns[n - 1], prior);
      MaskListAdd(fsn, prior, SnDelta(fsn, sns[n - 2]), SnDelta(fsn, sns[n - 1]));
    }
  }

  lemma {:induction false} PairOfSnoc(sns: seq<u16>, n: nat)
    requires 1 < n <= |sns|
    ensures PairOf(sns[..n]).lostPackets == AddBLP(sns[0], sns[n - 1], PairOf(sns[..n - 1]).lostPackets)
  {
    assert sns[..n][..n - 1] == sns[..n - 1];
  }

  lemma {:induction false} MaskListInOrder(fsn: u16, blp: Bitmap, n: nat)
    requires n <= 16
    ensures forall j :: 0 <= j < |MaskList(fsn, blp, n)| ==> 0 < SnDelta(fsn, MaskList(fsn, blp, n)[j]) <= n
    ensures forall j, k :: 0 <= j < k < |MaskList(fsn, blp, n)| ==>
              SnDelta(fsn, MaskList(fsn, blp, n)[j]) < SnDelta(fsn, MaskList(fsn, blp, n)[k])
  {
    if n > 0 {
      MaskListInOrder(fsn, blp, n - 1);
      assert SnDelta(fsn, Wrap(fsn + n)) == n;
    }
  }

  lemma {:induction false} ExpandInOrder(pair: NackPair)
    ensures Climbing(pair.packetId, Expand(pair), 17)
    ensures InOrder(Expand(pair))
  {
    MaskListInOrder(pair.packetId, pair.lostPackets, 16);
    assert SnDelta(pair.packetId, pair.packetId) == 0;
    ClimbingInOrder(pair.packetId, Expand(pair));
  }

  lemma {:induction false} PairOfExpands(sns: seq<u16>)
    requires InOrder(sns)
    ensures Expand(PairOf(sns)) == sns
  {
    PairOfBits(sns, |sns|);
    assert sns[..|sns|] == sns;
    MaskListTop(sns[0], PairOf(sns).lostPackets, SnDelta(sns[0], sns[|sns| - 1]), 16);
  }

  /** CreateNackPair loses nothing exactly on non-empty in-order lists that span at most sixteen. */
  lemma {:induction false} CreateNackPairExact(sns: seq<u16>)
    ensures Expand(PairOf(sns)) == sns <==> InOrder(sns)
  {
    if InOrder(sns) {
      PairOfExpands(sns);
    }
    ExpandInOrder(PairOf(sns));
  }
}
