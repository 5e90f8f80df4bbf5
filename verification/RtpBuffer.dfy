/**
 The ring buffer of recent RTP packets: one slot per 16-bit sequence number, eviction driven by
 RTP timestamps, and a report of the numbers missing from the last window.
 */
module RtpBuffer {
  import opened Bitmap
  import opened Nack
  import opened Wrappers

  const SLOTS: int := 0x1_0000

  /** Two seconds of a 90 kHz video clock. */
  const MAX_BUFFER_TS_DELTA: int := 180_000

  datatype Packet = Packet(ssrc: SSRC, sn: u16, ts: u32, payload: seq<byte>)

  datatype BufferState = BufferState(
    packets: seq<Option<Packet>>,
    initialized: bool,
    lastPushSN: u16,
    lastNackSN: u16,
    lastClearTS: u32,
    lastClearSN: u16,
    nackWindowSize: u16,
    ssrc: SSRC)
  {
    /** Every occupied slot holds the packet of its own number. */
    ghost predicate Valid() {
      && |packets| == SLOTS
      && forall i :: 0 <= i < SLOTS && packets[i].Some? ==> packets[i].value.sn == i
    }
  }

  /** Go's uint32 subtraction of the smaller from the larger: a distance, not a wrapped difference. */
  function TsDelta(ts1: u32, ts2: u32): u32 {
    if ts1 > ts2 then ts1 - ts2 else ts2 - ts1
  }

  // ---------------------------------------------------------------- specification of the report

  /** The numbers among start, start + 1, ..., start + n - 1 (mod 2^16) whose slot is empty. */
  function Missing(packets: seq<Option<Packet>>, start: int, n: nat): seq<u16>
    requires |packets| == SLOTS
    decreases n, start
  {
    if n == 0 then [] else
      Missing(packets, start, n - 1) + (if packets[Wrap(start + n - 1)].None? then [Wrap(start + n - 1)] else [])
  }

  /** One pair for each run of seventeen numbers that misses some. */
  function NackPairs(packets: seq<Option<Packet>>, start: int, runs: nat): seq<NackPair>
    requires |packets| == SLOTS
  {
    if runs == 0 then [] else
      NackPairs(packets, start, runs - 1) + RunPair(packets, start + 17 * (runs - 1), 17)
  }

  function RunPair(packets: seq<Option<Packet>>, start: int, n: nat): seq<NackPair>
    requires |packets| == SLOTS
  {
    var missing := Missing(packets, start, n);
    if |missing| == 0 then [] else [PairOf(missing)]
  }

  /** The report over n numbers from start: whole runs of seventeen, then what is left. */
  function Report(packets: seq<Option<Packet>>, start: int, n: nat): seq<NackPair>
    requires |packets| == SLOTS
  {
    NackPairs(packets, start, n / 17) + RunPair(packets, start + n / 17 * 17, n % 17)
  }

  // ---------------------------------------------------------------- specification of the clearing scan

  lemma {:induction false} NextIsCloser(i: u16, sn: u16)
    ensures i != sn ==> SnDelta(Wrap(i + 1), sn) < SnDelta(i, sn)
  {
  }

  datatype Scan = Scan(packets: seq<Option<Packet>>, lastClearTS: u32, lastClearSN: u16)

  /** The scan from number i (mod 2^16) up to sn: drop old packets, stop at the first recent one. */
  function ClearScan(s: Scan, i: u16, sn: u16, ts: u32): Scan
    requires |s.packets| == SLOTS
    decreases SnDelta(i, sn)
  {
    NextIsCloser(i, sn);
    if i == sn then s
    else match s.packets[i]
      case None => ClearScan(s, Wrap(i + 1), sn, ts)
      case Some(p) =>
        if TsDelta(ts, p.ts) < MAX_BUFFER_TS_DELTA then s
        else ClearScan(Scan(s.packets[i := None], p.ts, i), Wrap(i + 1), sn, ts)
  }

  // ---------------------------------------------------------------- specification of Push

  function Init(s: BufferState, p: Packet): BufferState {
    if s.initialized then s
    else s.(lastNackSN := p.sn, lastClearTS := p.ts, lastClearSN := Wrap(p.sn - 1), ssrc := p.ssrc, initialized := true)
  }

  function Store(s: BufferState, p: Packet): BufferState
    requires |s.packets| == SLOTS
  {
    s.(packets := s.packets[p.sn := Some(p)], lastPushSN := p.sn)
  }

  function Clear(s: BufferState, ts: u32, sn: u16): BufferState
    requires |s.packets| == SLOTS
  {
    if TsDelta(ts, s.lastClearTS) >= MAX_BUFFER_TS_DELTA then
      var r := ClearScan(Scan(s.packets, s.lastClearTS, s.lastClearSN), Wrap(s.lastClearSN + 1), sn, ts);
      s.(packets := r.packets, lastClearTS := r.lastClearTS, lastClearSN := r.lastClearSN)
    else s
  }

  predicate ReportDue(s: BufferState, sn: u16) {
    SnDelta(s.lastNackSN, sn) >= s.nackWindowSize
  }

  function AfterReport(s: BufferState, sn: u16): BufferState {
    if ReportDue(s, sn) then s.(lastNackSN := sn) else s
  }

  function NackFor(s: BufferState, sn: u16): Option<TransportLayerNack>
    requires |s.packets| == SLOTS
  {
    var start := Wrap(sn - s.nackWindowSize);
    if ReportDue(s, sn) && |Missing(s.packets, start, s.nackWindowSize)| > 0 then
      Some(TransportLayerNack(s.ssrc, s.ssrc, Report(s.packets, start, s.nackWindowSize)))
    else None
  }

  /** The state in which Push decides whether to report. */
  function Settled(s: BufferState, p: Packet): BufferState
    requires |s.packets| == SLOTS
  {
    Clear(Store(Init(s, p), p), p.ts, p.sn)
  }

  // ---------------------------------------------------------------- what holds for any input

  lemma {:induction false} ClearScanKeeps(s: Scan, i: u16, sn: u16, ts: u32, k: u16)
    requires |s.packets| == SLOTS
    ensures var r := ClearScan(s, i, sn, ts);
            && |r.packets| == SLOTS
            && (r.packets[k] == s.packets[k] || r.packets[k] == None)
            && r.packets[sn] == s.packets[sn]
    decreases SnDelta(i, sn)
  {
    if i != sn {
      match s.packets[i]
      case None => ClearScanKeeps(s, Wrap(i + 1), sn, ts, k);
      case Some(p) =>
        if TsDelta(ts, p.ts) >= MAX_BUFFER_TS_DELTA {
          ClearScanKeeps(Scan(s.packets[i := None], p.ts, i), Wrap(i + 1), sn, ts, k);
        }
    }
  }

  lemma {:induction false} ClearScanSpares(s: Scan, i: u16, sn: u16, ts: u32, k: u16)
    requires |s.packets| == SLOTS && s.packets[k].Some? && TsDelta(ts, s.packets[k].value.ts) < MAX_BUFFER_TS_DELTA
    ensures |ClearScan(s, i, sn, ts).packets| == SLOTS && ClearScan(s, i, sn, ts).packets[k] == s.packets[k]
    decreases SnDelta(i, sn)
  {
    if i != sn {
      match s.packets[i]
      case None => ClearScanSpares(s, Wrap(i + 1), sn, ts, k);
      case Some(p) =>
        if TsDelta(ts, p.ts) >= MAX_BUFFER_TS_DELTA {
          ClearScanSpares(Scan(s.packets[i := None], p.ts, i), Wrap(i + 1), sn, ts, k);
        }
    }
  }

  /** A push fills its own slot, and of the others empties at most those whose packet is too old. */
  lemma {:induction false} PushSpares(s: BufferState, p: Packet, k: u16)
    requires |s.packets| == SLOTS
    ensures |Settled(s, p).packets| == SLOTS && Settled(s, p).packets[p.sn] == Some(p)
    ensures k != p.sn ==> Settled(s, p).packets[k] == s.packets[k] || Settled(s, p).packets[k].None?
    ensures k != p.sn && s.packets[k].Some? && TsDelta(p.ts, s.packets[k].value.ts) < MAX_BUFFER_TS_DELTA ==>
              Settled(s, p).packets[k] == s.packets[k]
  {
    hide ClearScan, Wrap;
    var stored := Store(Init(s, p), p);
    var scan, from := Scan(stored.packets, stored.lastClearTS, stored.lastClearSN), Wrap(stored.lastClearSN + 1);
    ClearScanKeeps(scan, from, p.sn, p.ts, k);
    if stored.packets[k].Some? && TsDelta(p.ts, stored.packets[k].value.ts) < MAX_BUFFER_TS_DELTA {
      ClearScanSpares(scan, from, p.sn, p.ts, k);
    }
  }

  /** Whatever is pushed, in any order: slots hold their own numbers and the pushed packet stays. */
  lemma {:induction false} PushKeepsSlots(s: BufferState, p: Packet)
    requires s.Valid()
    ensures AfterReport(Settled(s, p), p.sn).Valid()
    ensures AfterReport(Settled(s, p), p.sn).packets[p.sn] == Some(p)
  {
    var stored := Store(Init(s, p), p);
    var scan, from := Scan(stored.packets, stored.lastClearTS, stored.lastClearSN), Wrap(stored.lastClearSN + 1);
    forall k: int | 0 <= k < SLOTS
      ensures |ClearScan(scan, from, p.sn, p.ts).packets| == SLOTS
      ensures var r := ClearScan(scan, from, p.sn, p.ts).packets;
              (r[k] == stored.packets[k] || r[k] == None) && r[p.sn] == Some(p)
    {
      ClearScanKeeps(scan, from, p.sn, p.ts, k);
    }
    ClearScanKeeps(scan, from, p.sn, p.ts, p.sn);
  }

  // ---------------------------------------------------------------- the report is exact

  lemma {:induction false} MissingConcat(packets: seq<Option<Packet>>, start: int, n: nat, m: nat)
    requires |packets| == SLOTS
    ensures Missing(packets, start, n + m) == Missing(packets, start, n) + Missing(packets, start + n, m)
  {
    if m > 0 {
      MissingConcat(packets, start, n, m - 1);
      var i: u16 := Wrap(start + n + m - 1);
      ConcatAssoc(Missing(packets, start, n), Missing(packets, start + n, m - 1),
                  if packets[i].None? then [i] else []);
    }
  }

  /** A run of seventeen fits one pair: its mask never needs more than sixteen bits. */
  lemma {:induction false} MissingClimbs(packets: seq<Option<Packet>>, start: int, n: nat)
    requires |packets| == SLOTS && n <= SLOTS
    ensures Climbing(Wrap(start), Missing(packets, start, n), n)
  {
    if n > 0 {
      MissingClimbs(packets, start, n - 1);
      assert SnDelta(Wrap(start), Wrap(start + n - 1)) == n - 1;
    }
  }

  /** No number after the first needs a mask bit above bit fifteen. */
  predicate ShiftsFit(sns: seq<u16>) {
    forall j :: 0 < j < |sns| ==> 0 <= SnDelta(sns[0], sns[j]) - 1 <= 15
  }

  /** One pair is enough for the missing numbers of a run of seventeen. */
  lemma {:induction false} RunFitsPair(packets: seq<Option<Packet>>, start: int, n: nat)
    requires |packets| == SLOTS && n <= 17
    ensures var m := Missing(packets, start, n);
            ShiftsFit(m) && (|m| > 0 ==> Expand(PairOf(m)) == m)
  {
    MissingClimbs(packets, start, n);
    var m := Missing(packets, start, n);
    if |m| > 0 {
      ClimbingInOrder(Wrap(start), m);
      PairOfExpands(m);
    }
  }

  lemma {:induction false} RunPairExpands(packets: seq<Option<Packet>>, start: int, n: nat)
    requires |packets| == SLOTS && n <= 17
    ensures ExpandAll(RunPair(packets, start, n)) == Missing(packets, start, n)
  {
    var m := Missing(packets, start, n);
    if |m| > 0 {
      MissingClimbs(packets, start, n);
      ClimbingInOrder(Wrap(start), m);
      PairOfExpands(m);
      assert ExpandFirst([PairOf(m)], 0) == [];
    }
  }

  /** Appending the pair of the next run keeps the expansion equal to the missing numbers. */
  lemma {:induction false} RunExtends(packets: seq<Option<Packet>>, start: int, done: nat, pairs: seq<NackPair>, n: nat)
    requires |packets| == SLOTS && n <= 17
    requires ExpandAll(pairs) == Missing(packets, start, done)
    ensures ExpandAll(pairs + RunPair(packets, start + done, n)) == Missing(packets, start, done + n)
  {
    RunPairExpands(packets, start + done, n);
    ExpandAllConcat(pairs, RunPair(packets, start + done, n));
    MissingConcat(packets, start, done, n);
  }

  lemma {:induction false} NackPairsStep(packets: seq<Option<Packet>>, start: int, runs: nat)
    requires |packets| == SLOTS
    requires ExpandAll(NackPairs(packets, start, runs)) == Missing(packets, start, 17 * runs)
    ensures ExpandAll(NackPairs(packets, start, runs + 1)) == Missing(packets, start, 17 * (runs + 1))
  {
    hide ExpandAll, Missing, RunPair;
    RunExtends(packets, start, 17 * runs, NackPairs(packets, start, runs), 17);
  }

  lemma {:induction false} NackPairsExpand(packets: seq<Option<Packet>>, start: int, runs: nat)
    requires |packets| == SLOTS
    ensures ExpandAll(NackPairs(packets, start, runs)) == Missing(packets, start, 17 * runs)
  {
    hide Expand, RunPair;
    if runs > 0 {
      NackPairsExpand(packets, start, runs - 1);
      NackPairsStep(packets, start, runs - 1);
    }
  }

  /** The pairs of a report ask for exactly the missing numbers of its range, in order. */
  lemma {:induction false} ReportExpands(packets: seq<Option<Packet>>, start: int, n: nat)
    requires |packets| == SLOTS
    ensures ExpandAll(Report(packets, start, n)) == Missing(packets, start, n)
  {
    hide ExpandAll, Missing, RunPair, NackPairs;
    NackPairsExpand(packets, start, n / 17);
    RunExtends(packets, start, n / 17 * 17, NackPairs(packets, start, n / 17), n % 17);
  }

  lemma {:induction false} DeltaIs(start: int, d: nat, sn: u16)
    requires d < SLOTS
    ensures SnDelta(Wrap(start), sn) == d <==> sn == Wrap(start + d)
  {
  }

  /** Missing lists each empty slot of a range of at most one cycle once, and nothing else. */
  lemma {:induction false} MissingExact(packets: seq<Option<Packet>>, start: int, n: nat)
    requires |packets| == SLOTS && n <= SLOTS
    ensures forall sn: u16 :: sn in Missing(packets, start, n) <==> SnDelta(Wrap(start), sn) < n && packets[sn].None?
    ensures forall j, k :: 0 <= j < k < |Missing(packets, start, n)| ==>
              Missing(packets, start, n)[j] != Missing(packets, start, n)[k]
  {
    hide Wrap, SnDelta;
    if n > 0 {
      MissingExact(packets, start, n - 1);
      forall sn: u16 ensures SnDelta(Wrap(start), sn) == n - 1 <==> sn == Wrap(start + n - 1) {
        DeltaIs(start, n - 1, sn);
      }
    }
  }

  /** The run of at most seventeen numbers that starts at number 17 r of the range. */
  function RunOf(packets: seq<Option<Packet>>, start: int, n: nat, r: nat): seq<u16>
    requires |packets| == SLOTS && 17 * r <= n
  {
    Missing(packets, start + 17 * r, Min(17, n - 17 * r))
  }

  /** Each pair is that of one run, and runs come in order. */
  ghost predicate PairsOfRuns(pairs: seq<NackPair>, runs: seq<nat>, packets: seq<Option<Packet>>, start: int, n: nat)
    requires |packets| == SLOTS
  {
    && |pairs| == |runs|
    && (forall i, j :: 0 <= i < j < |runs| ==> runs[i] < runs[j])
    && (forall i :: 0 <= i < |runs| ==> 17 * runs[i] < n && Expand(pairs[i]) == RunOf(packets, start, n, runs[i]))
  }

  /** One more run: nothing is missing from it, or its pair comes last. */
  lemma {:induction false} OneMoreRun(pairs: seq<NackPair>, runs: seq<nat>, packets: seq<Option<Packet>>, start: int,
                                      n: nat, r: nat)
    returns (more: seq<nat>)
    requires |packets| == SLOTS && 17 * r <= n
    requires PairsOfRuns(pairs, runs, packets, start, n) && forall i :: 0 <= i < |runs| ==> runs[i] < r
    ensures var size := Min(17, n - 17 * r);
            PairsOfRuns(pairs + RunPair(packets, start + 17 * r, size), more, packets, start, n)
    ensures forall i :: 0 <= i < |more| ==> more[i] < r + 1
  {
    hide Missing, Expand, PairOf;
    var size: nat := Min(17, n - 17 * r);
    RunFitsPair(packets, start + 17 * r, size);
    if |Missing(packets, start + 17 * r, size)| > 0 {
      NoneOfNone(packets, start + 17 * r, size);
      more := runs + [r];
    } else {
      more := runs;
    }
  }

  lemma {:induction false} NackPairsOfRuns(packets: seq<Option<Packet>>, start: int, n: nat, r: nat)
    returns (runs: seq<nat>)
    requires |packets| == SLOTS && 17 * r <= n
    ensures PairsOfRuns(NackPairs(packets, start, r), runs, packets, start, n)
    ensures forall i :: 0 <= i < |runs| ==> runs[i] < r
  {
    hide Missing, Expand, RunOf, RunPair;
    runs := [];
    if r > 0 {
      hide PairsOfRuns;
      var before := NackPairsOfRuns(packets, start, n, r - 1);
      assert Min(17, n - 17 * (r - 1)) == 17;
      assert NackPairs(packets, start, r) ==
             NackPairs(packets, start, r - 1) + RunPair(packets, start + 17 * (r - 1), 17);
      hide NackPairs;
      runs := OneMoreRun(NackPairs(packets, start, r - 1), before, packets, start, n, r - 1);
    }
  }

  /** A report has at most one pair for each seventeen numbers, with just what that run misses. */
  lemma {:induction false} ReportOfRuns(packets: seq<Option<Packet>>, start: int, n: nat) returns (runs: seq<nat>)
    requires |packets| == SLOTS
    ensures PairsOfRuns(Report(packets, start, n), runs, packets, start, n)
  {
    hide PairsOfRuns, RunPair, NackPairs;
    var r := n / 17;
    runs := NackPairsOfRuns(packets, start, n, r);
    runs := OneMoreRun(NackPairs(packets, start, r), runs, packets, start, n, r);
  }

  lemma {:induction false} NoneOfNone(packets: seq<Option<Packet>>, start: int, n: nat)
    requires |packets| == SLOTS && |Missing(packets, start, n)| > 0
    ensures n > 0
  {
  }

  // ---------------------------------------------------------------- a push, in terms of slots alone

  /** How far number k is after number from, going up and around. */
  function After(from: int, k: int): nat {
    (k - from) % 0x1_0000
  }

  /** Two seconds older or, since only the distance counts, two seconds newer. */
  predicate Stale(p: Packet, ts: u32) {
    p.ts + 180_000 <= ts || ts + 180_000 <= p.ts
  }

  /** From number from on, m slots were visited and emptied, and all packets in them were stale. */
  ghost predicate Emptied(s: Scan, r: Scan, from: int, m: nat, ts: u32) {
    && |s.packets| == |r.packets| == SLOTS
    && (forall k :: 0 <= k < SLOTS ==> r.packets[k] == if After(from, k) < m then None else s.packets[k])
    && (forall k :: 0 <= k < SLOTS && After(from, k) < m && s.packets[k].Some? ==> Stale(s.packets[k].value, ts))
  }

  /** The clear marks are those of the last packet among the m visited slots, or as before when there was none. */
  ghost predicate Marked(s: Scan, r: Scan, from: int, m: nat)
    requires |s.packets| == SLOTS
  {
    if forall k :: 0 <= k < SLOTS && After(from, k) < m ==> s.packets[k].None?
    then r.lastClearSN == s.lastClearSN && r.lastClearTS == s.lastClearTS
    else
      && After(from, r.lastClearSN) < m
      && s.packets[r.lastClearSN].Some? && r.lastClearTS == s.packets[r.lastClearSN].value.ts
      && forall k :: 0 <= k < SLOTS && After(from, r.lastClearSN) < After(from, k) < m ==> s.packets[k].None?
  }

  /** The visit ends at the pushed number, or before it at a packet that is not stale. */
  ghost predicate EndsAt(s: Scan, from: int, m: nat, sn: u16, ts: u32)
    requires |s.packets| == SLOTS
  {
    && m <= After(from, sn)
    && (m < After(from, sn) ==>
          exists k :: 0 <= k < SLOTS && After(from, k) == m && s.packets[k].Some? && !Stale(s.packets[k].value, ts))
  }

  ghost predicate Swept(s: Scan, r: Scan, from: int, sn: u16, ts: u32)
    requires |s.packets| == SLOTS
  {
    exists m :: Emptied(s, r, from, m, ts) && Marked(s, r, from, m) && EndsAt(s, from, m, sn, ts)
  }

  lemma {:induction false} AfterNext(i: u16)
    ensures forall k :: 0 <= k < SLOTS && k != i ==> After(i, k) == After(Wrap(i + 1), k) + 1
    ensures After(i, i) == 0 && After(Wrap(i + 1), i) == 0xFFFF
    ensures forall k :: 0 <= k < SLOTS ==> 0 <= After(i, k) < SLOTS && (After(i, k) == 0 <==> k == i)
  {
  }

  lemma {:induction false} OneMoreEmptied(s: Scan, next: Scan, r: Scan, i: u16, m: nat, ts: u32)
    requires |s.packets| == SLOTS && m < 0xFFFF && Emptied(next, r, Wrap(i + 1), m, ts)
    requires next.packets == s.packets[i := None]
    requires s.packets[i].Some? ==> Stale(s.packets[i].value, ts)
    ensures Emptied(s, r, i, m + 1, ts)
  {
    AfterNext(i);
    hide After, Wrap, Stale;
  }

  lemma {:induction false} OneMoreMarked(s: Scan, next: Scan, r: Scan, i: u16, m: nat)
    requires |s.packets| == |next.packets| == SLOTS && m < 0xFFFF && Marked(next, r, Wrap(i + 1), m)
    requires next == match s.packets[i]
                     case None => s
                     case Some(p) => Scan(s.packets[i := None], p.ts, i)
    ensures Marked(s, r, i, m + 1)
  {
    AfterNext(i);
    hide After, Wrap;
    if forall k :: 0 <= k < SLOTS && After(Wrap(i + 1), k) < m ==> next.packets[k].None? {
      assert forall k :: 0 <= k < SLOTS && 0 < After(i, k) < m + 1 ==> s.packets[k].None?;
    } else {
      assert s.packets[r.lastClearSN].Some? && After(i, r.lastClearSN) < m + 1;
    }
  }

  lemma {:induction false} OneMoreEnds(s: Scan, next: Scan, i: u16, m: nat, sn: u16, ts: u32)
    requires |s.packets| == |next.packets| == SLOTS && i != sn && EndsAt(next, Wrap(i + 1), m, sn, ts)
    requires next.packets == s.packets[i := None]
    ensures m < 0xFFFF && EndsAt(s, i, m + 1, sn, ts)
  {
    AfterNext(i);
    hide After, Wrap, Stale;
    if m + 1 < After(i, sn) {
      var k :| 0 <= k < SLOTS && After(Wrap(i + 1), k) == m && next.packets[k].Some?
               && !Stale(next.packets[k].value, ts);
      assert k != i && After(i, k) == m + 1;
    }
  }

  lemma {:induction false} NothingSwept(s: Scan, i: u16, sn: u16, ts: u32)
    requires |s.packets| == SLOTS
    requires i == sn || (s.packets[i].Some? && !Stale(s.packets[i].value, ts))
    ensures Swept(s, s, i, sn, ts)
  {
    AfterNext(i);
    hide After, Wrap, Stale;
    assert Emptied(s, s, i, 0, ts) && Marked(s, s, i, 0) && EndsAt(s, i, 0, sn, ts);
  }

  lemma {:induction false} ScanSweeps(s: Scan, i: u16, sn: u16, ts: u32)
    requires |s.packets| == SLOTS
    ensures Swept(s, ClearScan(s, i, sn, ts), i, sn, ts)
    decreases SnDelta(i, sn)
  {
    hide Emptied, Marked, EndsAt;
    NextIsCloser(i, sn);
    if i == sn || (s.packets[i].Some? && TsDelta(ts, s.packets[i].value.ts) < MAX_BUFFER_TS_DELTA) {
      NothingSwept(s, i, sn, ts);
    } else {
      var next := match s.packets[i]
                  case None => s
                  case Some(p) => Scan(s.packets[i := None], p.ts, i);
      assert next.packets == s.packets[i := None];
      ScanSweeps(next, Wrap(i + 1), sn, ts);
      var r := ClearScan(s, i, sn, ts);
      var m :| Emptied(next, r, Wrap(i + 1), m, ts) && Marked(next, r, Wrap(i + 1), m)
               && EndsAt(next, Wrap(i + 1), m, sn, ts);
      OneMoreEnds(s, next, i, m, sn, ts);
      OneMoreEmptied(s, next, r, i, m, ts);
      OneMoreMarked(s, next, r, i, m);
    }
  }

  /** The empty slots among the n numbers from start, each once and in order. */
  ghost predicate ListsEmpty(sns: seq<u16>, packets: seq<Option<Packet>>, start: int, n: nat)
    requires |packets| == SLOTS
  {
    && (forall sn: u16 :: sn in sns <==> After(start, sn) < n && packets[sn].None?)
    && (forall j, k :: 0 <= j < k < |sns| ==> After(start, sns[j]) < After(start, sns[k]))
  }

  ghost predicate SomeEmpty(packets: seq<Option<Packet>>, start: int, n: nat)
    requires |packets| == SLOTS
  {
    exists k :: 0 <= k < SLOTS && After(start, k) < n && packets[k].None?
  }

  /** Slots and clear marks after a push: the packet is stored, and after two seconds stale ones are swept. */
  ghost predicate PushedSlots(s: BufferState, p: Packet, t: BufferState)
    requires |s.packets| == SLOTS
  {
    var clearSN: u16 := if s.initialized then s.lastClearSN else Wrap(p.sn - 1);
    var clearTS: u32 := if s.initialized then s.lastClearTS else p.ts;
    var stored := Scan(s.packets[p.sn := Some(p)], clearTS, clearSN);
    var left := Scan(t.packets, t.lastClearTS, t.lastClearSN);
    && |t.packets| == SLOTS && t.packets[p.sn] == Some(p)
    && (if clearTS + 180_000 <= p.ts || p.ts + 180_000 <= clearTS
        then Swept(stored, left, Wrap(clearSN + 1), p.sn, p.ts) else left == stored)
  }

  /**
   The other fields, and the answer: a buffer that had a packet reports once the window has passed since the last
   report, if a slot of the window is empty then, and it asks for exactly the empty ones.
   */
  ghost predicate PushedReport(s: BufferState, p: Packet, t: BufferState, nack: Option<TransportLayerNack>)
    requires |t.packets| == SLOTS
  {
    var window: int, sn: int := s.nackWindowSize, p.sn;
    var due := s.initialized && After(s.lastNackSN, sn) >= window;
    && t.initialized && t.lastPushSN == sn && t.nackWindowSize == window
    && t.ssrc == (if s.initialized then s.ssrc else p.ssrc)
    && t.lastNackSN == (if due || !s.initialized then sn else s.lastNackSN)
    && (nack.Some? <==> due && SomeEmpty(t.packets, sn - window, window))
    && (nack.Some? ==>
          && nack.value.senderSSRC == nack.value.mediaSSRC == t.ssrc
          && ListsEmpty(ExpandAll(nack.value.nacks), t.packets, sn - window, window))
  }

  /** What a push does to the buffer and what it answers, for every buffer and packet. */
  ghost predicate Pushed(s: BufferState, p: Packet, t: BufferState, nack: Option<TransportLayerNack>)
    requires |s.packets| == SLOTS
  {
    PushedSlots(s, p, t) && PushedReport(s, p, t, nack)
  }

  lemma {:induction false} MissingLists(packets: seq<Option<Packet>>, start: int, n: nat)
    requires |packets| == SLOTS && n <= SLOTS
    ensures ListsEmpty(Missing(packets, start, n), packets, start, n)
    ensures |Missing(packets, start, n)| > 0 <==> SomeEmpty(packets, start, n)
  {
    MissingExact(packets, start, n);
    MissingClimbs(packets, start, n);
    var m := Missing(packets, start, n);
    forall sn: u16 ensures After(start, sn) == SnDelta(Wrap(start), sn) {
    }
    hide After, SnDelta, Missing, Wrap;
    if |m| > 0 {
      assert m[0] in m;
    }
    if SomeEmpty(packets, start, n) {
      var k :| 0 <= k < SLOTS && After(start, k) < n && packets[k].None?;
      var sn: u16 := k;
      assert sn in m;
    }
  }

  lemma {:induction false} PushSlotsExact(s: BufferState, p: Packet)
    requires |s.packets| == SLOTS
    ensures PushedSlots(s, p, Settled(s, p))
    ensures PushedSlots(s, p, AfterReport(Settled(s, p), p.sn))
  {
    hide Swept, ClearScan, Wrap;
    var stored := Store(Init(s, p), p);
    var scan := Scan(stored.packets, stored.lastClearTS, stored.lastClearSN);
    ScanSweeps(scan, Wrap(stored.lastClearSN + 1), p.sn, p.ts);
    PushSpares(s, p, p.sn);
  }

  lemma {:induction false} SettledOthers(s: BufferState, p: Packet)
    requires |s.packets| == SLOTS
    ensures var u := Settled(s, p);
            && u.initialized && u.lastPushSN == p.sn && u.nackWindowSize == s.nackWindowSize
            && u.ssrc == (if s.initialized then s.ssrc else p.ssrc)
            && u.lastNackSN == (if s.initialized then s.lastNackSN else p.sn)
  {
    hide ClearScan;
  }

  /** The report before number sn, whatever the slots are. */
  lemma {:induction false} WindowLists(packets: seq<Option<Packet>>, sn: u16, window: u16)
    requires |packets| == SLOTS
    ensures var start := Wrap(sn - window);
            && (|Missing(packets, start, window)| > 0 <==> SomeEmpty(packets, sn as int - window as int, window))
            && ListsEmpty(ExpandAll(Report(packets, start, window)), packets, sn as int - window as int, window)
  {
    hide Missing, ListsEmpty, SomeEmpty, Report, Wrap;
    var start := sn as int - window as int;
    MissingLists(packets, start, window);
    MissingWraps(packets, start, window);
    ReportExpands(packets, Wrap(start), window);
  }

  lemma {:induction false} AfterIsDelta(from: u16, sn: u16)
    ensures After(from, sn) == SnDelta(from, sn) && SnDelta(sn, sn) == 0
  {
  }

  lemma {:induction false} PushReportExact(s: BufferState, p: Packet)
    requires |s.packets| == SLOTS && |Settled(s, p).packets| == SLOTS
    ensures PushedReport(s, p, AfterReport(Settled(s, p), p.sn), NackFor(Settled(s, p), p.sn))
  {
    hide Settled, Missing, ListsEmpty, SomeEmpty, Report, After, SnDelta, Wrap, ExpandAll;
    var u := Settled(s, p);
    SettledOthers(s, p);
    WindowLists(u.packets, p.sn, s.nackWindowSize);
    AfterIsDelta(u.lastNackSN, p.sn);
    MissingNone(u.packets, Wrap(p.sn - s.nackWindowSize));
  }

  lemma {:induction false} PushIsExact(s: BufferState, p: Packet)
    requires |s.packets| == SLOTS
    ensures |Settled(s, p).packets| == SLOTS
    ensures Pushed(s, p, AfterReport(Settled(s, p), p.sn), NackFor(Settled(s, p), p.sn))
  {
    hide Settled, PushedReport, NackFor, Swept;
    PushSlotsExact(s, p);
    PushReportExact(s, p);
  }

  // ---------------------------------------------------------------- the buffer

  class Buffer {
    const packets: array<Option<Packet>>
    var initialized: bool
    var lastPushSN: u16
    var lastNackSN: u16
    var lastClearTS: u32
    var lastClearSN: u16
    var nackWindowSize: u16
    var ssrc: SSRC

    ghost function State(): BufferState
      reads this, packets
    {
      BufferState(packets[..], initialized, lastPushSN, lastNackSN, lastClearTS, lastClearSN, nackWindowSize, ssrc)
    }

    ghost predicate Valid()
      reads this, packets
    {
      State().Valid()
    }

    constructor ()
      ensures Valid() && fresh(packets)
      ensures State() == Empty(MAX_NACK_PAIR_SIZE)
      ensures !initialized && nackWindowSize == 17 && forall k :: 0 <= k < SLOTS ==> packets[k].None?
    {
      packets := new Option<Packet>[SLOTS](_ => None);
      initialized, ssrc := false, SSRC(0);
      lastPushSN, lastNackSN, lastClearSN, lastClearTS := 0, 0, 0, 0;
      nackWindowSize := MAX_NACK_PAIR_SIZE;
      new;
      assert packets[..] == seq(SLOTS, _ => None);
    }

    method Push(p: Packet) returns (nack: Option<TransportLayerNack>)
      requires Valid()
      modifies this, packets
      ensures Valid()
      ensures State() == AfterReport(Settled(old(State()), p), p.sn)
      ensures nack == NackFor(Settled(old(State()), p), p.sn)
      ensures Pushed(old(State()), p, State(), nack)
    {
      hide ClearScan, Missing, Report, Clear, Pushed;
      PushKeepsSlots(State(), p);
      PushIsExact(State(), p);
      var sn := p.sn;
      if !initialized {
        lastNackSN := sn;
        lastClearTS := p.ts;
        lastClearSN := Wrap(sn - 1);
        ssrc := p.ssrc;
        initialized := true;
      }
      packets[sn] := Some(p);
      lastPushSN := sn;
      assert State() == Store(Init(old(State()), p), p);
      ClearOldPackets(p.ts, sn);
      nack := None;
      if SnDelta(lastNackSN, sn) >= nackWindowSize {
        var windowStart := Wrap(sn - nackWindowSize);
        DeltaOfStep(sn - nackWindowSize as int, nackWindowSize);
        WrapSmall(sn);
        var nackPairs, lostPkts := GetNackPairs(windowStart, sn);
        lastNackSN := sn;
        if lostPkts > 0 {
          nack := Some(TransportLayerNack(ssrc, ssrc, nackPairs));
        }
      }
    }

    method GetPacket(sequenceNumber: u16) returns (p: Option<Packet>)
      requires Valid()
      ensures p == State().packets[sequenceNumber]
      ensures p.Some? ==> p.value.sn == sequenceNumber
    {
      p := packets[sequenceNumber];
    }

    method ClearOldPackets(ts: u32, sn: u16)
      requires packets.Length == SLOTS
      modifies this`lastClearTS, this`lastClearSN, packets
      ensures State() == Clear(old(State()), ts, sn)
      ensures var s, t := old(State()), State();
              var before := Scan(s.packets, s.lastClearTS, s.lastClearSN);
              var after := Scan(t.packets, t.lastClearTS, t.lastClearSN);
              if s.lastClearTS + 180_000 <= ts || ts + 180_000 <= s.lastClearTS
              then Swept(before, after, Wrap(s.lastClearSN + 1), sn, ts) else after == before
    {
      hide Swept;
      ScanSweeps(Scan(packets[..], lastClearTS, lastClearSN), Wrap(lastClearSN + 1), sn, ts);
      if TsDelta(ts, lastClearTS) >= MAX_BUFFER_TS_DELTA {
        var i: u16 := Wrap(lastClearSN + 1);
        ghost var goal := ClearScan(Scan(packets[..], lastClearTS, lastClearSN), i, sn, ts);
        while i != sn
          invariant goal == ClearScan(Scan(packets[..], lastClearTS, lastClearSN), i, sn, ts)
          decreases SnDelta(i, sn)
        {
          var pkt := packets[i];
          if pkt.Some? {
            if TsDelta(ts, pkt.value.ts) < MAX_BUFFER_TS_DELTA {
              break;
            }
            lastClearTS := pkt.value.ts;
            lastClearSN := i;
            packets[i] := None;
          }
          NextIsCloser(i, sn);
          i := Wrap(i + 1);
        }
        assert goal == Scan(packets[..], lastClearTS, lastClearSN);
      }
    }

    method GetNackPairs(start: u16, end: u16) returns (pairs: seq<NackPair>, totalLostPkt: nat)
      requires packets.Length == SLOTS
      ensures pairs == Report(packets[..], start, SnDelta(start, end))
      ensures totalLostPkt == |Missing(packets[..], start, SnDelta(start, end))|
    {
      hide PairOf, Missing, Wrap;
      ghost var slots := packets[..];
      var delta := SnDelta(start, end);
      var size := delta / MAX_NACK_PAIR_SIZE;
      var arraySize := size;
      if delta % MAX_NACK_PAIR_SIZE > 0 {
        arraySize := arraySize + 1;
      }
      totalLostPkt, pairs := 0, [];
      var from := start;
      MissingNone(slots, start);
      DeltaReaches(start, end);
      assert Wrap(start) == start by { WrapSmall(start); }
      for i := 0 to size
        invariant from == Wrap(start + 17 * i)
        invariant pairs == NackPairs(slots, start, i)
        invariant totalLostPkt == |Missing(slots, start, 17 * i)|
      {
        var next := Wrap(from + MAX_NACK_PAIR_SIZE);
        DeltaOfStep(start + 17 * i, 17);
        var nackPair, lostPkt := GetNackPair(from, next);
        MissingSplit(slots, start, 17 * i, 17);
        totalLostPkt := totalLostPkt + lostPkt;
        if lostPkt > 0 {
          pairs := pairs + [nackPair];
        }
        from := next;
      }
      DeltaOfStep(start + 17 * size, delta % 17);
      MissingSplit(slots, start, 17 * size, delta % 17);
      MissingNone(slots, start + 17 * size);
      if arraySize > size {
        var nackPair, lostPkt := GetNackPair(from, end);
        totalLostPkt := totalLostPkt + lostPkt;
        if lostPkt > 0 {
          pairs := pairs + [nackPair];
        }
      }
    }

    /** For any bounds; a run of at most seventeen, as in all calls, fits one pair (RunFitsPair). */
    method GetNackPair(start: u16, end: u16) returns (pair: NackPair, lostPkts: nat)
      requires packets.Length == SLOTS
      ensures lostPkts == |Missing(packets[..], start, SnDelta(start, end))|
      ensures lostPkts > 0 ==> pair == PairOf(Missing(packets[..], start, SnDelta(start, end)))
    {
      hide Wrap, SnDelta, PairOf, AddBLP;
      lostPkts := 0;
      var fsn: u16 := 0;
      var blp := ZERO;
      ghost var slots, n, delta := packets[..], 0, SnDelta(start, end);
      var i: u16 := start;
      WrapSmall(start);
      DeltaReaches(start, end);
      while i != end
        invariant 0 <= n <= delta && i == Wrap(start + n)
        invariant |Missing(slots, start, n)| == 0
        decreases delta - n
      {
        if packets[i].None? {
          fsn := i;
          lostPkts := lostPkts + 1;
          break;
        }
        WrapOfSum(start + n, 1);
        i, n := Wrap(i + 1), n + 1;
      }
      if lostPkts == 0 {
        WrapInjective(start + n, start + delta);
        return NackPair(0, ZERO), lostPkts;
      }
      WrapOfSum(start + n, 1);
      i, n := Wrap(fsn + 1), n + 1;
      assert Missing(slots, start, n) == [fsn];
      PairOfSingle(fsn);
      while i != end
        invariant 0 <= n <= delta && i == Wrap(start + n)
        invariant |Missing(slots, start, n)| == lostPkts > 0
        invariant Missing(slots, start, n)[0] == fsn
        invariant PairOf(Missing(slots, start, n)) == NackPair(fsn, blp)
        decreases delta - n
      {
        ghost var missing := Missing(slots, start, n);
        if packets[i].None? {
          assert Missing(slots, start, n + 1) == missing + [i];
          PairOfAppend(missing, i);
          blp := AddBLP(fsn, i, blp);
          lostPkts := lostPkts + 1;
        } else {
          assert Missing(slots, start, n + 1) == missing;
        }
        WrapOfSum(start + n, 1);
        i, n := Wrap(i + 1), n + 1;
      }
      WrapInjective(start + n, start + delta);
      pair := NackPair(fsn, blp);
    }
  }

  lemma {:induction false} DeltaOfStep(at: int, n: nat)
    requires n < SLOTS
    ensures SnDelta(Wrap(at), Wrap(at + n)) == n
    ensures Wrap(Wrap(at) + n) == Wrap(at + n)
  {
  }

  lemma {:induction false} WrapSmall(sn: u16)
    ensures Wrap(sn) == sn
  {
  }

  lemma {:induction false} MissingNone(packets: seq<Option<Packet>>, start: int)
    requires |packets| == SLOTS
    ensures Missing(packets, start, 0) == []
  {
  }

  lemma {:induction false} MissingSplit(packets: seq<Option<Packet>>, start: int, n: nat, m: nat)
    requires |packets| == SLOTS
    ensures Missing(packets, start, n + m) == Missing(packets, start, n) + Missing(packets, Wrap(start + n), m)
    ensures Missing(packets, Wrap(start + n), m) == Missing(packets, start + n, m)
  {
    MissingConcat(packets, start, n, m);
    MissingWraps(packets, start + n, m);
  }

  lemma {:induction false} PairOfSingle(sn: u16)
    ensures PairOf([sn]) == NackPair(sn, ZERO)
  {
  }

  lemma {:induction false} PairOfAppend(sns: seq<u16>, sn: u16)
    requires |sns| > 0
    ensures PairOf(sns + [sn]) == NackPair(sns[0], AddBLP(sns[0], sn, PairOf(sns).lostPackets))
  {
    assert (sns + [sn])[..|sns|] == sns;
  }

  function Empty(window: u16): BufferState {
    BufferState(seq(SLOTS, _ => None), false, 0, 0, 0, 0, window, SSRC(0))
  }

  lemma {:induction false} EmptyExact(window: u16)
    ensures |Empty(window).packets| == SLOTS && forall k :: 0 <= k < SLOTS ==> Empty(window).packets[k].None?
    ensures !Empty(window).initialized && Empty(window).nackWindowSize == window
    ensures MAX_NACK_PAIR_SIZE == 17
  {
  }

  lemma {:induction false} MissingWraps(packets: seq<Option<Packet>>, start: int, n: nat)
    requires |packets| == SLOTS
    ensures Missing(packets, Wrap(start), n) == Missing(packets, start, n)
  {
    if n > 0 {
      MissingWraps(packets, start, n - 1);
      WrapOfSum(start, n - 1);
    }
  }
}
