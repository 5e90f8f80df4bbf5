/**
 Whole runs of the ring buffer on a stream that is pushed in order, over any number of wrap-arounds.
 Packets carry their unwrapped numbers here, and the run is compared with the plain log of what was pushed.
 */
module RtpStream {
  import opened Nack
  import opened RtpBuffer
  import opened Wrappers

  /** A pushed packet together with its sequence number before wrapping. */
  datatype Sent = Sent(n: int, p: Packet)

  type Log = seq<Sent>

  function Last(log: Log): Sent
    requires |log| > 0
  {
    log[|log| - 1]
  }

  function Front(log: Log): Log
    requires |log| > 0
  {
    log[..|log| - 1]
  }

  /** The buffer after the whole log was pushed. */
  function Run(window: u16, log: Log): (s: BufferState)
    ensures |s.packets| == SLOTS
  {
    if |log| == 0 then Empty(window)
    else
      var s := Settled(Run(window, Front(log)), Last(log).p);
      SettledSlots(Run(window, Front(log)), Last(log).p);
      AfterReport(s, Last(log).p.sn)
  }

  lemma {:induction false} SettledSlots(s: BufferState, p: Packet)
    requires |s.packets| == SLOTS
    ensures |Settled(s, p).packets| == SLOTS
  {
    var stored := Store(Init(s, p), p);
    var scan := Scan(stored.packets, stored.lastClearTS, stored.lastClearSN);
    ClearScanKeeps(scan, Wrap(stored.lastClearSN + 1), p.sn, p.ts, 0);
  }

  /** What Push answers to the last packet of the log. */
  function Answer(window: u16, log: Log): Option<TransportLayerNack>
    requires |log| > 0
  {
    SettledSlots(Run(window, Front(log)), Last(log).p);
    NackFor(Settled(Run(window, Front(log)), Last(log).p), Last(log).p.sn)
  }

  // ---------------------------------------------------------------- the streams considered

  /** Numbers increase, timestamps do not decrease, and every packet carries its wrapped number. */
  ghost predicate Ordered(log: Log) {
    && (forall i :: 0 <= i < |log| ==> log[i].p.sn == Wrap(log[i].n))
    && (forall i, j :: 0 <= i < j < |log| ==> log[i].n < log[j].n && log[i].p.ts <= log[j].p.ts)
  }

  predicate Expired(log: Log, i: nat)
    requires i < |log|
  {
    Last(log).p.ts - log[i].p.ts >= MAX_BUFFER_TS_DELTA
  }

  /** How many packets of the log are too old to keep: a prefix, since timestamps do not decrease. */
  function ExpiredCount(log: Log, k: nat): (r: nat)
    requires k < |log|
    ensures k <= r < |log|
    ensures r < |log| - 1 ==> !Expired(log, r)
    ensures forall i :: k <= i < r ==> Expired(log, i)
    decreases |log| - k
  {
    if k < |log| - 1 && Expired(log, k) then ExpiredCount(log, k + 1) else k
  }

  /** The number of the newest packet too old to keep, or the one before the first packet. */
  function ClearedTo(log: Log): int
    requires |log| > 0
  {
    ClearedBefore(log, ExpiredCount(log, 0))
  }

  function ClearedBefore(log: Log, k: nat): int
    requires k < |log|
  {
    if k == 0 then log[0].n - 1 else log[k - 1].n
  }

  /** At every push the ring is wide enough: at most one cycle past the newest expired packet. */
  predicate Fits(log: Log) {
    |log| <= 1 || (Fits(Front(log)) && Last(log).n - ClearedTo(Front(log)) <= SLOTS)
  }

  // ---------------------------------------------------------------- the slots refine the log

  function Lookup(log: Log, from: nat, n: int): Option<Packet>
    requires from <= |log|
    decreases |log| - from
  {
    if from == |log| then None
    else if log[from].n == n then Some(log[from].p)
    else Lookup(log, from + 1, n)
  }

  /** The 65,536 numbers after base each find their packet, if it is among the kept ones. */
  ghost predicate Holds(packets: seq<Option<Packet>>, log: Log, from: nat, base: int)
    requires |packets| == SLOTS && from <= |log|
  {
    forall n {:trigger Lookup(log, from, n)} :: base < n <= base + SLOTS ==> packets[Wrap(n)] == Lookup(log, from, n)
  }

  lemma {:induction false} LookupFinds(log: Log, from: nat, i: nat)
    requires Ordered(log) && from <= i < |log|
    ensures Lookup(log, from, log[i].n) == Some(log[i].p)
    decreases |log| - from
  {
    if from < i {
      LookupFinds(log, from + 1, i);
    }
  }

  lemma {:induction false} LookupMisses(log: Log, from: nat, n: int)
    requires Ordered(log) && from <= |log|
    ensures Lookup(log, from, n).Some? <==> exists i :: from <= i < |log| && log[i].n == n
    ensures forall i :: from <= i < |log| && log[i].n == n ==> Lookup(log, from, n) == Some(log[i].p)
    decreases |log| - from
  {
    if from < |log| {
      LookupMisses(log, from + 1, n);
    }
  }

  lemma {:induction false} LookupAgrees(a: Log, b: Log, from: nat, n: int)
    requires from <= |a| <= |b| && a == b[..|a|]
    requires forall i :: |a| <= i < |b| ==> b[i].n != n
    ensures Lookup(a, from, n) == Lookup(b, from, n)
    decreases |a| - from
  {
    if from < |a| {
      LookupAgrees(a, b, from + 1, n);
    } else {
      LookupNone(b, from, n);
    }
  }

  lemma {:induction false} LookupNone(log: Log, from: nat, n: int)
    requires from <= |log|
    requires forall i :: from <= i < |log| ==> log[i].n != n
    ensures Lookup(log, from, n) == None
    decreases |log| - from
  {
    if from < |log| {
      LookupNone(log, from + 1, n);
    }
  }

  lemma {:induction false} ExpiredCountFrom(log: Log, k: nat)
    requires k < |log|
    requires forall i :: 0 <= i < k ==> Expired(log, i)
    ensures ExpiredCount(log, 0) == ExpiredCount(log, k)
  {
    if k > 0 {
      ExpiredCountFrom(log, k - 1);
    }
  }

  function ClearedTS(log: Log, k: nat): u32
    requires k < |log|
  {
    if k == 0 then log[0].p.ts else log[k - 1].p.ts
  }

  /** What the buffer's clearing fields and slots say when the first k packets of the log are gone. */
  ghost predicate ScanAt(s: Scan, log: Log, k: nat, base: int) {
    && |s.packets| == SLOTS
    && k < |log|
    && s.lastClearSN == Wrap(ClearedBefore(log, k))
    && s.lastClearTS == ClearedTS(log, k)
    && Holds(s.packets, log, k, base)
  }

  lemma {:induction false} DropSlot(packets: seq<Option<Packet>>, log: Log, k: nat, base: int)
    requires |packets| == SLOTS && Ordered(log) && k < |log|
    requires Holds(packets, log, k, base)
    requires base < log[k].n <= base + SLOTS
    ensures Holds(packets[Wrap(log[k].n) := None], log, k + 1, base)
  {
    forall n | base < n <= base + SLOTS
      ensures packets[Wrap(log[k].n) := None][Wrap(n)] == Lookup(log, k + 1, n)
    {
      if n == log[k].n {
        LookupNone(log, k + 1, n);
      } else {
        assert Wrap(n) != Wrap(log[k].n) by {
          if Wrap(n) == Wrap(log[k].n) { WrapInjective(n, log[k].n); }
        }
        assert Lookup(log, k, n) == Lookup(log, k + 1, n);
      }
    }
  }

  lemma {:induction false} SlotAt(packets: seq<Option<Packet>>, log: Log, k: nat, base: int, n: int)
    requires |packets| == SLOTS && Ordered(log) && k < |log|
    requires Holds(packets, log, k, base)
    requires base < n < Last(log).n <= base + SLOTS && n <= log[k].n
    ensures packets[Wrap(n)] == if log[k].n == n then Some(log[k].p) else None
    ensures Wrap(n) != Last(log).p.sn
    ensures Wrap(Wrap(n) + 1) == Wrap(n + 1)
  {
    if Wrap(n) == Last(log).p.sn {
      WrapInjective(n, Last(log).n);
    }
    WrapOfSum(n, 1);
    if log[k].n != n {
      LookupNone(log, k, n);
    }
    assert packets[Wrap(n)] == Lookup(log, k, n);
  }

  /** The scan removes exactly the expired packets that are still there. */
  lemma {:induction false} ScanRemovesExpired(s: Scan, log: Log, k: nat, base: int, n: int)
    requires Ordered(log) && ScanAt(s, log, k, base)
    requires base < n <= Last(log).n <= base + SLOTS
    requires n <= log[k].n
    ensures ScanAt(ClearScan(s, Wrap(n), Last(log).p.sn, Last(log).p.ts), log, ExpiredCount(log, k), base)
    decreases Last(log).n - n
  {
    hide Holds, Wrap, Lookup;
    if n == Last(log).n {
      assert k == |log| - 1;
    } else {
      SlotAt(s.packets, log, k, base, n);
      if log[k].n != n {
        ScanRemovesExpired(s, log, k, base, n + 1);
      } else if Expired(log, k) {
        DropSlot(s.packets, log, k, base);
        ScanRemovesExpired(Scan(s.packets[Wrap(n) := None], log[k].p.ts, Wrap(n)), log, k + 1, base, n + 1);
      }
    }
  }

  // ---------------------------------------------------------------- one push

  /** Number of the packet at whose push the last report was due, or of the first packet. */
  function LastReport(window: u16, log: Log): int
    requires |log| > 0
    decreases |log|, 2
  {
    if |log| == 1 then log[0].n
    else if Due(window, log) then Last(log).n
    else LastReport(window, Front(log))
  }

  /** Is a report due when the last packet of the log is pushed? The comparison is cyclic. */
  predicate Due(window: u16, log: Log)
    requires |log| > 0
    decreases |log|, 1
  {
    Wrap(Last(log).n - ReportedBefore(window, log)) >= window
  }

  function ReportedBefore(window: u16, log: Log): int
    requires |log| > 0
    decreases |log|, 0
  {
    if |log| == 1 then log[0].n else LastReport(window, Front(log))
  }

  /** The buffer state tells the log apart only by what is still live. */
  ghost predicate Refines(window: u16, s: BufferState, log: Log) {
    && |s.packets| == SLOTS
    && s.nackWindowSize == window
    && s.initialized == (|log| > 0)
    && (|log| == 0 ==> s == Empty(window))
    && (|log| > 0 ==>
          && ScanAt(Scan(s.packets, s.lastClearTS, s.lastClearSN), log, ExpiredCount(log, 0), ClearedTo(log))
          && Last(log).n <= ClearedTo(log) + SLOTS
          && s.ssrc == log[0].p.ssrc
          && s.lastNackSN == Wrap(LastReport(window, log)))
  }

  lemma {:induction false} WrapCycle(n: int)
    ensures Wrap(n + SLOTS) == Wrap(n)
  {
  }

  /** The slots keep their meaning when the base moves up over numbers that are gone. */
  lemma {:induction false} Rebase(packets: seq<Option<Packet>>, log: Log, k: nat, base: int, base': int)
    requires |packets| == SLOTS && Ordered(log) && k < |log|
    requires Holds(packets, log, k, base)
    requires base <= base' < log[k].n && Last(log).n <= base + SLOTS
    ensures Holds(packets, log, k, base')
  {
    hide Wrap, Lookup;
    forall n | base' < n <= base' + SLOTS
      ensures packets[Wrap(n)] == Lookup(log, k, n)
    {
      if n > base + SLOTS {
        LookupNone(log, k, n);
        LookupNone(log, k, n - SLOTS);
        WrapCycle(n - SLOTS);
        assert packets[Wrap(n - SLOTS)] == Lookup(log, k, n - SLOTS);
      }
    }
  }

  /** How many packets were already gone before the last push. */
  function GoneCount(log: Log): (k: nat)
    requires |log| > 0
    ensures k < |log|
  {
    if |log| == 1 then 0 else ExpiredCount(Front(log), 0)
  }

  /** Storing the pushed packet in its slot adds it to what the slots hold. */
  lemma {:induction false} HoldsOneMore(packets: seq<Option<Packet>>, log: Log, k: nat, base: int)
    requires |log| > 0 && |packets| == SLOTS && Ordered(log) && k < |log|
    requires Holds(packets, Front(log), k, base)
    requires base < Last(log).n <= base + SLOTS
    ensures Holds(packets[Last(log).p.sn := Some(Last(log).p)], log, k, base)
  {
    hide Wrap, Lookup;
    var last := Last(log);
    forall n | base < n <= base + SLOTS
      ensures packets[last.p.sn := Some(last.p)][Wrap(n)] == Lookup(log, k, n)
    {
      if n == last.n {
        LookupFinds(log, k, |log| - 1);
      } else {
        if Wrap(n) == Wrap(last.n) { WrapInjective(n, last.n); }
        LookupAgrees(Front(log), log, k, n);
        assert packets[Wrap(n)] == Lookup(Front(log), k, n);
      }
    }
  }

  lemma {:induction false} ExpiredStays(log: Log, i: nat)
    requires |log| > 1 && Ordered(log) && i < |log| - 1
    requires Expired(Front(log), i)
    ensures Expired(log, i)
  {
    assert Last(Front(log)) == log[|log| - 2];
  }

  lemma {:induction false} StoreHolds(window: u16, s: BufferState, log: Log)
    requires |log| > 0 && Ordered(log) && Fits(log)
    requires Refines(window, s, Front(log))
    ensures var k := GoneCount(log);
            var base := ClearedBefore(log, k);
            var t := Store(Init(s, Last(log).p), Last(log).p);
            && ScanAt(Scan(t.packets, t.lastClearTS, t.lastClearSN), log, k, base)
            && base < Last(log).n <= base + SLOTS
            && forall i :: 0 <= i < k ==> Expired(log, i)
  {
    hide Lookup;
    var k := GoneCount(log);
    var base := ClearedBefore(log, k);
    if |log| == 1 {
      assert Holds(s.packets, Front(log), 0, base) by {
        forall n ensures Lookup(Front(log), 0, n) == None { LookupNone(Front(log), 0, n); }
      }
    } else {
      forall i | 0 <= i < k ensures Expired(log, i) { ExpiredStays(log, i); }
      assert ClearedTo(Front(log)) == base;
      assert Fits(log);
    }
    HoldsOneMore(s.packets, log, k, base);
  }

  /** When the newest cleared packet is still recent, nothing has expired yet. */
  lemma {:induction false} NothingToClear(log: Log, k: nat)
    requires |log| > 0 && Ordered(log) && k < |log|
    requires k > 0 ==> Expired(log, k - 1)
    requires Last(log).p.ts - ClearedTS(log, k) < MAX_BUFFER_TS_DELTA
    ensures ExpiredCount(log, 0) == k
  {
  }

  lemma {:induction false} ClearHolds(window: u16, s: BufferState, log: Log)
    requires |log| > 0 && Ordered(log) && Fits(log)
    requires |s.packets| == SLOTS && Refines(window, s, Front(log))
    ensures |Settled(s, Last(log).p).packets| == SLOTS
    ensures var t := Settled(s, Last(log).p);
            && ScanAt(Scan(t.packets, t.lastClearTS, t.lastClearSN), log, ExpiredCount(log, 0), ClearedTo(log))
            && Last(log).n <= ClearedTo(log) + SLOTS
  {
    hide Holds, Wrap, Lookup, Fits, Refines, ClearScan, ExpiredCount;
    var k, last := GoneCount(log), Last(log);
    var base := ClearedBefore(log, k);
    var t := Store(Init(s, last.p), last.p);
    var scan := Scan(t.packets, t.lastClearTS, t.lastClearSN);
    StoreHolds(window, s, log);
    var count := ExpiredCount(log, 0);
    assert last.p.ts >= t.lastClearTS;
    ExpiredCountFrom(log, k);
    if TsDelta(last.p.ts, t.lastClearTS) >= MAX_BUFFER_TS_DELTA {
      WrapOfSum(base, 1);
      ScanRemovesExpired(scan, log, k, base, base + 1);
      Rebase(ClearScan(scan, Wrap(base + 1), last.p.sn, last.p.ts).packets, log, count, base, ClearedTo(log));
    } else {
      NothingToClear(log, k);
    }
  }

  lemma {:induction false} RunRefines(window: u16, log: Log)
    requires Ordered(log) && Fits(log)
    ensures Refines(window, Run(window, log), log)
  {
    if |log| > 0 {
      RunRefines(window, Front(log));
      PushRefines(window, Run(window, Front(log)), log);
    }
  }

  lemma {:induction false} PushRefines(window: u16, s: BufferState, log: Log)
    requires |log| > 0 && Ordered(log) && Fits(log)
    requires Refines(window, s, Front(log))
    ensures |Settled(s, Last(log).p).packets| == SLOTS
    ensures ReportDue(Settled(s, Last(log).p), Last(log).p.sn) <==> Due(window, log)
    ensures Refines(window, AfterReport(Settled(s, Last(log).p), Last(log).p.sn), log)
  {
    hide Holds, Wrap, Lookup, Fits, ClearScan;
    ClearHolds(window, s, log);
    var before, t := ReportedBefore(window, log), Settled(s, Last(log).p);
    WrapOfDifference(Last(log).n, before);
    assert t.lastNackSN == Wrap(before) && t.nackWindowSize == window;
    assert SnDelta(t.lastNackSN, Last(log).p.sn) == Wrap(Last(log).n - before);
    assert t.ssrc == log[0].p.ssrc;
    var u := AfterReport(t, Last(log).p.sn);
    assert u.lastNackSN == Wrap(LastReport(window, log));
  }

  // ---------------------------------------------------------------- retention

  lemma {:induction false} KeptIsRecent(log: Log, i: nat)
    requires Ordered(log) && i < |log|
    ensures Expired(log, i) <==> i < ExpiredCount(log, 0)
  {
    var k := ExpiredCount(log, 0);
    if k <= i {
      assert log[k].p.ts <= log[i].p.ts;
    }
  }

  /** After every push, each slot answers with exactly the pushed packets that have not expired. */
  lemma {:induction false} RetainsExactlyTheRecent(window: u16, log: Log, sn: u16, p: Packet)
    requires |log| > 0 && Ordered(log) && Fits(log)
    ensures Run(window, log).packets[sn] == Some(p) <==>
            exists i :: 0 <= i < |log| && log[i].p == p && p.sn == sn && !Expired(log, i)
  {
    hide Run, Wrap, Lookup, Fits;
    RunRefines(window, log);
    var s, k, base := Run(window, log), ExpiredCount(log, 0), ClearedTo(log);
    var n := base + 1 + SnDelta(Wrap(base + 1), sn);
    SlotNumber(base, sn);
    LookupMisses(log, k, n);
    assert s.packets[Wrap(n)] == Lookup(log, k, n);
    if s.packets[sn] == Some(p) {
      var i :| k <= i < |log| && log[i].n == n;
      KeptIsRecent(log, i);
    }
    if i :| 0 <= i < |log| && log[i].p == p && p.sn == sn && !Expired(log, i) {
      KeptIsRecent(log, i);
      assert base < log[i].n <= base + SLOTS;
      WrapInjective(log[i].n, n);
    }
  }

  lemma {:induction false} SlotNumber(base: int, sn: u16)
    ensures Wrap(base + 1 + SnDelta(Wrap(base + 1), sn)) == sn
    ensures SnDelta(Wrap(base + 1), sn) < SLOTS
  {
  }

  /** Why Fits is needed: one cycle later a packet takes the slot of one that has not expired. */
  lemma {:induction false} RingTooSmall(p: Packet, q: Packet)
    requires p.sn == q.sn == 0 && p.ts == q.ts && p != q
    ensures var log := [Sent(0, p), Sent(SLOTS, q)];
            Ordered(log) && !Fits(log) && !Expired(log, 0) && Run(17, log).packets[0] != Some(p)
  {
    var log := [Sent(0, p), Sent(SLOTS, q)];
    assert Front(log) == [Sent(0, p)] && Front(Front(log)) == [];
    var s, e := Run(17, Front(log)), Empty(17);
    assert Run(17, []) == e && s == AfterReport(Settled(e, p), 0);
    assert Settled(e, p) == Store(Init(e, p), p);
    assert Settled(s, q) == Store(s, q);
  }

  /** The last of the first n entries that goes into the slot, or -1. */
  function LatestAt(log: Log, sn: u16, n: nat): (k: int)
    requires n <= |log|
    ensures -1 <= k < n && (k >= 0 ==> log[k].p.sn == sn)
    ensures forall j :: 0 <= j < n && log[j].p.sn == sn ==> j <= k
  {
    if n == 0 then -1 else if log[n - 1].p.sn == sn then n - 1 else LatestAt(log, sn, n - 1)
  }

  lemma {:induction false} LatestAtFront(log: Log, sn: u16)
    requires |log| > 0
    ensures LatestAt(log, sn, |log|) ==
            if Last(log).p.sn == sn then |log| - 1 else LatestAt(Front(log), sn, |log| - 1)
  {
  }

  /** Whether or not the ring is wide enough: a slot has the last packet put there, or nothing once that expired. */
  lemma {:induction false} SlotHasLatest(window: u16, log: Log, sn: u16)
    requires Ordered(log)
    ensures var k, slot := LatestAt(log, sn, |log|), Run(window, log).packets[sn];
            if k < 0 then slot.None?
            else (slot.None? || slot == Some(log[k].p)) && (!Expired(log, k) ==> slot.Some?)
  {
    if |log| > 0 {
      var s, last := Run(window, Front(log)), Last(log);
      SlotHasLatest(window, Front(log), sn);
      LatestAtFront(log, sn);
      PushSpares(s, last.p, sn);
      var k := LatestAt(log, sn, |log|);
      if 0 <= k < |log| - 1 && !Expired(log, k) {
        LaterStillFresh(log, k);
      }
      hide Settled;
      assert Run(window, log).packets == Settled(s, last.p).packets;
    }
  }

  lemma {:induction false} LaterStillFresh(log: Log, k: nat)
    requires Ordered(log) && k < |log| - 1 && !Expired(log, k)
    ensures !Expired(Front(log), k) && TsDelta(Last(log).p.ts, log[k].p.ts) < MAX_BUFFER_TS_DELTA
  {
    assert log[k].p.ts <= log[|log| - 2].p.ts <= Last(log).p.ts;
  }

  lemma {:induction false} SameSlot(a: int, b: int)
    ensures Wrap(a) == Wrap(b) <==> (b - a) % SLOTS == 0
  {
  }

  /**
   Without Fits: a packet that has not expired is lost if and only if another one was pushed since whose number is a
   multiple of 65,536 higher. No packet is pushed twice.
   */
  lemma {:induction false} LostExact(window: u16, log: Log, i: nat)
    requires Ordered(log) && i < |log| && !Expired(log, i)
    requires forall j :: i < j < |log| ==> log[j].p != log[i].p
    ensures Run(window, log).packets[log[i].p.sn] != Some(log[i].p) <==>
            exists j :: i < j < |log| && (log[j].n - log[i].n) % SLOTS == 0
  {
    hide Run, Wrap;
    var k := LatestAt(log, log[i].p.sn, |log|);
    SlotHasLatest(window, log, log[i].p.sn);
    assert k >= i && log[k].p.ts >= log[i].p.ts;
    forall j | i < j < |log| ensures log[j].p.sn == log[i].p.sn <==> (log[j].n - log[i].n) % SLOTS == 0 {
      SameSlot(log[i].n, log[j].n);
    }
    if k > i {
      assert (log[k].n - log[i].n) % SLOTS == 0;
    }
  }

  // ---------------------------------------------------------------- reports

  /** The numbers from, ..., from + count - 1 without a packet among log[k..]. */
  function Without(log: Log, k: nat, from: int, count: nat): seq<int>
    requires k <= |log|
    decreases count, from
  {
    if count == 0 then [] else
      Without(log, k, from, count - 1) + (if Lookup(log, k, from + count - 1).None? then [from + count - 1] else [])
  }

  function NeverPushed(log: Log, from: int, count: nat): seq<int> {
    Without(log, 0, from, count)
  }

  function NotKept(log: Log, from: int, count: nat): seq<int>
    requires |log| > 0
  {
    Without(log, ExpiredCount(log, 0), from, count)
  }

  function WrapAll(ns: seq<int>): (r: seq<u16>)
    ensures |r| == |ns| && forall i :: 0 <= i < |ns| ==> r[i] == Wrap(ns[i])
  {
    if |ns| == 0 then [] else WrapAll(ns[..|ns| - 1]) + [Wrap(ns[|ns| - 1])]
  }

  /** The packets that the answer to the last push asks for. */
  function Asked(window: u16, log: Log): seq<u16>
    requires |log| > 0
  {
    match Answer(window, log)
    case None => []
    case Some(nack) => ExpandAll(nack.nacks)
  }

  lemma {:induction false} MissingIsWithout(packets: seq<Option<Packet>>, log: Log, k: nat, from: int, count: nat)
    requires |packets| == SLOTS && k <= |log|
    requires forall n :: from <= n < from + count ==> packets[Wrap(n)] == Lookup(log, k, n)
    ensures Missing(packets, from, count) == WrapAll(Without(log, k, from, count))
  {
    hide Wrap, Lookup;
    if count > 0 {
      MissingIsWithout(packets, log, k, from, count - 1);
      var n := from + count - 1;
      var init := Without(log, k, from, count - 1);
      assert packets[Wrap(n)] == Lookup(log, k, n);
      assert WrapAll(init + [n]) == WrapAll(init) + [Wrap(n)];
      assert init + [] == init;
    }
  }

  /** Slots of the last cycle before the newest number tell which of those packets are kept. */
  lemma {:induction false} RecentSlots(packets: seq<Option<Packet>>, log: Log, n: int)
    requires |log| > 0 && |packets| == SLOTS && Ordered(log)
    requires Holds(packets, log, ExpiredCount(log, 0), ClearedTo(log))
    requires Last(log).n <= ClearedTo(log) + SLOTS
    requires Last(log).n - SLOTS < n <= Last(log).n
    ensures packets[Wrap(n)] == Lookup(log, ExpiredCount(log, 0), n)
  {
    hide Wrap, Lookup;
    var k, base := ExpiredCount(log, 0), ClearedTo(log);
    if n <= base {
      LookupNone(log, k, n);
      LookupNone(log, k, n + SLOTS);
      WrapCycle(n);
      assert packets[Wrap(n + SLOTS)] == Lookup(log, k, n + SLOTS);
    }
  }

  /** A report names exactly the numbers of its window whose packet is not kept, in order. */
  lemma {:induction false} AnswerNamesNotKept(window: u16, log: Log)
    requires |log| > 0 && Ordered(log) && Fits(log)
    ensures var lost := NotKept(log, Last(log).n - window, window);
            match Answer(window, log)
            case None => !Due(window, log) || lost == []
            case Some(nack) =>
              && Due(window, log)
              && lost != []
              && nack.senderSSRC == nack.mediaSSRC == log[0].p.ssrc
              && ExpandAll(nack.nacks) == WrapAll(lost)
  {
    hide Wrap, Lookup, Fits, Run, Settled, Missing, Report, Without, ExpandAll;
    var s, last := Run(window, Front(log)), Last(log);
    FitsFront(log);
    RunRefines(window, Front(log));
    PushRefines(window, s, log);
    var t := Settled(s, last.p);
    ClearHolds(window, s, log);
    SettledFields(s, last.p);
    var from: int := last.n - window;
    forall n | from <= n < from + window
      ensures t.packets[Wrap(n)] == Lookup(log, ExpiredCount(log, 0), n)
    {
      RecentSlots(t.packets, log, n);
    }
    MissingIsWithout(t.packets, log, ExpiredCount(log, 0), from, window);
    WindowWraps(last.n, window);
    MissingWraps(t.packets, from, window);
    ReportExpands(t.packets, Wrap(from), window);
  }

  lemma {:induction false} FitsFront(log: Log)
    requires |log| > 0 && Fits(log)
    ensures Fits(Front(log))
  {
  }

  lemma {:induction false} WindowWraps(n: int, window: u16)
    ensures Wrap(Wrap(n) - window) == Wrap(n - window)
  {
  }

  lemma {:induction false} SettledFields(s: BufferState, p: Packet)
    requires |s.packets| == SLOTS
    ensures Settled(s, p).nackWindowSize == s.nackWindowSize
    ensures Settled(s, p).ssrc == if s.initialized then s.ssrc else p.ssrc
  {
  }

  // ---------------------------------------------------------------- exactness of reports

  lemma {:induction false} WithoutCompare(log: Log, k: nat, from: int, count: nat)
    requires k <= |log| && Ordered(log)
    ensures |Without(log, k, from, count)| >= |Without(log, 0, from, count)|
    ensures |Without(log, k, from, count)| == |Without(log, 0, from, count)| ==>
              Without(log, k, from, count) == Without(log, 0, from, count)
    ensures |Without(log, k, from, count)| == |Without(log, 0, from, count)| <==>
              forall i :: 0 <= i < k ==> !(from <= log[i].n < from + count)
  {
    hide Lookup;
    if count > 0 {
      WithoutCompare(log, k, from, count - 1);
      LookupMisses(log, k, from + count - 1);
      LookupMisses(log, 0, from + count - 1);
    }
  }

  /**
   A report that is due names exactly the numbers of its window that were never pushed, if and only if
   no packet pushed in that window has expired.
   */
  lemma {:induction false} ReportExact(window: u16, log: Log)
    requires |log| > 0 && Ordered(log) && Fits(log) && Due(window, log)
    ensures var from := Last(log).n - window;
            Asked(window, log) == WrapAll(NeverPushed(log, from, window)) <==>
            forall i :: 0 <= i < |log| && from <= log[i].n < Last(log).n ==> !Expired(log, i)
  {
    hide Lookup, Wrap, Fits, Without, Answer, Expired, ExpiredCount, Due;
    var from, k := Last(log).n - window as int, ExpiredCount(log, 0);
    AnswerNamesNotKept(window, log);
    WithoutCompare(log, k, from, window);
    forall i | 0 <= i < |log| ensures Expired(log, i) <==> i < k { KeptIsRecent(log, i); }
  }

  /**
   The window reaches one number further back than seventeen consecutive numbers: a stream in which any
   seventeen of them span less than the retention time still has a pushed packet requested again.
   */
  lemma {:induction false} SeventeenAreNotEnough(p: Packet, q: Packet)
    requires p.sn == 0 && q.sn == 17 && p.ts == 0 && q.ts == MAX_BUFFER_TS_DELTA
    ensures var log := [Sent(0, p), Sent(17, q)];
            && Ordered(log) && Fits(log) && Due(17, log)
            && (forall i, j :: 0 <= i < j < |log| && log[j].n - log[i].n < 17 ==>
                  log[j].p.ts - log[i].p.ts < MAX_BUFFER_TS_DELTA)
            && Asked(17, log) != WrapAll(NeverPushed(log, 0, 17))
  {
    var log := [Sent(0, p), Sent(17, q)];
    assert Front(log) == [Sent(0, p)];
    assert ClearedTo(Front(log)) == -1;
    assert ReportedBefore(17, log) == 0;
    ReportExact(17, log);
    assert Expired(log, 0);
  }

  // ---------------------------------------------------------------- whole runs

  /** Everything a run asks for, push after push. */
  function AllAsked(window: u16, log: Log): seq<u16> {
    if |log| == 0 then [] else AllAsked(window, Front(log)) + Asked(window, log)
  }

  /** The same requests by unwrapped number. */
  function Requested(window: u16, log: Log): seq<int> {
    if |log| == 0 then []
    else Requested(window, Front(log)) + (if Due(window, log) then NotKept(log, Last(log).n - window, window) else [])
  }

  /** Packets less than window + 1 numbers apart are sent within the retention time. */
  ghost predicate Dense(window: u16, log: Log) {
    forall i, j :: 0 <= i < j < |log| && log[j].n - log[i].n <= window ==>
      log[j].p.ts - log[i].p.ts < MAX_BUFFER_TS_DELTA
  }

  /** A strictly increasing list of numbers in [lo, hi). */
  ghost predicate Ascending(ns: seq<int>, lo: int, hi: int) {
    && (forall i :: 0 <= i < |ns| ==> lo <= ns[i] < hi)
    && (forall i, j :: 0 <= i < j < |ns| ==> ns[i] < ns[j])
  }

  lemma {:induction false} WithoutRange(log: Log, k: nat, from: int, count: nat)
    requires k <= |log|
    ensures Ascending(Without(log, k, from, count), from, from + count)
    ensures forall n :: n in Without(log, k, from, count) ==> Lookup(log, k, n).None?
  {
    hide Lookup;
    if count > 0 {
      WithoutRange(log, k, from, count - 1);
    }
  }

  lemma {:induction false} WrapAllConcat(a: seq<int>, b: seq<int>)
    ensures WrapAll(a + b) == WrapAll(a) + WrapAll(b)
  {
    hide Wrap;
  }

  lemma {:induction false} LastReportBounds(window: u16, log: Log)
    requires |log| > 0 && Ordered(log)
    ensures log[0].n <= LastReport(window, log) <= Last(log).n
  {
    if |log| > 1 {
      LastReportBounds(window, Front(log));
    }
  }

  /** The window of a report that is due starts no earlier than the previous report. */
  lemma {:induction false} WindowsAreDisjoint(window: u16, log: Log)
    requires |log| > 0 && Ordered(log) && Due(window, log)
    ensures ReportedBefore(window, log) <= Last(log).n - window
    ensures LastReport(window, log) == Last(log).n
  {
    if |log| > 1 {
      LastReportBounds(window, Front(log));
      assert Last(Front(log)).n < Last(log).n;
    }
    WrapAtMost(Last(log).n - ReportedBefore(window, log));
  }

  lemma {:induction false} WrapAtMost(n: int)
    requires n >= 0
    ensures Wrap(n) <= n
  {
  }

  /** Requests go out by number, so none repeats, none precedes the first packet, none is ahead of the stream. */
  lemma {:induction false} NoNumberRequestedTwice(window: u16, log: Log)
    requires |log| > 0 && Ordered(log)
    ensures Ascending(Requested(window, log), log[0].n, LastReport(window, log))
  {
    hide Wrap, Lookup, Without, Due;
    if |log| > 1 {
      NoNumberRequestedTwice(window, Front(log));
      LastReportBounds(window, Front(log));
    }
    if Due(window, log) {
      WindowsAreDisjoint(window, log);
      WithoutRange(log, ExpiredCount(log, 0), Last(log).n - window, window);
    }
  }

  /** What goes out on the wire over a whole run is the list of requested numbers, wrapped. */
  lemma {:induction false} AllAskedIsRequested(window: u16, log: Log)
    requires Ordered(log) && Fits(log)
    ensures AllAsked(window, log) == WrapAll(Requested(window, log))
  {
    hide Wrap, Lookup, Without, Due, Answer, ExpandAll, Fits;
    if |log| > 0 {
      FitsFront(log);
      AllAskedIsRequested(window, Front(log));
      AnswerNamesNotKept(window, log);
      WrapAllConcat(Requested(window, Front(log)), NotKept(log, Last(log).n - window, window));
      WrapAllConcat(Requested(window, Front(log)), []);
    }
  }

  /** On a dense stream every report names exactly the numbers of its window that were never pushed. */
  lemma {:induction false} DenseReportExact(window: u16, log: Log)
    requires |log| > 0 && Ordered(log) && Fits(log) && Dense(window, log)
    ensures Asked(window, log) ==
            if Due(window, log) then WrapAll(NeverPushed(log, Last(log).n - window, window)) else []
  {
    hide Wrap, Lookup, Without, Due, Answer, ExpandAll, Fits;
    AnswerNamesNotKept(window, log);
    if Due(window, log) {
      ReportExact(window, log);
      forall i | 0 <= i < |log| && Last(log).n - window <= log[i].n < Last(log).n ensures !Expired(log, i) {
        assert log[|log| - 1].n - log[i].n <= window;
      }
    }
  }

  /** On a dense stream no number is requested whose packet is pushed, before or after the request. */
  lemma {:induction false} NothingPushedIsRequested(window: u16, log: Log, k: nat, i: nat)
    requires |log| > 0 && Ordered(log) && Dense(window, log)
    requires k < |Requested(window, log)| && i < |log|
    ensures Requested(window, log)[k] != log[i].n
  {
    hide Wrap, Lookup, Without, Due, Expired, ExpiredCount;
    var prior, last := Requested(window, Front(log)), |log| - 1;
    if k < |prior| {
      assert |log| > 1;
      NoNumberRequestedTwice(window, Front(log));
      LastReportBounds(window, Front(log));
      if i < last {
        NothingPushedIsRequested(window, Front(log), k, i);
      }
    } else {
      var from, gone := Last(log).n - window as int, ExpiredCount(log, 0);
      var added := NotKept(log, from, window);
      assert Requested(window, log) == prior + added;
      var n := added[k - |prior|];
      WithoutRange(log, gone, from, window);
      assert n in added && from <= n;
      LookupMisses(log, gone, n);
      if log[i].n == n {
        KeptIsRecent(log, i);
        ExpiredGap(log, i);
      }
    }
  }

  lemma {:induction false} ExpiredGap(log: Log, i: nat)
    requires i < |log|
    ensures Expired(log, i) <==> log[|log| - 1].p.ts - log[i].p.ts >= MAX_BUFFER_TS_DELTA
  {
  }
}
