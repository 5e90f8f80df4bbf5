/** Receiver estimated maximum bitrates: the least of what the receivers of a track say, kept per track. */
module Bitrate {
  import opened Wrappers

  type u64 = x: int | 0 <= x < 0x1_0000_0000_0000_0000

  const MAX_UINT64: u64 := 0xFFFF_FFFF_FFFF_FFFF

  type ClientID = string

  /** b is the least estimate. */
  predicate IsLeast(estimates: map<ClientID, u64>, b: u64) {
    && (exists c :: c in estimates && estimates[c] == b)
    && forall c :: c in estimates ==> b <= estimates[c]
  }

  class BitrateEstimator {
    var bitrate: u64
    var estimates: map<ClientID, u64>

    /** Removals leave the cached bitrate behind: it may be too low, but never too high. */
    ghost predicate Valid() reads this {
      forall c :: c in estimates ==> bitrate <= estimates[c]
    }

    constructor ()
      ensures Valid() && estimates == map[] && bitrate == 0xFFFF_FFFF_FFFF_FFFF
    {
      bitrate, estimates := MAX_UINT64, map[];
    }

    method Estimate(receiverClientID: ClientID, estimate: u64) returns (least: u64)
      requires Valid()
      modifies this
      ensures Valid() && estimates == old(estimates)[receiverClientID := estimate]
      ensures IsLeast(estimates, least)
    {
      estimates := estimates[receiverClientID := estimate];
      if estimate <= bitrate {
        bitrate := estimate;
        assert estimates[receiverClientID] == estimate;
        return estimate;
      }
      var minBitrate, todo := estimate, estimates.Keys;
      ghost var least0 := receiverClientID;
      while todo != {}
        invariant todo <= estimates.Keys
        invariant least0 in estimates && estimates[least0] == minBitrate <= estimate
        invariant forall c :: c in estimates && c !in todo ==> minBitrate <= estimates[c]
      {
        var clientID :| clientID in todo;
        todo := todo - {clientID};
        if clientID != receiverClientID && estimates[clientID] < minBitrate {
          minBitrate := estimates[clientID];
          least0 := clientID;
        }
      }
      bitrate := minBitrate;
      return minBitrate;
    }

    method RemoveEstimation(receiverClientID: ClientID)
      requires Valid()
      modifies this`estimates
      ensures Valid() && estimates == old(estimates) - {receiverClientID}
    {
      estimates := estimates - {receiverClientID};
    }
  }

  type Estimates = map<SSRC, map<ClientID, u64>>

  /** What is known of one track once the receiver has given its estimate. */
  function ToldOf(estimates: Estimates, ssrc: SSRC, receiverClientID: ClientID, estimate: u64): map<ClientID, u64> {
    (if ssrc in estimates then estimates[ssrc] else map[])[receiverClientID := estimate]
  }

  function Told(estimates: Estimates, receiverClientID: ClientID, ssrcs: seq<SSRC>, n: nat, estimate: u64): Estimates
    requires n <= |ssrcs|
  {
    if n == 0 then estimates
    else
      var before := Told(estimates, receiverClientID, ssrcs, n - 1, estimate);
      before[ssrcs[n - 1] := ToldOf(before, ssrcs[n - 1], receiverClientID, estimate)]
  }

  function Forgotten(estimates: Estimates, receiverClientID: ClientID, ssrcs: set<SSRC>): Estimates {
    map ssrc | ssrc in estimates ::
      if ssrc in ssrcs then estimates[ssrc] - {receiverClientID} else estimates[ssrc]
  }

  lemma {:induction false} MadeOnFirstUse(was: Estimates, now: Estimates, ssrc: SSRC, receiverClientID: ClientID,
                                          estimate: u64)
    requires now == if ssrc in was then was else was[ssrc := map[]]
    ensures ToldOf(was, ssrc, receiverClientID, estimate) == now[ssrc][receiverClientID := estimate]
    ensures was[ssrc := ToldOf(was, ssrc, receiverClientID, estimate)] ==
            now[ssrc := ToldOf(was, ssrc, receiverClientID, estimate)]
  {
  }

  lemma {:induction false} ForgottenNone(estimates: Estimates, receiverClientID: ClientID)
    ensures Forgotten(estimates, receiverClientID, estimates.Keys - estimates.Keys) == estimates
  {
  }

  lemma {:induction false} ForgottenStep(estimates: Estimates, receiverClientID: ClientID, done: set<SSRC>, ssrc: SSRC)
    requires ssrc in estimates && ssrc !in done
    ensures var now := Forgotten(estimates, receiverClientID, done);
            && ssrc in now
            && Forgotten(estimates, receiverClientID, done + {ssrc}) == now[ssrc := now[ssrc] - {receiverClientID}]
  {
  }

  /** b is the least of all estimates of the given tracks. */
  ghost predicate IsLeastOf(estimates: Estimates, ssrcs: seq<SSRC>, b: u64) {
    && (exists s, c :: s in ssrcs && s in estimates && c in estimates[s] && estimates[s][c] == b)
    && forall s, c :: s in ssrcs && s in estimates && c in estimates[s] ==> b <= estimates[s][c]
  }

  /** Telling is the same in any order, and saying it twice is saying it once. */
  lemma {:induction false} ToldExact(estimates: Estimates, receiverClientID: ClientID, ssrcs: seq<SSRC>, n: nat,
                                     estimate: u64)
    requires n <= |ssrcs|
    ensures Told(estimates, receiverClientID, ssrcs, n, estimate).Keys ==
            estimates.Keys + set i | 0 <= i < n :: ssrcs[i]
    ensures forall s :: s in Told(estimates, receiverClientID, ssrcs, n, estimate) ==>
              Told(estimates, receiverClientID, ssrcs, n, estimate)[s] ==
              if s in ssrcs[..n] then ToldOf(estimates, s, receiverClientID, estimate) else estimates[s]
  {
    if n > 0 {
      ToldExact(estimates, receiverClientID, ssrcs, n - 1, estimate);
      assert ssrcs[..n] == ssrcs[..n - 1] + [ssrcs[n - 1]];
    }
  }

  lemma {:induction false} LeastOfOneMore(estimates: Estimates, ssrcs: seq<SSRC>, n: nat, a: u64, b: u64)
    requires n < |ssrcs| && ssrcs[n] in estimates && IsLeast(estimates[ssrcs[n]], b)
    requires if n == 0 then a == MAX_UINT64 else IsLeastOf(estimates, ssrcs[..n], a)
    ensures IsLeastOf(estimates, ssrcs[..n + 1], Min(a, b))
  {
    assert ssrcs[..n + 1] == ssrcs[..n] + [ssrcs[n]];
    if Min(a, b) == b {
      var c :| c in estimates[ssrcs[n]] && estimates[ssrcs[n]][c] == b;
      assert ssrcs[n] in ssrcs[..n + 1];
    } else {
      var s, c :| s in ssrcs[..n] && s in estimates && c in estimates[s] && estimates[s][c] == a;
      assert s in ssrcs[..n + 1];
    }
  }

  class TrackBitrateEstimators {
    var estimators: map<SSRC, BitrateEstimator>
    ghost var Repr: set<BitrateEstimator>

    ghost predicate Valid() reads this, Repr {
      && (forall s :: s in estimators ==> estimators[s] in Repr && estimators[s].Valid())
      && (forall s, t :: s in estimators && t in estimators && s != t ==> estimators[s] != estimators[t])
    }

    ghost function View(): Estimates
      reads this, Repr
      requires Valid()
    {
      map s | s in estimators :: estimators[s].estimates
    }

    constructor ()
      ensures Valid() && Repr == {} && View() == map[]
    {
      estimators, Repr := map[], {};
    }

    method Estimate(receiverClientID: ClientID, ssrcs: seq<SSRC>, estimate: u64) returns (least: u64)
      requires Valid()
      modifies this, Repr
      ensures Valid() && fresh(Repr - old(Repr))
      ensures View() == Told(old(View()), receiverClientID, ssrcs, |ssrcs|, estimate)
      ensures if |ssrcs| == 0 then least == 0xFFFF_FFFF_FFFF_FFFF else IsLeastOf(View(), ssrcs, least)
    {
      hide IsLeastOf, IsLeast, ToldOf;
      ghost var was := View();
      least := MAX_UINT64;
      for i := 0 to |ssrcs|
        invariant Valid() && fresh(Repr - old(Repr))
        invariant View() == Told(was, receiverClientID, ssrcs, i, estimate)
        invariant if i == 0 then least == MAX_UINT64 else IsLeastOf(View(), ssrcs[..i], least)
      {
        var b := EstimateOne(receiverClientID, ssrcs[i], estimate);
        assert View() == Told(was, receiverClientID, ssrcs, i + 1, estimate);
        LeastStays(was, receiverClientID, ssrcs, i, estimate, least);
        LeastOfOneMore(View(), ssrcs, i, least, b);
        least := Min(least, b);
      }
      assert ssrcs[..|ssrcs|] == ssrcs;
    }

    /** The body of that loop: the estimator of one track, made on first use. */
    method EstimateOne(receiverClientID: ClientID, ssrc: SSRC, estimate: u64) returns (b: u64)
      requires Valid()
      modifies this, Repr
      ensures Valid() && fresh(Repr - old(Repr))
      ensures View() == old(View())[ssrc := ToldOf(old(View()), ssrc, receiverClientID, estimate)]
      ensures IsLeast(View()[ssrc], b)
    {
      hide IsLeast, ToldOf;
      ghost var was := View();
      EnsureEstimator(ssrc);
      MadeOnFirstUse(was, View(), ssrc, receiverClientID, estimate);
      assert View()[ssrc] == estimators[ssrc].estimates;
      label before:
      b := estimators[ssrc].Estimate(receiverClientID, estimate);
      OneChanged@before(ssrc);
    }

    method EnsureEstimator(ssrc: SSRC)
      requires Valid()
      modifies this
      ensures Valid() && fresh(Repr - old(Repr)) && old(Repr) <= Repr && ssrc in estimators
      ensures View() == if ssrc in old(View()) then old(View()) else old(View())[ssrc := map[]]
    {
      if ssrc !in estimators {
        var estimator := new BitrateEstimator();
        label before:
        estimators := estimators[ssrc := estimator];
        Repr := Repr + {estimator};
        OneMade@before(ssrc);
      }
    }

    twostate lemma OneMade(ssrc: SSRC)
      requires old(Valid()) && ssrc !in old(estimators) && ssrc in estimators
      requires estimators == old(estimators)[ssrc := estimators[ssrc]]
      requires Repr == old(Repr) + {estimators[ssrc]} && estimators[ssrc] !in old(Repr)
      requires estimators[ssrc].Valid() && estimators[ssrc].estimates == map[]
      requires forall e :: e in old(Repr) ==> unchanged(e)
      ensures Valid() && View() == old(View())[ssrc := map[]]
    {
    }

    /** Estimators are not shared: what one of them learns is all that changed. */
    twostate lemma OneChanged(ssrc: SSRC)
      requires old(Valid()) && estimators == old(estimators) && Repr == old(Repr)
      requires ssrc in estimators && estimators[ssrc].Valid()
      requires forall e :: e in Repr && e != estimators[ssrc] ==> unchanged(e)
      ensures Valid() && View() == old(View())[ssrc := estimators[ssrc].estimates]
    {
    }

    method RemoveReceiverEstimations(receiverClientID: ClientID)
      requires Valid()
      modifies Repr
      ensures Valid() && View() == Forgotten(old(View()), receiverClientID, old(View()).Keys)
    {
      hide Forgotten;
      ghost var was := View();
      ForgottenNone(was, receiverClientID);
      var todo := estimators.Keys;
      while todo != {}
        invariant Valid() && todo <= estimators.Keys == was.Keys
        invariant View() == Forgotten(was, receiverClientID, was.Keys - todo)
      {
        var ssrc :| ssrc in todo;
        ForgottenStep(was, receiverClientID, was.Keys - todo, ssrc);
        assert was.Keys - (todo - {ssrc}) == was.Keys - todo + {ssrc};
        todo := todo - {ssrc};
        label before:
        estimators[ssrc].RemoveEstimation(receiverClientID);
        OneChanged@before(ssrc);
      }
      assert was.Keys - todo == was.Keys;
    }

    method Remove(ssrc: SSRC)
      requires Valid()
      modifies this`estimators
      ensures Valid() && View() == old(View()) - {ssrc}
    {
      estimators := estimators - {ssrc};
    }
  }

  /** The least of the tracks seen so far is not changed by the next track. */
  lemma {:induction false} LeastStays(estimates: Estimates, receiverClientID: ClientID, ssrcs: seq<SSRC>, n: nat,
                                      estimate: u64, least: u64)
    requires n < |ssrcs|
    requires n > 0 ==> IsLeastOf(Told(estimates, receiverClientID, ssrcs, n, estimate), ssrcs[..n], least)
    ensures n > 0 ==> IsLeastOf(Told(estimates, receiverClientID, ssrcs, n + 1, estimate), ssrcs[..n], least)
  {
    ToldExact(estimates, receiverClientID, ssrcs, n, estimate);
    ToldExact(estimates, receiverClientID, ssrcs, n + 1, estimate);
    var a := Told(estimates, receiverClientID, ssrcs, n, estimate);
    var b := Told(estimates, receiverClientID, ssrcs, n + 1, estimate);
    assert ssrcs[..n + 1] == ssrcs[..n] + [ssrcs[n]];
    assert forall s :: s in ssrcs[..n] ==> s in a && s in b && a[s] == b[s];
  }
}
