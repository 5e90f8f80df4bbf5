/**
 Two peers running the negotiation against each other over ordered signalling: the initiator creates
 offers, the other peer asks for them and answers. The offer/answer states are those of section 3.2 of
 RFC 8829. A lock section, or a call into the peer connection, is one step.
 */
module TwoPeers {
  import opened Negotiator
  import opened Wrappers

  datatype Signal = Offer | Answer | Renegotiate | Transceiver(t: TransceiverRequest)

  /** How far the answering peer is with an offer it took from the channel. */
  datatype Answering = Idle | RemoteSet | LocalSet

  /** Whether a negotiation was asked for, on either side, or an offer was created. */
  datatype Mark = Requested | OfferCreated

  datatype Peers = Peers(
    i: Negotiation,             // the initiator
    n: Negotiation,             // the other peer
    toI: seq<Signal>,
    toN: seq<Signal>,
    stateI: SignalingState,
    stateN: SignalingState,
    stableI: nat,               // state change events not yet handled
    stableN: nat,
    answering: Answering,
    midCalls: nat,              // initiator's AddTransceiverFromKind calls between their lock sections
    log: seq<Mark>,
    sentI: seq<Signal>,         // all that was ever sent to the initiator, and to the other peer
    sentN: seq<Signal>,
    failed: bool)               // a description did not fit the signalling state

  datatype Step =
    | CallI | CallN | AskTransceiver(t: TransceiverRequest)
    | DeliverI | FinishAdd | StableI
    | DeliverN | SetAnswer | SendAnswer | StableN

  predicate Internal(a: Step) {
    !a.CallI? && !a.CallN? && !a.AskTransceiver?
  }

  predicate Enabled(p: Peers, a: Step) {
    match a
    case DeliverI => |p.toI| > 0
    case FinishAdd => p.midCalls > 0
    case StableI => p.stableI > 0
    case DeliverN => |p.toN| > 0 && p.answering.Idle?
    case SetAnswer => p.answering.RemoteSet?
    case SendAnswer => p.answering.LocalSet?
    case StableN => p.stableN > 0
    case _ => true
  }

  function SendI(p: Peers, s: Signal): Peers {
    p.(toI := p.toI + [s], sentI := p.sentI + [s])
  }

  function SendN(p: Peers, s: Signal): Peers {
    p.(toN := p.toN + [s], sentN := p.sentN + [s])
  }

  /** The initiator creates an offer, sets it as its local description and sends it. */
  function CreateOffer(p: Peers): Peers {
    SendN(p.(stateI := HaveLocalOffer, log := p.log + [OfferCreated], failed := p.failed || p.stateI != Stable), Offer)
  }

  function NegotiateI(p: Peers): Peers {
    var q := p.(i := NegotiateStep(p.i), log := p.log + [Requested]);
    if p.i.done.None? then CreateOffer(q) else q
  }

  function NegotiateN(p: Peers): Peers {
    var q := p.(n := NegotiateStep(p.n), log := p.log + [Requested]);
    if p.n.done.None? then SendI(q, Renegotiate) else q
  }

  function Receive(p: Peers, s: Signal): Peers {
    match s
    case Offer => p.(failed := true)
    case Answer => p.(failed := p.failed || p.stateI != HaveLocalOffer, stateI := Stable, stableI := p.stableI + 1)
    case Renegotiate => NegotiateI(p)
    case Transceiver(t) => p.(i := QueueTransceiver(p.i, t), midCalls := p.midCalls + 1)
  }

  function Next(p: Peers, a: Step): Peers {
    if !Enabled(p, a) then p
    else match a
      case CallI => NegotiateI(p)
      case CallN => NegotiateN(p)
      case AskTransceiver(t) => SendI(p.(log := p.log + [Requested]), Transceiver(t))
      case DeliverI => Receive(p.(toI := p.toI[1..]), p.toI[0])
      case FinishAdd => NegotiateI(p.(midCalls := p.midCalls - 1))
      case StableI =>
        var q := p.(i := OnStable(p.i), stableI := p.stableI - 1);
        if p.i.queued then CreateOffer(q) else q
      case DeliverN =>
        p.(toN := p.toN[1..], answering := RemoteSet, stateN := HaveRemoteOffer,
           failed := p.failed || !p.toN[0].Offer? || p.stateN != Stable)
      case SetAnswer =>
        p.(answering := LocalSet, stateN := Stable, stableN := p.stableN + 1,
           failed := p.failed || p.stateN != HaveRemoteOffer)
      case SendAnswer => SendI(p.(answering := Idle), Answer)
      case StableN =>
        var q := p.(n := OnStable(p.n), stableN := p.stableN - 1);
        if p.n.queued then SendI(q, Renegotiate) else q
  }

  const START: Peers := Peers(Fresh(true), Fresh(false), [], [], Stable, Stable, 0, 0, Idle, 0, [], [], [], false)

  /** Any interleaving from the start; a step that is not enabled does not happen. */
  function Run(steps: seq<Step>): Peers {
    if |steps| == 0 then START else Next(Run(steps[..|steps| - 1]), steps[|steps| - 1])
  }

  // ---------------------------------------------------------------- what every step keeps

  function Count(ss: seq<Signal>, s: Signal): nat {
    if |ss| == 0 then 0 else Count(ss[1..], s) + (if ss[0] == s then 1 else 0)
  }

  function Waiting(ss: seq<Signal>): nat {
    if |ss| == 0 then 0 else Waiting(ss[1..]) + (if ss[0].Renegotiate? || ss[0].Transceiver? then 1 else 0)
  }

  /** Offers created whose answer the initiator has not applied. */
  function Outstanding(p: Peers): nat {
    |p.toN| + ToNat(!p.answering.Idle?) + Count(p.toI, Answer)
  }

  /** The round in flight, the signalling states and the messages fit together. */
  ghost predicate InStep(p: Peers) {
    && p.i.initiator && !p.n.initiator && Offered !in p.n.effects
    && !p.failed
    && (forall s :: s in p.toN ==> s == Offer)
    && Offer !in p.toI
    && Outstanding(p) + p.stableI == ToNat(p.i.done.Some?)
    && p.stateI == (if Outstanding(p) > 0 then HaveLocalOffer else Stable)
    && p.stateN == (if p.answering.RemoteSet? then HaveRemoteOffer else Stable)
    && (p.i.queued ==> p.i.done.Some?)
    && (p.n.queued ==> p.n.done.Some?)
    && |p.n.requests| == 0
  }

  /** Whatever is not finished has something left to happen that finishes it. */
  ghost predicate UnderWay(p: Peers) {
    && (p.n.done.Some? ==>
          Count(p.toI, Renegotiate) > 0 || p.i.queued || |p.toN| > 0 || p.answering.RemoteSet? || p.stableN > 0)
    && (|p.i.requests| > 0 ==> p.i.queued || p.midCalls > 0)
    && (Uncovered(p.log) ==> p.i.queued || p.n.queued || Waiting(p.toI) > 0 || p.midCalls > 0)
  }

  ghost predicate Inv(p: Peers) {
    InStep(p) && UnderWay(p)
  }

  /** A request came after the last offer. */
  predicate Uncovered(log: seq<Mark>) {
    |log| > 0 && log[|log| - 1].Requested?
  }

  lemma {:induction false} CountAppend(ss: seq<Signal>, t: Signal)
    ensures forall s :: Count(ss + [t], s) == Count(ss, s) + (if s == t then 1 else 0)
    ensures Waiting(ss + [t]) == Waiting(ss) + (if t.Renegotiate? || t.Transceiver? then 1 else 0)
  {
    if |ss| == 0 {
      assert ss + [t] == [t];
    } else {
      CountAppend(ss[1..], t);
      assert (ss + [t])[1..] == ss[1..] + [t];
    }
  }

  lemma {:induction false} OfferedOnlyByInitiator(n: Negotiation)
    requires !n.initiator && Offered !in n.effects
    ensures Offered !in StartRound(n).effects && Offered !in CloseDone(n).effects
  {
    AddsAreAdded(n.requests);
  }

  lemma {:induction false} AddsAreAdded(ts: seq<TransceiverRequest>)
    ensures Offered !in Adds(ts)
  {
    if |ts| > 0 {
      AddsAreAdded(ts[..|ts| - 1]);
    }
  }

  /** A negotiation of the initiator leaves a new offer on its way or the request queued. */
  lemma {:induction false} NegotiateIKeeps(p: Peers)
    requires InStep(p)
    ensures Inv(NegotiateI(p))
  {
    hide Count, Waiting, Adds;
    var q := NegotiateI(p);
    assert p.i.done.None? ==> p.stateI == Stable && |p.toN| == 0;
  }

  lemma {:induction false} NegotiateNKeeps(p: Peers)
    requires Inv(p)
    ensures Inv(NegotiateN(p))
  {
    hide Count, Waiting, Adds;
    CountAppend(p.toI, Renegotiate);
    OfferedOnlyByInitiator(p.n);
  }

  lemma {:induction false} DeliverIKeeps(p: Peers)
    requires Inv(p) && |p.toI| > 0
    ensures Inv(Next(p, DeliverI))
  {
    var s, rest := p.toI[0], p.toI[1..];
    var q := p.(toI := rest);
    assert s in p.toI;
    assert forall t :: t in rest ==> t in p.toI;
    match s
    case Offer =>
    case Answer =>
    case Renegotiate => NegotiateIKeeps(q);
    case Transceiver(t) =>
  }

  lemma {:induction false} StableIKeeps(p: Peers)
    requires Inv(p) && p.stableI > 0
    ensures Inv(Next(p, StableI))
  {
    hide Count, Waiting, Adds;
  }

  lemma {:induction false} StableNKeeps(p: Peers)
    requires Inv(p) && p.stableN > 0
    ensures Inv(Next(p, StableN))
  {
    hide Count, Waiting, Adds;
    CountAppend(p.toI, Renegotiate);
    OfferedOnlyByInitiator(p.n.(queued := false));
    OfferedOnlyByInitiator(p.n);
  }

  lemma {:induction false} StepKeeps(p: Peers, a: Step)
    requires Inv(p)
    ensures Inv(Next(p, a))
  {
    hide Count, Waiting;
    if Enabled(p, a) {
      match a
      case CallI => NegotiateIKeeps(p);
      case CallN => NegotiateNKeeps(p);
      case AskTransceiver(t) => CountAppend(p.toI, Transceiver(t));
      case DeliverI => DeliverIKeeps(p);
      case FinishAdd => NegotiateIKeeps(p.(midCalls := p.midCalls - 1));
      case StableI => StableIKeeps(p);
      case DeliverN => assert p.toN[0] in p.toN;
      case SetAnswer =>
      case SendAnswer => CountAppend(p.toI, Answer);
      case StableN => StableNKeeps(p);
    }
  }

  lemma {:induction false} RunKeeps(steps: seq<Step>)
    ensures Inv(Run(steps))
  {
    if |steps| > 0 {
      RunKeeps(steps[..|steps| - 1]);
      StepKeeps(Run(steps[..|steps| - 1]), steps[|steps| - 1]);
    }
  }

  // ---------------------------------------------------------------- what the protocol promises

  /** No signal is in flight, no state event is pending and no call is half done. */
  predicate Quiet(p: Peers) {
    |p.toI| == 0 && |p.toN| == 0 && p.stableI == 0 && p.stableN == 0 && p.answering.Idle? && p.midCalls == 0
  }

  predicate Rest(n: Negotiation) {
    n.done.None? && !n.queued && |n.requests| == 0
  }

  /** At most one offer is outstanding, the other peer never creates one, and every description fits its state. */
  lemma {:induction false} OneOfferAtATime(steps: seq<Step>)
    ensures var p := Run(steps);
            Outstanding(p) <= 1 && Offered !in p.n.effects && !p.failed
  {
    RunKeeps(steps);
  }

  /** Once it is quiet, both sides are at rest and the last offer came after the last request. */
  lemma {:induction false} QuietIsDone(steps: seq<Step>)
    requires Quiet(Run(steps))
    ensures Rest(Run(steps).i) && Rest(Run(steps).n) && !Uncovered(Run(steps).log)
  {
    RunKeeps(steps);
  }

  // ---------------------------------------------------------------- the signalling states

  /** The initiator asks its negotiator for a round, or its stable event starts one. */
  predicate AsksI(p: Peers, a: Step) {
    a.CallI? || (a.FinishAdd? && p.midCalls > 0) || (a.DeliverI? && |p.toI| > 0 && p.toI[0].Renegotiate?)
  }

  predicate OffersNow(p: Peers, a: Step) {
    (AsksI(p, a) && p.i.done.None?) || (a.StableI? && p.stableI > 0 && p.i.queued)
  }

  predicate TakesAnswer(p: Peers, a: Step) {
    a.DeliverI? && |p.toI| > 0 && p.toI[0].Answer?
  }

  predicate TakesOffer(p: Peers, a: Step) {
    a.DeliverN? && |p.toN| > 0 && p.answering.Idle?
  }

  predicate SetsAnswer(p: Peers, a: Step) {
    a.SetAnswer? && p.answering.RemoteSet?
  }

  /** A description is set in a state that section 3.2 of RFC 8829 has no transition for. */
  predicate Misfits(p: Peers, a: Step) {
    || (OffersNow(p, a) && p.stateI != Stable)
    || (TakesAnswer(p, a) && p.stateI != HaveLocalOffer)
    || (TakesOffer(p, a) && (p.stateN != Stable || p.toN[0] != Offer))
    || (SetsAnswer(p, a) && p.stateN != HaveRemoteOffer)
    || (a.DeliverI? && |p.toI| > 0 && p.toI[0].Offer?)
  }

  /** The states, their events and the log change with these descriptions, and with nothing else. */
  lemma {:induction false} StatesExact(p: Peers, a: Step)
    ensures var q := Next(p, a);
            && q.failed == (p.failed || Misfits(p, a))
            && q.stateI == (if OffersNow(p, a) then HaveLocalOffer else if TakesAnswer(p, a) then Stable else p.stateI)
            && q.stateN == (if TakesOffer(p, a) then HaveRemoteOffer else if SetsAnswer(p, a) then Stable else p.stateN)
            && q.stableI == p.stableI + (if TakesAnswer(p, a) then 1 else if a.StableI? && p.stableI > 0 then -1 else 0)
            && q.stableN == p.stableN + (if SetsAnswer(p, a) then 1 else if a.StableN? && p.stableN > 0 then -1 else 0)
            && q.log == p.log + (if AsksI(p, a) || a.CallN? || a.AskTransceiver? then [Requested] else [])
                        + (if OffersNow(p, a) then [OfferCreated] else [])
  {
    hide NegotiateStep, OnStable;
  }

  /** What each peer hands to its negotiator. */
  lemma {:induction false} RequestsExact(p: Peers, a: Step)
    ensures var q := Next(p, a);
            && (AsksI(p, a) ==> RequestIsServed(p.i, q.i))
            && (a.CallN? ==> RequestIsServed(p.n, q.n))
            && (a.StableI? && p.stableI > 0 ==> StableIsServed(p.i, q.i))
            && (a.StableN? && p.stableN > 0 ==> StableIsServed(p.n, q.n))
            && (a.DeliverI? && |p.toI| > 0 && p.toI[0].Transceiver? ==>
                  q.i == p.i.(requests := p.i.requests + [p.toI[0].t]) && q.midCalls == p.midCalls + 1)
            && (a.FinishAdd? && p.midCalls > 0 ==> q.midCalls == p.midCalls - 1)
  {
    SectionsAreServed(p.i);
    SectionsAreServed(p.n);
    hide NegotiateStep, OnStable, RequestIsServed, StableIsServed;
  }

  // ---------------------------------------------------------------- nothing is made up and nothing lost

  /** The transceivers that these signals ask for. */
  function Transceivers(ss: seq<Signal>): seq<TransceiverRequest> {
    if |ss| == 0 then []
    else
      var last := ss[|ss| - 1];
      Transceivers(ss[..|ss| - 1]) + if last.Transceiver? then [last.t] else []
  }

  function Offers(log: seq<Mark>): nat {
    if |log| == 0 then 0 else Offers(log[..|log| - 1]) + if log[|log| - 1].OfferCreated? then 1 else 0
  }

  /** The signals to the initiator that it has taken. */
  function Taken(p: Peers): seq<Signal> {
    p.sentI[..Max0(|p.sentI| - |p.toI|)]
  }

  function Max0(n: int): nat {
    if n < 0 then 0 else n
  }

  /** What is in flight was sent last; what was taken is what was sent before. */
  ghost predicate InOrder(p: Peers) {
    && |p.toI| <= |p.sentI| && p.sentI == Taken(p) + p.toI
    && |p.toN| <= |p.sentN| && p.sentN[|p.sentN| - |p.toN|..] == p.toN
  }

  /**
   Every offer of the initiator is logged and sent, every request of the other peer is sent, every offer taken is
   answered once, and every transceiver the initiator took a request for is added or waits, in order.
   */
  ghost predicate Accounted(p: Peers) {
    && Offers(p.log) == CountOf(p.i.effects, Offered) == |p.sentN|
    && CountOf(p.n.effects, Asked) == Count(p.sentI, Renegotiate)
    && Count(p.sentI, Answer) + |p.toN| + ToNat(!p.answering.Idle?) == |p.sentN|
    && AddedIn(p.i.effects) + p.i.requests == Transceivers(Taken(p))
  }

  lemma {:induction false} TransceiversAppend(ss: seq<Signal>, s: Signal)
    ensures Transceivers(ss + [s]) == Transceivers(ss) + if s.Transceiver? then [s.t] else []
  {
    assert (ss + [s])[..|ss|] == ss;
  }

  lemma {:induction false} OffersAppend(log: seq<Mark>, m: Mark)
    ensures Offers(log + [m]) == Offers(log) + if m.OfferCreated? then 1 else 0
  {
    assert (log + [m])[..|log|] == log;
  }

  lemma {:induction false} NegotiateAccounts(n: Negotiation)
    ensures var m := NegotiateStep(n);
            && CountOf(m.effects, Offered) ==
               CountOf(n.effects, Offered) + (if n.done.None? && n.initiator then 1 else 0)
            && CountOf(m.effects, Asked) ==
               CountOf(n.effects, Asked) + (if n.done.None? && !n.initiator then 1 else 0)
            && AddedIn(m.effects) + m.requests == AddedIn(n.effects) + n.requests
  {
    hide CountOf, AddedIn, StartRound;
    var fresh0 := n.(done := Some(n.channels), channels := n.channels + 1);
    SectionsAreServed(n);
    RoundEffects(fresh0);
    StartRoundStarts(fresh0);
    if n.done.None? {
      RoundCounts(n, NegotiateStep(n));
    }
  }

  lemma {:induction false} StableAccounts(n: Negotiation)
    ensures var m := OnStable(n);
            && CountOf(m.effects, Offered) == CountOf(n.effects, Offered) + (if n.queued && n.initiator then 1 else 0)
            && CountOf(m.effects, Asked) == CountOf(n.effects, Asked) + (if n.queued && !n.initiator then 1 else 0)
            && AddedIn(m.effects) + m.requests == AddedIn(n.effects) + n.requests
  {
    hide CountOf, AddedIn, StartRound;
    SectionsAreServed(n);
    RoundEffects(n.(queued := false));
    StartRoundStarts(n.(queued := false));
    if n.queued {
      RoundCounts(n, OnStable(n));
    } else {
      CloseCounts(n, OnStable(n));
      if n.done.Some? {
        EffectsAppend(n.effects, Closed(n.done.value));
      }
    }
  }

  lemma {:induction false} SendIInOrder(p: Peers, s: Signal)
    requires InOrder(p)
    ensures InOrder(SendI(p, s)) && Taken(SendI(p, s)) == Taken(p)
  {
  }

  lemma {:induction false} SendNInOrder(p: Peers, s: Signal)
    requires InOrder(p)
    ensures InOrder(SendN(p, s)) && Taken(SendN(p, s)) == Taken(p)
  {
  }

  lemma {:induction false} TakeInOrder(p: Peers)
    requires InOrder(p)
    ensures |p.toI| > 0 ==>
              InOrder(p.(toI := p.toI[1..])) && Taken(p.(toI := p.toI[1..])) == Taken(p) + [p.toI[0]]
    ensures |p.toN| > 0 ==> InOrder(p.(toN := p.toN[1..])) && Taken(p.(toN := p.toN[1..])) == Taken(p)
  {
    if |p.toI| > 0 {
      var q := p.(toI := p.toI[1..]);
      assert p.sentI == (Taken(p) + [p.toI[0]]) + p.toI[1..];
      assert Taken(q) == Taken(p) + [p.toI[0]];
    }
  }

  /** Only these fields matter to what is recorded. */
  predicate SameRecord(p: Peers, q: Peers) {
    p.toI == q.toI && p.toN == q.toN && p.sentI == q.sentI && p.sentN == q.sentN
  }

  lemma {:induction false} SameInOrder(p: Peers, q: Peers)
    requires InOrder(p) && SameRecord(p, q)
    ensures InOrder(q) && Taken(q) == Taken(p)
  {
  }

  lemma {:induction false} CreateOfferAccounts(p: Peers)
    requires InOrder(p)
    ensures var q := CreateOffer(p);
            && InOrder(q) && Taken(q) == Taken(p) && q.sentI == p.sentI && q.i == p.i && q.n == p.n
            && Offers(q.log) == Offers(p.log) + 1 && |q.sentN| == |p.sentN| + 1 && |q.toN| == |p.toN| + 1
            && q.answering == p.answering
  {
    var q := p.(stateI := HaveLocalOffer, log := p.log + [OfferCreated], failed := p.failed || p.stateI != Stable);
    SameInOrder(p, q);
    SendNInOrder(q, Offer);
    OffersAppend(p.log, OfferCreated);
    hide InOrder, Taken;
  }

  lemma {:induction false} NegotiateIAccounts(p: Peers)
    requires InOrder(p) && Accounted(p) && p.i.initiator
    ensures InOrder(NegotiateI(p)) && Accounted(NegotiateI(p))
  {
    hide InOrder, Taken, CountOf, AddedIn, NegotiateStep, CreateOffer, Count, Transceivers, Offers;
    var q := p.(i := NegotiateStep(p.i), log := p.log + [Requested]);
    NegotiateAccounts(p.i);
    OffersAppend(p.log, Requested);
    SameInOrder(p, q);
    CreateOfferAccounts(q);
  }

  lemma {:induction false} RenegotiateAccounts(p: Peers, n: Negotiation, log: seq<Mark>, sends: bool, stableN: nat)
    requires InOrder(p) && Accounted(p)
    requires CountOf(n.effects, Asked) == CountOf(p.n.effects, Asked) + ToNat(sends) && Offers(log) == Offers(p.log)
    ensures var q := p.(n := n, log := log, stableN := stableN);
            var r := if sends then SendI(q, Renegotiate) else q;
            InOrder(r) && Accounted(r)
  {
    hide InOrder, Taken, CountOf, AddedIn, Count, Transceivers, Offers;
    var q := p.(n := n, log := log, stableN := stableN);
    SameInOrder(p, q);
    SendIInOrder(q, Renegotiate);
    CountAppend(p.sentI, Renegotiate);
  }

  lemma {:induction false} DeliverIAccounts(p: Peers)
    requires InOrder(p) && Accounted(p) && p.i.initiator && |p.toI| > 0
    ensures InOrder(Next(p, DeliverI)) && Accounted(Next(p, DeliverI))
  {
    hide InOrder, Taken, CountOf, AddedIn, NegotiateI, Count, Transceivers, Offers;
    var q, s := p.(toI := p.toI[1..]), p.toI[0];
    TakeInOrder(p);
    TransceiversAppend(Taken(p), s);
    match s
    case Renegotiate =>
      assert Accounted(q);
      NegotiateIAccounts(q);
    case Transceiver(t) =>
      SameInOrder(q, Next(p, DeliverI));
      ConcatAssoc(AddedIn(p.i.effects), p.i.requests, [t]);
    case _ =>
      SameInOrder(q, Next(p, DeliverI));
  }

  lemma {:induction false} StableIAccounts(p: Peers)
    requires InOrder(p) && Accounted(p) && p.i.initiator && p.stableI > 0
    ensures InOrder(Next(p, StableI)) && Accounted(Next(p, StableI))
  {
    hide InOrder, Taken, CountOf, AddedIn, OnStable, CreateOffer, Count, Transceivers, Offers;
    var q := p.(i := OnStable(p.i), stableI := p.stableI - 1);
    StableAccounts(p.i);
    SameInOrder(p, q);
    CreateOfferAccounts(q);
  }

  lemma {:induction false} StepAccounts(p: Peers, a: Step)
    requires Inv(p) && InOrder(p) && Accounted(p)
    ensures InOrder(Next(p, a)) && Accounted(Next(p, a))
  {
    hide InOrder, Taken, CountOf, AddedIn, NegotiateI, NegotiateStep, OnStable, CreateOffer, Count, Transceivers,
      Offers;
    if Enabled(p, a) {
      match a
      case CallI => NegotiateIAccounts(p);
      case CallN =>
        NegotiateAccounts(p.n);
        OffersAppend(p.log, Requested);
        RenegotiateAccounts(p, NegotiateStep(p.n), p.log + [Requested], p.n.done.None?, p.stableN);
      case AskTransceiver(t) =>
        var q := p.(log := p.log + [Requested]);
        OffersAppend(p.log, Requested);
        SameInOrder(p, q);
        SendIInOrder(q, Transceiver(t));
        CountAppend(p.sentI, Transceiver(t));
      case DeliverI => DeliverIAccounts(p);
      case FinishAdd =>
        var q := p.(midCalls := p.midCalls - 1);
        SameInOrder(p, q);
        NegotiateIAccounts(q);
      case StableI => StableIAccounts(p);
      case DeliverN =>
        TakeInOrder(p);
        SameInOrder(p.(toN := p.toN[1..]), Next(p, a));
      case SetAnswer => SameInOrder(p, Next(p, a));
      case SendAnswer =>
        SameInOrder(p, p.(answering := Idle));
        SendIInOrder(p.(answering := Idle), Answer);
        CountAppend(p.sentI, Answer);
      case StableN =>
        StableAccounts(p.n);
        RenegotiateAccounts(p, OnStable(p.n), p.log, p.n.queued, p.stableN - 1);
    }
  }

  /** The transceivers that the steps ask for. */
  function AskedFor(steps: seq<Step>): seq<TransceiverRequest> {
    if |steps| == 0 then []
    else
      var last := steps[|steps| - 1];
      AskedFor(steps[..|steps| - 1]) + if last.AskTransceiver? then [last.t] else []
  }

  lemma {:induction false} StepSends(p: Peers, a: Step)
    requires Inv(p)
    ensures Transceivers(Next(p, a).sentI) == Transceivers(p.sentI) + if a.AskTransceiver? then [a.t] else []
  {
    hide Transceivers, NegotiateStep, OnStable;
    TransceiversAppend(p.sentI, Renegotiate);
    TransceiversAppend(p.sentI, Answer);
    if a.AskTransceiver? {
      TransceiversAppend(p.sentI, Transceiver(a.t));
    }
  }

  /** In every run offers, requests, answers and transceivers are as many and in the order that they were asked for. */
  lemma {:induction false} EverythingIsAccounted(steps: seq<Step>)
    ensures InOrder(Run(steps)) && Accounted(Run(steps))
    ensures Transceivers(Run(steps).sentI) == AskedFor(steps)
  {
    hide Next, Inv, Accounted, InOrder;
    if |steps| == 0 {
      NothingYet();
    } else {
      EverythingIsAccounted(steps[..|steps| - 1]);
      RunKeeps(steps[..|steps| - 1]);
      StepAccounts(Run(steps[..|steps| - 1]), steps[|steps| - 1]);
      StepSends(Run(steps[..|steps| - 1]), steps[|steps| - 1]);
    }
  }

  lemma {:induction false} NothingYet()
    ensures InOrder(START) && Accounted(START)
  {
  }

  // ---------------------------------------------------------------- convergence

  function SignalCost(s: Signal): nat {
    match s
    case Answer => 2
    case Renegotiate => 7
    case Transceiver(_) => 8
    case Offer => 6
  }

  function Cost(ss: seq<Signal>): nat {
    if |ss| == 0 then 0 else SignalCost(ss[0]) + Cost(ss[1..])
  }

  function AnsweringCost(a: Answering): nat {
    match a
    case Idle => 0
    case LocalSet => 3
    case RemoteSet => 5
  }

  /** What is still to happen without a new request. */
  function Work(p: Peers): nat {
    Cost(p.toI) + Cost(p.toN) + AnsweringCost(p.answering) + p.stableI + p.stableN + 7 * p.midCalls
    + (if p.i.queued then 6 else 0) + (if p.n.queued then 7 else 0)
  }

  lemma {:induction false} CostAppend(ss: seq<Signal>, t: Signal)
    ensures Cost(ss + [t]) == Cost(ss) + SignalCost(t)
  {
    if |ss| == 0 {
      assert ss + [t] == [t];
    } else {
      CostAppend(ss[1..], t);
      assert (ss + [t])[1..] == ss[1..] + [t];
    }
  }

  lemma {:induction false} NegotiateIWork(p: Peers)
    ensures Work(NegotiateI(p)) <= Work(p) + 6
  {
    CostAppend(p.toN, Offer);
  }

  lemma {:induction false} DeliverIWork(p: Peers)
    requires |p.toI| > 0 && p.toI[0] != Offer
    ensures Work(Next(p, DeliverI)) < Work(p)
  {
    hide Cost, NegotiateI;
    var q := p.(toI := p.toI[1..]);
    assert Cost(p.toI) == SignalCost(p.toI[0]) + Cost(q.toI) by { CostHead(p.toI); }
    NegotiateIWork(q);
  }

  lemma {:induction false} CostHead(ss: seq<Signal>)
    requires |ss| > 0
    ensures Cost(ss) == SignalCost(ss[0]) + Cost(ss[1..])
  {
  }

  /** Every internal step uses up work, so without new requests a run is no longer than its work. */
  lemma {:induction false} WorkDecreases(p: Peers, a: Step)
    requires Inv(p) && Internal(a) && Enabled(p, a)
    ensures Work(Next(p, a)) < Work(p)
  {
    hide Count, Waiting, Adds, Cost, NegotiateI;
    match a
    case DeliverI =>
      assert p.toI[0] in p.toI;
      DeliverIWork(p);
    case FinishAdd => NegotiateIWork(p.(midCalls := p.midCalls - 1));
    case StableI => CostAppend(p.toN, Offer);
    case DeliverN =>
      assert p.toN[0] in p.toN;
      CostHead(p.toN);
    case SetAnswer =>
    case SendAnswer => CostAppend(p.toI, Answer);
    case StableN => CostAppend(p.toI, Renegotiate);
  }

  /** Until it is quiet, some internal step is enabled. */
  function SomeStep(p: Peers): Step {
    if |p.toI| > 0 then DeliverI
    else if p.midCalls > 0 then Step.FinishAdd
    else if p.stableI > 0 then StableI
    else if p.stableN > 0 then StableN
    else if p.answering.RemoteSet? then SetAnswer
    else if p.answering.LocalSet? then SendAnswer
    else DeliverN
  }

  lemma {:induction false} NeverStuck(p: Peers)
    requires !Quiet(p)
    ensures Internal(SomeStep(p)) && Enabled(p, SomeStep(p))
  {
  }

  lemma {:induction false} RunAppend(steps: seq<Step>, a: Step)
    ensures Run(steps + [a]) == Next(Run(steps), a)
  {
    assert (steps + [a])[..|steps|] == steps;
  }

  /** From every reachable state the two peers come to rest by themselves. */
  lemma {:induction false} ComesToRest(steps: seq<Step>) returns (more: seq<Step>)
    ensures forall k :: 0 <= k < |more| ==> Internal(more[k])
    ensures Quiet(Run(steps + more))
    decreases Work(Run(steps))
  {
    hide Run, Next, Work, Inv, Quiet, SomeStep, Enabled, Internal;
    var p := Run(steps);
    if Quiet(p) {
      more := [];
      assert steps + more == steps;
    } else {
      var a := SomeStep(p);
      RunKeeps(steps);
      NeverStuck(p);
      WorkDecreases(p, a);
      RunAppend(steps, a);
      var rest := ComesToRest(steps + [a]);
      more := [a] + rest;
      ConcatAssoc(steps, [a], rest);
    }
  }
}
