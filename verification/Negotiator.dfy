/**
 One side of the WebRTC negotiation: at most one round is in flight, later requests are queued as one
 flag, and transceivers wait for the next round.
 */
module Negotiator {
  import opened Wrappers

  datatype TransceiverRequest = TransceiverRequest(codecType: string, direction: string)

  /** What a negotiator does to its surroundings, in order. Channels are numbered as they are made. */
  datatype Effect =
    | Added(t: TransceiverRequest)
    | Offered
    | Asked
    | Closed(channel: nat)

  datatype Negotiation = Negotiation(
    initiator: bool,
    done: Option<nat>,
    queued: bool,
    requests: seq<TransceiverRequest>,
    channels: nat,
    effects: seq<Effect>)

  function Fresh(initiator: bool): Negotiation {
    Negotiation(initiator, None, false, [], 0, [])
  }

  // ---------------------------------------------------------------- the lock sections

  function Adds(ts: seq<TransceiverRequest>): seq<Effect> {
    if |ts| == 0 then [] else Adds(ts[..|ts| - 1]) + [Added(ts[|ts| - 1])]
  }

  function CloseDone(n: Negotiation): Negotiation {
    if n.done.Some? then n.(effects := n.effects + [Closed(n.done.value)], done := None) else n
  }

  function StartRound(n: Negotiation): Negotiation {
    n.(effects := n.effects + Adds(n.requests) + [if n.initiator then Offered else Asked], requests := [])
  }

  function NegotiateStep(n: Negotiation): Negotiation {
    if n.done.Some? then n.(queued := true)
    else StartRound(n.(done := Some(n.channels), channels := n.channels + 1))
  }

  function OnStable(n: Negotiation): Negotiation {
    if n.queued then StartRound(n.(queued := false)) else CloseDone(n)
  }

  function QueueTransceiver(n: Negotiation, t: TransceiverRequest): Negotiation {
    n.(requests := n.requests + [t])
  }

  // ---------------------------------------------------------------- what a lock section does, effect by effect

  /** A round: every waiting transceiver is added, in order, and then there is one offer or one request for it. */
  predicate RoundStarts(before: Negotiation, after: Negotiation) {
    var e, w := |before.effects|, |before.requests|;
    && after.initiator == before.initiator && after.requests == []
    && |after.effects| == e + w + 1 && after.effects[..e] == before.effects
    && (forall i :: 0 <= i < w ==> after.effects[e + i] == Added(before.requests[i]))
    && after.effects[e + w] == (if before.initiator then Offered else Asked)
  }

  /** The current channel, if any, is closed. */
  predicate ChannelCloses(before: Negotiation, after: Negotiation) {
    && after.done.None?
    && after.effects == before.effects + (if before.done.Some? then [Closed(before.done.value)] else [])
    && after == before.(done := after.done, effects := after.effects)
  }

  /** A request starts a round on a new channel, or is noted while a round is in flight. */
  predicate RequestIsServed(before: Negotiation, after: Negotiation) {
    if before.done.Some? then after == before.(queued := true)
    else
      && RoundStarts(before, after)
      && after.done == Some(before.channels) && after.channels == before.channels + 1 && after.queued == before.queued
  }

  /** A stable connection starts the round that is queued, on the same channel, or else closes that. */
  predicate StableIsServed(before: Negotiation, after: Negotiation) {
    if before.queued then
      && RoundStarts(before, after)
      && after.done == before.done && after.channels == before.channels && !after.queued
    else ChannelCloses(before, after)
  }

  lemma {:induction false} AddsAt(ts: seq<TransceiverRequest>)
    ensures |Adds(ts)| == |ts| && forall i :: 0 <= i < |ts| ==> Adds(ts)[i] == Added(ts[i])
  {
    if |ts| > 0 {
      AddsAt(ts[..|ts| - 1]);
    }
  }

  lemma {:induction false} StartRoundStarts(n: Negotiation)
    ensures RoundStarts(n, StartRound(n))
  {
    AddsAt(n.requests);
    hide Adds;
  }

  lemma {:induction false} SectionsAreServed(n: Negotiation)
    ensures RequestIsServed(n, NegotiateStep(n)) && StableIsServed(n, OnStable(n)) && ChannelCloses(n, CloseDone(n))
  {
    StartRoundStarts(n.(done := Some(n.channels), channels := n.channels + 1));
    StartRoundStarts(n.(queued := false));
    hide StartRound;
  }

  datatype SignalingState = Stable | HaveLocalOffer | HaveRemoteOffer | ClosedState

  class Negotiator {
    const initiator: bool
    var negotiationDone: Option<nat>
    var queuedNegotiation: bool
    var queuedTransceiverRequests: seq<TransceiverRequest>
    var channels: nat
    var effects: seq<Effect>

    ghost function State(): Negotiation
      reads this
    {
      Negotiation(initiator, negotiationDone, queuedNegotiation, queuedTransceiverRequests, channels, effects)
    }

    constructor (initiator: bool)
      ensures State() == Fresh(initiator)
    {
      this.initiator := initiator;
      negotiationDone, queuedNegotiation, queuedTransceiverRequests, channels, effects := None, false, [], 0, [];
    }

    /** First lock section of AddTransceiverFromKind; a call of Negotiate follows. */
    method QueueTransceiverRequest(t: TransceiverRequest)
      modifies this
      ensures State() == QueueTransceiver(old(State()), t)
      ensures queuedTransceiverRequests == old(queuedTransceiverRequests) + [t] && effects == old(effects)
    {
      queuedTransceiverRequests := queuedTransceiverRequests + [t];
    }

    method CloseDoneChannel()
      modifies this
      ensures State() == CloseDone(old(State())) && ChannelCloses(old(State()), State())
    {
      if negotiationDone.Some? {
        effects := effects + [Closed(negotiationDone.value)];
        negotiationDone := None;
      }
    }

    method HandleSignalingStateChange(state: SignalingState)
      modifies this
      ensures State() == match state
                         case ClosedState => CloseDone(old(State()))
                         case Stable => OnStable(old(State()))
                         case _ => old(State())
      ensures state.Stable? ==> StableIsServed(old(State()), State())
      ensures state.ClosedState? ==> ChannelCloses(old(State()), State())
    {
      SectionsAreServed(State());
      match state
      case ClosedState => CloseDoneChannel();
      case Stable =>
        if queuedNegotiation {
          queuedNegotiation := false;
          DoNegotiate();
        } else {
          CloseDoneChannel();
        }
      case _ =>
    }

    method Negotiate() returns (done: Option<nat>)
      modifies this
      ensures State() == NegotiateStep(old(State())) && RequestIsServed(old(State()), State())
      ensures done == if old(negotiationDone).Some? then None else negotiationDone
    {
      SectionsAreServed(State());
      if negotiationDone.Some? {
        queuedNegotiation := true;
        return None;
      }
      negotiationDone := Some(channels);
      channels := channels + 1;
      DoNegotiate();
      return negotiationDone;
    }

    method AddQueuedTransceivers()
      modifies this`effects, this`queuedTransceiverRequests
      ensures effects == old(effects) + Adds(old(queuedTransceiverRequests))
      ensures queuedTransceiverRequests == []
    {
      for i := 0 to |queuedTransceiverRequests|
        invariant queuedTransceiverRequests == old(queuedTransceiverRequests)
        invariant effects == old(effects) + Adds(queuedTransceiverRequests[..i])
      {
        assert queuedTransceiverRequests[..i + 1][..i] == queuedTransceiverRequests[..i];
        effects := effects + [Added(queuedTransceiverRequests[i])];
      }
      assert queuedTransceiverRequests[..|queuedTransceiverRequests|] == queuedTransceiverRequests;
      queuedTransceiverRequests := [];
    }

    method DoNegotiate()
      modifies this`effects, this`queuedTransceiverRequests
      ensures State() == StartRound(old(State())) && RoundStarts(old(State()), State())
    {
      StartRoundStarts(State());
      AddQueuedTransceivers();
      if !initiator {
        effects := effects + [Asked];
        return;
      }
      effects := effects + [Offered];
    }
  }

  // ---------------------------------------------------------------- all interleavings of one negotiator

  /** Lock sections, in the order they get the mutex; stable and closed events come at any time. */
  datatype Section =
    | Call
    | Queue(t: TransceiverRequest)
    | FinishAdd
    | StableEvent
    | ClosedEvent

  /** The negotiator with what its callers have done so far. */
  datatype History = History(
    n: Negotiation,
    midCalls: nat,
    unserved: nat,
    asked: seq<TransceiverRequest>,
    shut: bool)

  /** AddTransceiverFromKind calls Negotiate only after it queued its request. */
  predicate Enabled(h: History, s: Section) {
    s.FinishAdd? ==> h.midCalls > 0
  }

  /** Requests are unserved until a round starts; a request that starts a round is served by it. */
  function Request(h: History): History {
    h.(n := NegotiateStep(h.n), unserved := if h.n.done.Some? then h.unserved + 1 else 0)
  }

  function Next(h: History, s: Section): History {
    if !Enabled(h, s) then h
    else match s
      case Call => Request(h)
      case Queue(t) => h.(n := QueueTransceiver(h.n, t), midCalls := h.midCalls + 1, asked := h.asked + [t])
      case FinishAdd => Request(h.(midCalls := h.midCalls - 1))
      case StableEvent => h.(n := OnStable(h.n), unserved := if h.n.queued then 0 else h.unserved)
      case ClosedEvent => h.(n := CloseDone(h.n), shut := true)
  }

  /** Any interleaving from the start; a section that is not enabled does not happen. */
  function Run(initiator: bool, sections: seq<Section>): History {
    if |sections| == 0 then History(Fresh(initiator), 0, 0, [], false)
    else Next(Run(initiator, sections[..|sections| - 1]), sections[|sections| - 1])
  }

  /** Transceivers handed to the connection so far, in order. */
  function AddedIn(es: seq<Effect>): seq<TransceiverRequest> {
    if |es| == 0 then []
    else
      var last := es[|es| - 1];
      AddedIn(es[..|es| - 1]) + (if last.Added? then [last.t] else [])
  }

  /** Channels closed so far, in order. */
  function ClosedIn(es: seq<Effect>): seq<nat> {
    if |es| == 0 then []
    else
      var last := es[|es| - 1];
      ClosedIn(es[..|es| - 1]) + (if last.Closed? then [last.channel] else [])
  }

  /** Channels close in the order they were made, each at most once, and never the one in use. */
  ghost predicate ClosedInOrder(closed: seq<nat>, n: Negotiation) {
    && (forall i, j :: 0 <= i < j < |closed| ==> closed[i] < closed[j])
    && (forall i :: 0 <= i < |closed| ==> closed[i] < if n.done.Some? then n.done.value else n.channels)
    && (n.done.Some? ==> n.done.value < n.channels)
  }

  ghost predicate NothingLost(h: History) {
    && ClosedInOrder(ClosedIn(h.n.effects), h.n)
    && AddedIn(h.n.effects) + h.n.requests == h.asked
    && (!h.shut ==>
          && (h.unserved > 0 ==> h.n.queued)
          && (|h.n.requests| > 0 ==> h.n.queued || h.midCalls > 0)
          && (h.n.queued ==> h.n.done.Some?))
  }

  lemma {:induction false} EffectsAppend(es: seq<Effect>, e: Effect)
    ensures AddedIn(es + [e]) == AddedIn(es) + if e.Added? then [e.t] else []
    ensures ClosedIn(es + [e]) == ClosedIn(es) + if e.Closed? then [e.channel] else []
  {
    assert (es + [e])[..|es|] == es;
  }

  lemma {:induction false} EffectsOfAdds(es: seq<Effect>, ts: seq<TransceiverRequest>)
    ensures AddedIn(es + Adds(ts)) == AddedIn(es) + ts
    ensures ClosedIn(es + Adds(ts)) == ClosedIn(es)
  {
    hide AddedIn, ClosedIn;
    if |ts| == 0 {
      assert es + Adds(ts) == es;
    } else {
      var init, last := ts[..|ts| - 1], ts[|ts| - 1];
      EffectsOfAdds(es, init);
      ConcatAssoc(es, Adds(init), [Added(last)]);
      EffectsAppend(es + Adds(init), Added(last));
      ConcatAssoc(AddedIn(es), init, [last]);
    }
  }

  lemma {:induction false} RoundEffects(n: Negotiation)
    ensures AddedIn(StartRound(n).effects) == AddedIn(n.effects) + n.requests
    ensures ClosedIn(StartRound(n).effects) == ClosedIn(n.effects)
  {
    EffectsOfAdds(n.effects, n.requests);
    EffectsAppend(n.effects + Adds(n.requests), if n.initiator then Offered else Asked);
  }

  lemma {:induction false} RequestKeeps(h: History)
    requires NothingLost(h)
    ensures NothingLost(Request(h))
  {
    hide AddedIn, ClosedIn, Adds;
    RoundEffects(h.n.(done := Some(h.n.channels), channels := h.n.channels + 1));
  }

  lemma {:induction false} SectionKeeps(h: History, s: Section)
    requires NothingLost(h)
    ensures NothingLost(Next(h, s))
  {
    hide AddedIn, ClosedIn, Adds;
    match s
    case Call => RequestKeeps(h);
    case Queue(t) => ConcatAssoc(AddedIn(h.n.effects), h.n.requests, [t]);
    case FinishAdd =>
      if Enabled(h, s) {
        FinishKeeps(h);
      }
    case StableEvent =>
      RoundEffects(h.n.(queued := false));
      if h.n.done.Some? {
        EffectsAppend(h.n.effects, Closed(h.n.done.value));
      }
    case ClosedEvent =>
      if h.n.done.Some? {
        EffectsAppend(h.n.effects, Closed(h.n.done.value));
      }
  }

  /** The second section of AddTransceiverFromKind leaves its request either added or queued for. */
  lemma {:induction false} FinishKeeps(h: History)
    requires NothingLost(h) && h.midCalls > 0
    ensures NothingLost(Request(h.(midCalls := h.midCalls - 1)))
  {
    hide AddedIn, ClosedIn, Adds;
    RoundEffects(h.n.(done := Some(h.n.channels), channels := h.n.channels + 1));
  }

  /** In every interleaving, no wake-up, transceiver or channel is lost or handled twice. */
  lemma {:induction false} NoLostWakeUp(initiator: bool, sections: seq<Section>)
    ensures NothingLost(Run(initiator, sections))
  {
    if |sections| > 0 {
      NoLostWakeUp(initiator, sections[..|sections| - 1]);
      SectionKeeps(Run(initiator, sections[..|sections| - 1]), sections[|sections| - 1]);
    }
  }

  /** A stable event closes the done channel only when no completed request is left unserved. */
  lemma {:induction false} DoneMeansServed(initiator: bool, sections: seq<Section>)
    ensures var h := Run(initiator, sections);
            !h.shut && h.n.done.Some? && Next(h, StableEvent).n.done.None? ==>
              h.unserved == 0 && (|h.n.requests| > 0 ==> h.midCalls > 0)
  {
    NoLostWakeUp(initiator, sections);
  }

  function CountOf(es: seq<Effect>, e: Effect): nat {
    if |es| == 0 then 0 else CountOf(es[..|es| - 1], e) + if es[|es| - 1] == e then 1 else 0
  }

  lemma {:induction false} CountOfConcat(a: seq<Effect>, b: seq<Effect>, e: Effect)
    ensures CountOf(a + b, e) == CountOf(a, e) + CountOf(b, e)
  {
    if |b| == 0 {
      assert a + b == a;
    } else {
      CountOfConcat(a, b[..|b| - 1], e);
      assert (a + b)[..|a + b| - 1] == a + b[..|b| - 1];
    }
  }

  lemma {:induction false} CountOfNone(es: seq<Effect>, e: Effect)
    requires forall i :: 0 <= i < |es| ==> es[i] != e
    ensures CountOf(es, e) == 0
  {
    if |es| > 0 {
      CountOfNone(es[..|es| - 1], e);
    }
  }

  lemma {:induction false} RoundSplits(before: Negotiation, after: Negotiation)
    returns (adds: seq<Effect>, last: Effect)
    requires RoundStarts(before, after)
    ensures after.effects == before.effects + (adds + [last])
    ensures last == (if before.initiator then Offered else Asked)
    ensures forall i :: 0 <= i < |adds| ==> adds[i].Added?
  {
    var e, n := |before.effects|, |after.effects|;
    adds, last := after.effects[e..n - 1], after.effects[n - 1];
    forall i | 0 <= i < |adds| ensures adds[i].Added? {
      assert adds[i] == after.effects[e + i] == Added(before.requests[i]);
    }
  }

  lemma {:induction false} AppendedRoundCounts(es: seq<Effect>, adds: seq<Effect>, last: Effect, x: Effect)
    requires (x == Offered || x == Asked) && forall i :: 0 <= i < |adds| ==> adds[i].Added?
    ensures CountOf(es + (adds + [last]), x) == CountOf(es, x) + CountOf([last], x)
  {
    CountOfConcat(es, adds + [last], x);
    CountOfConcat(adds, [last], x);
    CountOfNone(adds, x);
  }

  /** One more offer of an initiator, one more request of the other peer. */
  lemma {:induction false} RoundCounts(before: Negotiation, after: Negotiation)
    requires RoundStarts(before, after)
    ensures CountOf(after.effects, Offered) == CountOf(before.effects, Offered) + if before.initiator then 1 else 0
    ensures CountOf(after.effects, Asked) == CountOf(before.effects, Asked) + if before.initiator then 0 else 1
  {
    hide CountOf, RoundStarts;
    var adds, last := RoundSplits(before, after);
    AppendedRoundCounts(before.effects, adds, last, Offered);
    AppendedRoundCounts(before.effects, adds, last, Asked);
    CountOfOne(last);
  }

  lemma {:induction false} CountOfOne(last: Effect)
    ensures CountOf([last], Offered) == if last == Offered then 1 else 0
    ensures CountOf([last], Asked) == if last == Asked then 1 else 0
  {
    assert [last][..0] == [];
  }

  lemma {:induction false} CloseCounts(before: Negotiation, after: Negotiation)
    requires ChannelCloses(before, after)
    ensures CountOf(after.effects, Offered) == CountOf(before.effects, Offered)
    ensures CountOf(after.effects, Asked) == CountOf(before.effects, Asked)
  {
    if before.done.Some? {
      var last := Closed(before.done.value);
      CountOfConcat(before.effects, [last], Offered);
      CountOfConcat(before.effects, [last], Asked);
      CountOfOne(last);
    } else {
      assert before.effects + [] == before.effects;
    }
  }

  /** The sections that start a round: requests while none is in flight, and a stable event with one queued. */
  predicate Starts(h: History, s: Section) {
    match s
    case Call => h.n.done.None?
    case FinishAdd => h.midCalls > 0 && h.n.done.None?
    case StableEvent => h.n.queued
    case _ => false
  }

  predicate Asks(h: History, s: Section) {
    s.Call? || (s.FinishAdd? && h.midCalls > 0)
  }

  /** Section by section: what becomes of the negotiator, and what is on record. */
  lemma {:induction false} HistoryExact(h: History, s: Section)
    ensures var g := Next(h, s);
            && (Asks(h, s) ==> RequestIsServed(h.n, g.n))
            && (s.StableEvent? ==> StableIsServed(h.n, g.n))
            && (s.ClosedEvent? ==> ChannelCloses(h.n, g.n))
            && (s.Queue? ==> g.n == h.n.(requests := h.n.requests + [s.t]))
            && (s.FinishAdd? && h.midCalls == 0 ==> g == h)
            && g.midCalls == h.midCalls + (if s.Queue? then 1 else if s.FinishAdd? && h.midCalls > 0 then -1 else 0)
            && g.unserved == (if Starts(h, s) then 0 else if Asks(h, s) then h.unserved + 1 else h.unserved)
            && g.asked == h.asked + (if s.Queue? then [s.t] else [])
            && g.shut == (h.shut || s.ClosedEvent?)
  {
    SectionsAreServed(h.n);
    hide NegotiateStep, OnStable, CloseDone, RequestIsServed, StableIsServed, ChannelCloses;
  }

  function RoundsStarted(initiator: bool, sections: seq<Section>): nat {
    if |sections| == 0 then 0
    else
      var init := sections[..|sections| - 1];
      RoundsStarted(initiator, init) + if Starts(Run(initiator, init), sections[|sections| - 1]) then 1 else 0
  }

  /** In every run an initiator makes one offer per round and never asks, and the other peer the reverse. */
  lemma {:induction false} OneOfferPerRound(initiator: bool, sections: seq<Section>)
    ensures Run(initiator, sections).n.initiator == initiator
    ensures CountOf(Run(initiator, sections).n.effects, Offered) ==
            if initiator then RoundsStarted(initiator, sections) else 0
    ensures CountOf(Run(initiator, sections).n.effects, Asked) ==
            if initiator then 0 else RoundsStarted(initiator, sections)
  {
    hide CountOf, NegotiateStep, OnStable, CloseDone;
    if |sections| == 0 {
      CountOfNone([], Offered);
      CountOfNone([], Asked);
    } else {
      var init, s := sections[..|sections| - 1], sections[|sections| - 1];
      OneOfferPerRound(initiator, init);
      var n, m := Run(initiator, init).n, Run(initiator, sections).n;
      SectionsAreServed(n);
      if Starts(Run(initiator, init), s) {
        RoundCounts(n, m);
      } else if m.effects != n.effects {
        CloseCounts(n, m);
      }
    }
  }

  /** A round is queued, and there is none in flight whose end would start it. */
  predicate Stranded(n: Negotiation) {
    n.queued && n.done.None?
  }

  predicate Resumes(h: History, s: Section) {
    s.Call? || s.StableEvent? || (s.FinishAdd? && Enabled(h, s))
  }

  /** Closing strands the flag exactly when it is set, and only a request or a stable event helps. */
  lemma {:induction false} SectionStrands(h: History, s: Section)
    ensures Stranded(Next(h, s).n) <==> if s.ClosedEvent? then h.n.queued else Stranded(h.n) && !Resumes(h, s)
  {
  }

  /** Section i closed the negotiator while a round was queued, and nothing asked for a round since. */
  predicate StrandedBy(initiator: bool, sections: seq<Section>, i: nat)
    requires i < |sections|
  {
    && sections[i].ClosedEvent? && Run(initiator, sections[..i]).n.queued
    && forall j :: i < j < |sections| ==> !Resumes(Run(initiator, sections[..j]), sections[j])
  }

  lemma {:induction false} StrandedByStep(initiator: bool, init: seq<Section>, last: Section, i: nat)
    requires i < |init|
    ensures StrandedBy(initiator, init + [last], i) <==>
            StrandedBy(initiator, init, i) && !Resumes(Run(initiator, init), last)
  {
    hide Run, Resumes;
    var sections := init + [last];
    assert sections[..|init|] == init;
    forall j: nat | j < |init| ensures sections[..j] == init[..j] && sections[j] == init[j] {
    }
    if StrandedBy(initiator, init, i) && !Resumes(Run(initiator, init), last) {
      forall j | i < j < |sections| ensures !Resumes(Run(initiator, sections[..j]), sections[j]) {
        if j < |init| {
          assert !Resumes(Run(initiator, init[..j]), init[j]);
        }
      }
    }
    if StrandedBy(initiator, sections, i) {
      assert !Resumes(Run(initiator, sections[..|init|]), sections[|init|]);
      forall j | i < j < |init| ensures !Resumes(Run(initiator, init[..j]), init[j]) {
        assert !Resumes(Run(initiator, sections[..j]), sections[j]);
      }
    }
  }

  /**
   In every run, the flag is set without a round in flight if and only if a closing met it set, and neither a
   request nor a stable event came after.
   */
  lemma {:induction false} StrandedExact(initiator: bool, sections: seq<Section>)
    ensures Stranded(Run(initiator, sections).n) <==>
            exists i :: 0 <= i < |sections| && StrandedBy(initiator, sections, i)
  {
    hide Next, StrandedBy;
    if |sections| == 0 {
      assert !Stranded(Run(initiator, sections).n) by { NotStrandedAtStart(initiator); }
    } else {
      var init, last := sections[..|sections| - 1], sections[|sections| - 1];
      assert sections == init + [last];
      assert Run(initiator, sections) == Next(Run(initiator, init), last);
      StrandedExact(initiator, init);
      SectionStrands(Run(initiator, init), last);
      forall i: nat | i < |init|
        ensures StrandedBy(initiator, sections, i) <==>
                StrandedBy(initiator, init, i) && !Resumes(Run(initiator, init), last)
      {
        StrandedByStep(initiator, init, last, i);
      }
      StrandedByLast(initiator, sections);
      hide Run;
      if last.ClosedEvent? && Run(initiator, init).n.queued {
        assert StrandedBy(initiator, sections, |init|);
      }
      if Stranded(Run(initiator, init).n) {
        var i :| 0 <= i < |init| && StrandedBy(initiator, init, i);
        assert StrandedBy(initiator, sections, i) <==> !Resumes(Run(initiator, init), last);
      }
    }
  }

  lemma {:induction false} NotStrandedAtStart(initiator: bool)
    ensures !Stranded(Run(initiator, []).n)
  {
  }

  lemma {:induction false} StrandedByLast(initiator: bool, sections: seq<Section>)
    requires |sections| > 0
    ensures StrandedBy(initiator, sections, |sections| - 1) <==>
            sections[|sections| - 1].ClosedEvent? && Run(initiator, sections[..|sections| - 1]).n.queued
  {
    hide Run;
  }

  /** After close the queued flag can outlive the round it was queued behind. */
  lemma {:induction false} CloseForgetsTheQueue(initiator: bool)
    ensures var h := Run(initiator, [Call, Call, ClosedEvent]);
            h.shut && h.n.queued && h.n.done.None?
  {
    var a, b, c := [Call], [Call, Call], [Call, Call, ClosedEvent];
    assert a[..0] == [] && b[..1] == a && c[..2] == b;
    assert Run(initiator, a) == Next(Run(initiator, []), Call);
    assert Run(initiator, b) == Next(Run(initiator, a), Call);
  }
}
