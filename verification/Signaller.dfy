/**
 Outgoing signals: every payload waits for one mutex, which a goroutine keeps until the payload is taken
 from the channel or the signaller is being closed. Each step is one lock or channel operation.
 */
module Signaller {
  import opened Wrappers

  datatype Payload = Description(id: nat) | Candidate(id: nat) | Request(id: nat)

  /** Who holds the mutex; a sender that found the signaller closed selects on a nil channel. */
  datatype Holder =
    | Nobody
    | Sender(payload: Payload, channelIsNil: bool)
    | Closer(channelClosed: bool)

  /** The body run by closeOnce. */
  datatype Once = NotStarted | Started | Finished

  datatype Fate = Pending | Sent | Dropped

  /** A payload in the order its sender got the mutex, and what became of it. */
  datatype Turn = Turn(payload: Payload, fate: Fate)

  datatype State = State(
    holder: Holder,
    closed: bool,
    closeChannelClosed: bool,
    once: Once,
    descriptionSent: bool,      // the channel of that name is closed
    signalChannelCloses: nat,
    connectionCloses: nat,      // calls of the peer connection's Close
    turns: seq<Turn>,
    emitted: seq<Payload>,
    panicked: bool)             // a send on, or close of, a closed channel

  datatype Step =
    | Post(payload: Payload)    // onSignal gets the mutex
    | Transmit                  // a reader takes the payload
    | GiveUp                    // the holder sees closeChannel closed
    | AnnounceDescription       // closeDescriptionSent after a description was posted
    | BeginClose                // close(closeChannel)
    | LockToClose
    | CloseSignalChannel
    | MarkClosed
    | ReleaseCandidates         // closeDescriptionSent after closeOnce

  const START: State := State(Nobody, false, false, NotStarted, false, 0, 0, [], [], false)

  predicate Posted(turns: seq<Turn>, n: nat)
    requires n <= |turns|
  {
    exists i :: 0 <= i < n && turns[i].payload.Description?
  }

  /** handleICECandidate waits for descriptionSent before it signals. */
  predicate Enabled(s: State, a: Step) {
    match a
    case Post(payload) => s.holder.Nobody? && (payload.Candidate? ==> s.descriptionSent)
    case Transmit => s.holder.Sender? && !s.holder.channelIsNil
    case GiveUp => s.holder.Sender? && s.closeChannelClosed
    case AnnounceDescription => Posted(s.turns, |s.turns|)
    case BeginClose => s.once.NotStarted?
    case LockToClose => s.once.Started? && s.holder.Nobody?
    case CloseSignalChannel => s.holder.Closer? && !s.holder.channelClosed
    case MarkClosed => s.holder.Closer? && s.holder.channelClosed
    case ReleaseCandidates => s.once.Finished?
  }

  function Settle(turns: seq<Turn>, fate: Fate): seq<Turn>
    requires |turns| > 0
  {
    turns[|turns| - 1 := turns[|turns| - 1].(fate := fate)]
  }

  function Next(s: State, a: Step): State {
    if !Enabled(s, a) then s
    else match a
      case Post(payload) => s.(holder := Sender(payload, s.closed), turns := s.turns + [Turn(payload, Pending)])
      case Transmit =>
        s.(holder := Nobody, emitted := s.emitted + [s.holder.payload],
           turns := if |s.turns| > 0 then Settle(s.turns, Sent) else [],
           panicked := s.panicked || s.signalChannelCloses > 0)
      case GiveUp => s.(holder := Nobody, turns := if |s.turns| > 0 then Settle(s.turns, Dropped) else [])
      case AnnounceDescription => s.(descriptionSent := true)
      case BeginClose => s.(closeChannelClosed := true, once := Started)
      case LockToClose => s.(holder := Closer(false))
      case CloseSignalChannel =>
        s.(holder := Closer(true), signalChannelCloses := s.signalChannelCloses + 1,
           panicked := s.panicked || s.signalChannelCloses > 0)
      case MarkClosed =>
        s.(holder := Nobody, closed := true, once := Finished, connectionCloses := s.connectionCloses + 1)
      case ReleaseCandidates => s.(descriptionSent := true)
  }

  /** Any interleaving from the start; a step that is not enabled does not happen. */
  function Run(steps: seq<Step>): State {
    if |steps| == 0 then START else Next(Run(steps[..|steps| - 1]), steps[|steps| - 1])
  }

  // ---------------------------------------------------------------- the object

  /**
   The fields of the signaller. A method is what one goroutine does between two points at which it may have to
   wait; its requires is what it waits for.
   */
  class Signaller {
    var holder: Holder
    var closed: bool
    var closeChannelClosed: bool
    var once: Once
    var descriptionSent: bool
    var signalChannelCloses: nat
    var connectionCloses: nat
    var emitted: seq<Payload>
    var panicked: bool
    ghost var turns: seq<Turn>

    ghost function View(): State
      reads this
    {
      State(holder, closed, closeChannelClosed, once, descriptionSent, signalChannelCloses, connectionCloses, turns,
            emitted, panicked)
    }

    constructor ()
      ensures View() == START
    {
      holder, closed, closeChannelClosed, once, descriptionSent := Nobody, false, false, NotStarted, false;
      signalChannelCloses, connectionCloses, emitted, panicked, turns := 0, 0, [], false, [];
    }

    /** Takes the mutex; a nil channel stands in for that of a closed signaller. */
    method OnSignal(payload: Payload)
      requires holder.Nobody? && (payload.Candidate? ==> descriptionSent)
      modifies this
      ensures View() == old(View()).(holder := Sender(payload, old(closed)),
                                     turns := old(turns) + [Turn(payload, Pending)])
      ensures View() == Next(old(View()), Post(payload))
    {
      var channelIsNil := false;
      if closed {
        channelIsNil := true;
      }
      holder := Sender(payload, channelIsNil);
      turns := turns + [Turn(payload, Pending)];
    }

    /** One of the two branches of select; the mutex is unlocked either way. */
    method Select(send: bool)
      requires holder.Sender? && if send then !holder.channelIsNil else closeChannelClosed
      modifies this
      ensures holder.Nobody? && emitted == old(emitted) + if send then [old(holder).payload] else []
      ensures panicked == (old(panicked) || (send && signalChannelCloses > 0))
      ensures |turns| == |old(turns)| && forall i :: 0 <= i < |turns| - 1 ==> turns[i] == old(turns)[i]
      ensures |turns| > 0 ==>
                turns[|turns| - 1] == Turn(old(turns)[|turns| - 1].payload, if send then Sent else Dropped)
      ensures View() == old(View()).(holder := Nobody, emitted := emitted, panicked := panicked, turns := turns)
      ensures View() == Next(old(View()), if send then Transmit else GiveUp)
    {
      if send {
        Send(holder.payload);
      }
      holder := Nobody;
      turns := if |turns| > 0 then Settle(turns, if send then Sent else Dropped) else [];
    }

    method Send(payload: Payload)
      modifies this`emitted, this`panicked
      ensures emitted == old(emitted) + [payload]
      ensures panicked == (old(panicked) || signalChannelCloses > 0)
    {
      if signalChannelCloses > 0 {
        panicked := true;
      }
      emitted := emitted + [payload];
    }

    method StartClose()
      requires once.NotStarted?
      modifies this
      ensures View() == old(View()).(once := Started, closeChannelClosed := true)
      ensures View() == Next(old(View()), BeginClose)
    {
      once := Started;
      closeChannelClosed := true;
    }

    method TakeMutexToClose()
      requires once.Started? && holder.Nobody?
      modifies this
      ensures View() == old(View()).(holder := Closer(false))
      ensures View() == Next(old(View()), LockToClose)
    {
      holder := Closer(false);
    }

    /** Closes the signal channel, marks the signaller closed, closes the peer connection and unlocks the mutex. */
    method FinishClose()
      requires holder == Closer(false)
      modifies this
      ensures View() == old(View()).(holder := Nobody, closed := true, once := Finished,
                                     signalChannelCloses := old(signalChannelCloses) + 1,
                                     connectionCloses := old(connectionCloses) + 1,
                                     panicked := old(panicked || signalChannelCloses > 0))
      ensures View() == Next(Next(old(View()), CloseSignalChannel), MarkClosed)
    {
      if signalChannelCloses > 0 {
        panicked := true;
      }
      signalChannelCloses := signalChannelCloses + 1;
      closed := true;
      connectionCloses := connectionCloses + 1;
      holder := Nobody;
      once := Finished;
    }

    /** After a description was posted, and at the end of Close. */
    method CloseDescriptionSent(closing: bool)
      requires if closing then once.Finished? else exists i :: 0 <= i < |turns| && turns[i].payload.Description?
      modifies this
      ensures View() == old(View()).(descriptionSent := true)
      ensures View() == Next(old(View()), if closing then ReleaseCandidates else AnnounceDescription)
    {
      descriptionSent := true;
    }
  }

  // ---------------------------------------------------------------- what every step keeps

  function SentOf(turns: seq<Turn>, n: nat): seq<Payload>
    requires n <= |turns|
  {
    if n == 0 then []
    else SentOf(turns, n - 1) + (if turns[n - 1].fate.Sent? then [turns[n - 1].payload] else [])
  }

  ghost predicate Inv(s: State) {
    && !s.panicked
    && (s.closed <==> s.once.Finished?)
    && (s.closeChannelClosed <==> !s.once.NotStarted?)
    && (s.holder.Closer? ==> s.once.Started?)
    && s.signalChannelCloses == (if s.closed || s.holder == Closer(true) then 1 else 0)
    && s.connectionCloses == (if s.closed then 1 else 0)
    && (s.holder.Sender? ==> s.holder.channelIsNil == s.closed)
    && TurnsFit(s)
    && CandidatesWait(s)
  }

  /** Only the payload of the current holder is pending, and what was emitted is what was sent, in turn. */
  ghost predicate TurnsFit(s: State) {
    && (s.holder.Sender? ==> |s.turns| > 0 && s.turns[|s.turns| - 1] == Turn(s.holder.payload, Pending))
    && (forall i :: 0 <= i < |s.turns| && s.turns[i].fate.Pending? ==> s.holder.Sender? && i == |s.turns| - 1)
    && (forall i :: 0 <= i < |s.turns| && s.turns[i].fate.Dropped? ==> s.closeChannelClosed)
    && s.emitted == SentOf(s.turns, |s.turns|)
  }

  /** Before the signaller is closed, a candidate has its turn only after a description had one. */
  ghost predicate CandidatesWait(s: State) {
    && (s.descriptionSent && !s.closed ==> Posted(s.turns, |s.turns|))
    && (forall i :: 0 <= i < |s.turns| && s.turns[i].payload.Candidate? && s.turns[i].fate.Sent? ==> Posted(s.turns, i))
    && (forall i :: 0 <= i < |s.turns| && s.turns[i].payload.Candidate? && s.turns[i].fate.Pending? && !s.closed ==>
          Posted(s.turns, i))
  }

  lemma {:induction false} SentOfDepends(a: seq<Turn>, b: seq<Turn>, n: nat)
    requires n <= |a| && n <= |b|
    requires forall i :: 0 <= i < n ==> a[i] == b[i] || (!a[i].fate.Sent? && !b[i].fate.Sent?)
    ensures SentOf(a, n) == SentOf(b, n)
  {
    if n > 0 {
      SentOfDepends(a, b, n - 1);
    }
  }

  lemma {:induction false} PostedGrows(a: seq<Turn>, b: seq<Turn>, m: nat, n: nat)
    requires m <= n && m <= |a| && n <= |b|
    requires forall i :: 0 <= i < m ==> a[i].payload == b[i].payload
    requires Posted(a, m)
    ensures Posted(b, n)
  {
    var i :| 0 <= i < m && a[i].payload.Description?;
    assert b[i].payload.Description?;
  }

  lemma {:induction false} PostKeeps(s: State, payload: Payload)
    requires Inv(s) && Enabled(s, Post(payload))
    ensures Inv(Next(s, Post(payload)))
  {
    hide SentOf, Posted;
    var t := Next(s, Post(payload));
    SentOfDepends(s.turns, t.turns, |s.turns|);
    assert SentOf(t.turns, |t.turns|) == SentOf(t.turns, |s.turns|) by { SentOfLast(t.turns); }
    CandidatesStill(s, t);
  }

  lemma {:induction false} SentOfLast(turns: seq<Turn>)
    requires |turns| > 0
    ensures SentOf(turns, |turns|) ==
            SentOf(turns, |turns| - 1) + (if turns[|turns| - 1].fate.Sent? then [turns[|turns| - 1].payload] else [])
  {
  }

  /** Turns only get appended to or settled, so what was posted before a turn stays posted before it. */
  lemma {:induction false} CandidatesStill(s: State, t: State)
    requires |s.turns| <= |t.turns|
    requires forall i :: 0 <= i < |s.turns| ==> s.turns[i].payload == t.turns[i].payload
    ensures Posted(s.turns, |s.turns|) ==> Posted(t.turns, |t.turns|)
    ensures forall i :: 0 <= i <= |s.turns| && Posted(s.turns, i) ==> Posted(t.turns, i)
  {
    forall i | 0 <= i <= |s.turns| && Posted(s.turns, i) ensures Posted(t.turns, i) && Posted(t.turns, |t.turns|) {
      PostedGrows(s.turns, t.turns, i, i);
      PostedGrows(s.turns, t.turns, i, |t.turns|);
    }
  }

  lemma {:induction false} SettleKeeps(s: State, a: Step)
    requires Inv(s) && Enabled(s, a) && (a.Transmit? || a.GiveUp?)
    ensures Inv(Next(s, a))
  {
    hide SentOf, Posted;
    var t := Next(s, a);
    SentOfDepends(s.turns, t.turns, |s.turns| - 1);
    SentOfLast(s.turns);
    SentOfLast(t.turns);
    CandidatesStill(s, t);
  }

  lemma {:induction false} StepKeeps(s: State, a: Step)
    requires Inv(s)
    ensures Inv(Next(s, a))
  {
    hide SentOf, Posted;
    if Enabled(s, a) {
      match a
      case Post(payload) => PostKeeps(s, payload);
      case Transmit => SettleKeeps(s, a);
      case GiveUp => SettleKeeps(s, a);
      case _ =>
    }
  }

  lemma {:induction false} RunKeeps(steps: seq<Step>)
    ensures Inv(Run(steps))
  {
    if |steps| > 0 {
      RunKeeps(steps[..|steps| - 1]);
      StepKeeps(Run(steps[..|steps| - 1]), steps[|steps| - 1]);
    }
  }

  // ---------------------------------------------------------------- what the signaller promises

  /** The payloads whose senders got the mutex, in that order. */
  function Signalled(steps: seq<Step>): seq<Payload> {
    if |steps| == 0 then []
    else
      var init, last := steps[..|steps| - 1], steps[|steps| - 1];
      Signalled(init) +
        if Admits(Run(init), last) then [last.payload] else []
  }

  predicate Admits(s: State, a: Step) {
    a.Post? && s.holder.Nobody? && (a.payload.Candidate? ==> s.descriptionSent)
  }

  lemma {:induction false} NextTurns(s: State, a: Step)
    ensures var t := Next(s, a);
            && |t.turns| == |s.turns| + (if Admits(s, a) then 1 else 0)
            && (forall i :: 0 <= i < |s.turns| ==> t.turns[i].payload == s.turns[i].payload)
            && (Admits(s, a) ==> t.turns[|s.turns|].payload == a.payload)
  {
    hide Posted;
  }

  /** Every payload of any kind has its turn, once and in order. */
  lemma {:induction false} EveryPayloadHasItsTurn(steps: seq<Step>)
    ensures |Run(steps).turns| == |Signalled(steps)|
    ensures forall i :: 0 <= i < |Signalled(steps)| ==> Run(steps).turns[i].payload == Signalled(steps)[i]
  {
    hide Next;
    if |steps| > 0 {
      EveryPayloadHasItsTurn(steps[..|steps| - 1]);
      NextTurns(Run(steps[..|steps| - 1]), steps[|steps| - 1]);
    }
  }

  /** The signal channel is closed at most once, nothing is sent on it afterwards, and the connection closes last. */
  lemma {:induction false} ClosedOnceAndForAll(steps: seq<Step>, a: Step)
    ensures var s := Run(steps);
            && s.connectionCloses <= s.signalChannelCloses <= 1 && !s.panicked
            && (s.signalChannelCloses == 1 ==> Next(s, a).emitted == s.emitted)
  {
    RunKeeps(steps);
  }

  /** Payloads leave in the order their senders got the mutex, and none is lost while the signaller is open. */
  lemma {:induction false} PayloadsLeaveInTurn(steps: seq<Step>)
    ensures var s := Run(steps);
            && s.emitted == SentOf(s.turns, |s.turns|)
            && (!s.closeChannelClosed ==>
                  forall i :: 0 <= i < |s.turns| - ToNat(s.holder.Sender?) ==> s.turns[i].fate.Sent?)
  {
    RunKeeps(steps);
  }

  lemma {:induction false} SentOfAll(turns: seq<Turn>, n: nat)
    requires n <= |turns| && forall i :: 0 <= i < n ==> turns[i].fate.Sent?
    ensures |SentOf(turns, n)| == n && forall i :: 0 <= i < n ==> SentOf(turns, n)[i] == turns[i].payload
  {
    if n > 0 {
      SentOfAll(turns, n - 1);
    }
  }

  /** While closeChannel is open, every emitted candidate is preceded by an emitted description. */
  lemma {:induction false} DescriptionComesFirst(steps: seq<Step>, k: nat)
    requires !Run(steps).closeChannelClosed
    requires k < |Run(steps).emitted| && Run(steps).emitted[k].Candidate?
    ensures exists j :: 0 <= j < k && Run(steps).emitted[j].Description?
  {
    RunKeeps(steps);
    var s := Run(steps);
    var n := |s.turns| - ToNat(s.holder.Sender?);
    SentOfAll(s.turns, n);
    if s.holder.Sender? {
      SentOfLast(s.turns);
    }
    assert s.emitted == SentOf(s.turns, n);
    assert s.turns[k].payload.Candidate? && Posted(s.turns, k);
    var j :| 0 <= j < k && s.turns[j].payload.Description?;
    assert s.emitted[j].Description?;
  }

  /** A sent candidate always had its turn after a description, even if that one was dropped. */
  lemma {:induction false} DescriptionHadItsTurn(steps: seq<Step>, i: nat)
    requires i < |Run(steps).turns|
    requires Run(steps).turns[i].payload.Candidate? && Run(steps).turns[i].fate.Sent?
    ensures exists j :: 0 <= j < i && Run(steps).turns[j].payload.Description?
  {
    RunKeeps(steps);
  }

  /**
   The order on the wire can break during close: select may drop the description and still hand the next
   candidate to a reader.
   */
  lemma {:induction false} CandidateWithoutDescription()
    ensures var s := Run([Post(Description(0)), AnnounceDescription, BeginClose, GiveUp, Post(Candidate(1)), Transmit]);
            s.emitted == [Candidate(1)]
  {
    var all := [Post(Description(0)), AnnounceDescription, BeginClose, GiveUp, Post(Candidate(1)), Transmit];
    var s1 := Next(START, all[0]);
    assert s1.turns == [Turn(Description(0), Pending)] && Posted(s1.turns, 1) by {
      assert s1.turns[0].payload.Description?;
    }
    var s5 := Next(Next(Next(Next(s1, all[1]), all[2]), all[3]), all[4]);
    assert s5.holder == Sender(Candidate(1), false) && s5.emitted == [];
    RunOfSix(all);
  }

  lemma {:induction false} RunOfSix(all: seq<Step>)
    requires |all| == 6
    ensures Run(all) == Next(Next(Next(Next(Next(Next(START, all[0]), all[1]), all[2]), all[3]), all[4]), all[5])
  {
    hide Next;
    assert all[..5][..4] == all[..4] && all[..4][..3] == all[..3] && all[..3][..2] == all[..2];
    assert all[..2][..1] == all[..1] && all[..1][..0] == [];
    assert Run(all[..1]) == Next(START, all[0]);
    assert Run(all[..2]) == Next(Run(all[..1]), all[1]);
    assert Run(all[..3]) == Next(Run(all[..2]), all[2]);
    assert Run(all[..4]) == Next(Run(all[..3]), all[3]);
    assert Run(all[..5]) == Next(Run(all[..4]), all[4]);
  }

  /** Every candidate comes after some description. */
  ghost predicate DescribedFirst(emitted: seq<Payload>) {
    forall k :: 0 <= k < |emitted| && emitted[k].Candidate? ==> exists j :: 0 <= j < k && emitted[j].Description?
  }

  ghost predicate Described(emitted: seq<Payload>) {
    exists j :: 0 <= j < |emitted| && emitted[j].Description?
  }

  lemma {:induction false} RunAppend(steps: seq<Step>, a: Step)
    ensures Run(steps + [a]) == Next(Run(steps), a)
  {
    assert (steps + [a])[..|steps|] == steps;
  }

  lemma {:induction false} EmittedGrows(steps: seq<Step>, more: seq<Step>)
    ensures |Run(steps).emitted| <= |Run(steps + more).emitted|
    ensures Run(steps + more).emitted[..|Run(steps).emitted|] == Run(steps).emitted
  {
    hide Run;
    if |more| == 0 {
      assert steps + more == steps;
    } else {
      var init, last := more[..|more| - 1], more[|more| - 1];
      EmittedGrows(steps, init);
      assert steps + more == (steps + init) + [last];
      RunAppend(steps + init, last);
      NextEmits(Run(steps + init), last);
    }
  }

  lemma {:induction false} NextEmits(s: State, a: Step)
    ensures Next(s, a).emitted == s.emitted
            || (s.holder.Sender? && Next(s, a).emitted == s.emitted + [s.holder.payload])
  {
  }

  lemma {:induction false} DescribedStaysFirst(steps: seq<Step>, more: seq<Step>)
    requires !Run(steps).closeChannelClosed && Described(Run(steps).emitted)
    ensures DescribedFirst(Run(steps + more).emitted)
  {
    hide Run;
    EmittedGrows(steps, more);
    var before, after := Run(steps).emitted, Run(steps + more).emitted;
    forall k | 0 <= k < |after| && after[k].Candidate? ensures exists j :: 0 <= j < k && after[j].Description? {
      var j: nat;
      if k < |before| {
        assert before[k] == after[k];
        DescriptionComesFirst(steps, k);
        j :| 0 <= j < k && before[j].Description?;
      } else {
        j :| 0 <= j < |before| && before[j].Description?;
      }
      assert after[j] == before[j];
    }
  }

  /** Closing drops the next description, and a reader still takes the candidate behind it. */
  function Overtaking(): seq<Step> {
    [BeginClose, GiveUp, Post(Description(0)), GiveUp, AnnounceDescription, Post(Candidate(0)), Transmit]
  }

  lemma {:induction false} RunOvertaking(steps: seq<Step>)
    requires !Run(steps).closeChannelClosed
    ensures Run(steps + Overtaking()).emitted == Run(steps).emitted + [Candidate(0)]
  {
    RunKeeps(steps);
    hide Run, SentOf, Posted;
    var all, s := Overtaking(), Run(steps);
    var s3 := Next(Next(Next(s, all[0]), all[1]), all[2]);
    RunOfSeven(steps, all);
    LastIsPosted(s3.turns);
    var s4 := Next(s3, all[3]);
    assert s4.holder.Nobody? && s4.emitted == s.emitted;
    LastIsPosted(s4.turns);
    var s5 := Next(s4, all[4]);
    assert s5.descriptionSent;
    assert Next(s5, all[5]).holder == Sender(Candidate(0), false);
  }

  lemma {:induction false} LastIsPosted(turns: seq<Turn>)
    requires |turns| > 0 && turns[|turns| - 1].payload.Description?
    ensures Posted(turns, |turns|)
  {
  }

  lemma {:induction false} RunOfSeven(steps: seq<Step>, all: seq<Step>)
    requires |all| == 7
    ensures Run(steps + all) ==
            Next(Next(Next(Next(Next(Next(Next(Run(steps), all[0]), all[1]), all[2]), all[3]), all[4]), all[5]), all[6])
  {
    hide Next, Run;
    var a := steps;
    RunAppend(a, all[0]);
    RunAppend(a + [all[0]], all[1]);
    RunAppend(a + [all[0]] + [all[1]], all[2]);
    RunAppend(a + [all[0]] + [all[1]] + [all[2]], all[3]);
    RunAppend(a + [all[0]] + [all[1]] + [all[2]] + [all[3]], all[4]);
    RunAppend(a + [all[0]] + [all[1]] + [all[2]] + [all[3]] + [all[4]], all[5]);
    RunAppend(a + [all[0]] + [all[1]] + [all[2]] + [all[3]] + [all[4]] + [all[5]], all[6]);
    assert steps + all == a + [all[0]] + [all[1]] + [all[2]] + [all[3]] + [all[4]] + [all[5]] + [all[6]];
  }

  /**
   A signaller that is not closing will send descriptions before candidates, whatever happens and even while it
   closes, if and only if a reader has already taken a description.
   */
  lemma {:induction false} DescribedFirstExact(steps: seq<Step>)
    requires !Run(steps).closeChannelClosed
    ensures (forall more :: DescribedFirst(Run(steps + more).emitted)) <==> Described(Run(steps).emitted)
  {
    hide Run, DescribedFirst, Described;
    if Described(Run(steps).emitted) {
      forall more ensures DescribedFirst(Run(steps + more).emitted) {
        DescribedStaysFirst(steps, more);
      }
    } else {
      RunOvertaking(steps);
      NotDescribed(Run(steps).emitted);
    }
  }

  lemma {:induction false} NotDescribed(emitted: seq<Payload>)
    requires !Described(emitted)
    ensures !DescribedFirst(emitted + [Candidate(0)])
  {
    var all := emitted + [Candidate(0)];
    assert all[|emitted|].Candidate?;
    assert forall j :: 0 <= j < |emitted| ==> all[j] == emitted[j];
  }

  /**
   Once closing has begun, and even after it is finished, whoever holds the mutex can go on without a reader; and
   while it is not finished, Close gets a free mutex.
   */
  lemma {:induction false} CloseIsNotBlocked(steps: seq<Step>)
    requires Run(steps).closeChannelClosed
    ensures var s := Run(steps);
            match s.holder
            case Nobody => s.once.Finished? || Enabled(s, LockToClose)
            case Sender(_, _) => Enabled(s, GiveUp) && Next(s, GiveUp).holder.Nobody?
            case Closer(false) => Enabled(s, CloseSignalChannel) && Next(s, CloseSignalChannel).holder == Closer(true)
            case Closer(true) => Enabled(s, MarkClosed) && Next(s, MarkClosed).once.Finished?
  {
    RunKeeps(steps);
  }
}
