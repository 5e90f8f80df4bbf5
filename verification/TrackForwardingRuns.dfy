/**
 Every interleaving of joins, leaves and track events of one room. A join holds the manager's lock from its
 start to its end; track events are handled before it takes the room's lock, and not again until it is done.
 */
module TrackForwardingRuns {
  import opened TrackForwarding
  import opened Wrappers

  /** Each track comes from one client and keeps its description. */
  datatype Env = Env(client: SSRC -> ClientID, info: SSRC -> TrackInfo)

  ghost predicate Labelled(env: Env) {
    forall k :: env.info(k).ssrc == k
  }

  datatype TrackEventType = Added | Removed

  /** Nobody; one whose events are read but who is not in the room; one who is being given the tracks of the others. */
  datatype Joining =
    | Nobody
    | Announced(clientID: ClientID)
    | Copying(clientID: ClientID, todo: set<ClientID>, own: Tracks)

  datatype State = State(
    joining: Joining,
    left: set<ClientID>,
    local: map<ClientID, Tracks>,
    remote: map<ClientID, Tracks>,
    events: map<SSRC, seq<TrackEventType>>,
    clientIDBySSRC: map<SSRC, ClientID>)

  const EMPTY: State := State(Nobody, {}, map[], map[], map[], map[])

  function Receives(s: State, c: ClientID): Tracks {
    if c in s.remote then s.remote[c] else map[]
  }

  datatype Action =
    | Announce(clientID: ClientID)
    | TakeLock
    | CopyFrom(clientID: ClientID)
    | Insert
    | Leave(clientID: ClientID)
    | TrackStarts(ssrc: SSRC)
    | TrackEnds(ssrc: SSRC)
    | EventHandled(ssrc: SSRC)

  /** The goroutine that reads the track events of the client runs. */
  predicate Read(s: State, c: ClientID) {
    c in s.local || c in s.left || s.joining == Announced(c)
  }

  predicate Possible(s: State, env: Env, a: Action) {
    match a
    case Announce(c) => s.joining.Nobody? && c !in s.local && c !in s.left
    case TakeLock => s.joining.Announced?
    case CopyFrom(c) => s.joining.Copying? && c in s.joining.todo
    case Insert => s.joining.Copying? && s.joining.todo == {}
    case Leave(c) => s.joining.Nobody? && c in s.local
    case TrackStarts(k) => k !in s.events
    case TrackEnds(k) => k in Receives(s, env.client(k))
    case EventHandled(k) =>
      k in s.events && |s.events[k]| > 0 && !s.joining.Copying? && Read(s, env.client(k))
  }

  function Step(s: State, env: Env, a: Action): State
    requires Possible(s, env, a)
  {
    match a
    case Announce(c) => s.(joining := Announced(c))
    case TakeLock => s.(joining := Copying(s.joining.clientID, s.local.Keys, map[]))
    case CopyFrom(c) =>
      s.(joining := s.joining.(todo := s.joining.todo - {c}, own := s.joining.own + Receives(s, c)))
    case Insert => s.(joining := Nobody, local := s.local[s.joining.clientID := s.joining.own])
    case Leave(c) => s.(left := s.left + {c}, local := s.local - {c})
    case TrackStarts(k) =>
      var c := env.client(k);
      s.(remote := s.remote[c := Receives(s, c)[k := env.info(k)]], events := s.events[k := [Added]])
    case TrackEnds(k) =>
      var c := env.client(k);
      s.(remote := s.remote[c := Receives(s, c) - {k}],
         events := s.events[k := (if k in s.events then s.events[k] else []) + [Removed]])
    case EventHandled(k) =>
      var c, rest := env.client(k), s.(events := s.events[k := s.events[k][1..]]);
      match s.events[k][0]
      case Added =>
        rest.(clientIDBySSRC := s.clientIDBySSRC[k := c], local := Gain(s.local, {c}, env.info(k)))
      case Removed =>
        rest.(clientIDBySSRC := s.clientIDBySSRC - {k}, local := Lose(s.local, {c}, k))
  }

  // ---------------------------------------------------------------- the life of one track

  /** How far a track is: which of its two events are still to be handled, and whether it still runs. */
  datatype Phase = Unborn | Starting | Running | Flash | Ending | Over

  function PhaseOf(s: State, env: Env, k: SSRC): Phase {
    if k !in s.events then Unborn
    else if k in Receives(s, env.client(k)) then if s.events[k] == [] then Running else Starting
    else if s.events[k] == [] then Over else if s.events[k] == [Removed] then Ending else Flash
  }

  predicate Regular(s: State, env: Env, k: SSRC) {
    match PhaseOf(s, env, k)
    case Unborn => k !in Receives(s, env.client(k))
    case Starting => s.events[k] == [Added]
    case Flash => s.events[k] == [Added, Removed]
    case _ => true
  }

  predicate Handled(p: Phase) {
    p.Running? || p.Ending?
  }

  /** A track can be sent to someone only from its start to the handling of its end. */
  predicate Alive(p: Phase) {
    !p.Unborn? && !p.Over?
  }

  /** The tracks m is given make sense, and cover all running tracks of the clients of from. */
  ghost predicate Served(s: State, env: Env, m: ClientID, tracks: Tracks, from: set<ClientID>) {
    && (forall k :: k in tracks ==>
          env.client(k) != m && tracks[k] == env.info(k) && Alive(PhaseOf(s, env, k)))
    && (forall k :: env.client(k) in from && env.client(k) != m && PhaseOf(s, env, k).Running? ==> k in tracks)
  }

  function Present(s: State): set<ClientID> {
    s.local.Keys + if s.joining.Nobody? then {} else {s.joining.clientID}
  }

  ghost predicate JoinInv(s: State, env: Env) {
    && s.left !! Present(s)
    && (!s.joining.Nobody? ==> s.joining.clientID !in s.local)
    && (s.joining.Copying? ==>
          && s.joining.todo <= s.local.Keys
          && Served(s, env, s.joining.clientID, s.joining.own, s.local.Keys - s.joining.todo))
  }

  ghost predicate TracksInv(s: State, env: Env) {
    && (forall k :: Regular(s, env, k))
    && (forall c, k :: k in Receives(s, c) ==> c == env.client(k) && Receives(s, c)[k] == env.info(k))
    && (forall k :: k in s.clientIDBySSRC <==> Handled(PhaseOf(s, env, k)))
    && (forall k :: k in s.clientIDBySSRC ==>
          s.clientIDBySSRC[k] == env.client(k) && (env.client(k) in s.left || env.client(k) in Present(s)))
  }

  ghost predicate Inv(s: State, env: Env) {
    && JoinInv(s, env) && TracksInv(s, env)
    && forall m :: m in s.local ==> Served(s, env, m, s.local[m], Present(s))
  }

  // ---------------------------------------------------------------- what each step does to the phases

  /** Only the phase of k may differ. */
  ghost predicate OnlyPhase(s: State, r: State, env: Env, k: SSRC) {
    forall j :: j != k ==> PhaseOf(r, env, j) == PhaseOf(s, env, j) && (Regular(s, env, j) ==> Regular(r, env, j))
  }

  lemma {:induction false} StartPhase(s: State, env: Env, k: SSRC)
    requires Possible(s, env, TrackStarts(k)) && Regular(s, env, k)
    ensures var r := Step(s, env, TrackStarts(k));
            && PhaseOf(s, env, k).Unborn? && PhaseOf(r, env, k).Starting? && Regular(r, env, k)
            && OnlyPhase(s, r, env, k)
  {
  }

  lemma {:induction false} EndPhase(s: State, env: Env, k: SSRC)
    requires Possible(s, env, TrackEnds(k)) && Regular(s, env, k)
    ensures var p, r := PhaseOf(s, env, k), Step(s, env, TrackEnds(k));
            && (p.Running? || p.Starting?) && PhaseOf(r, env, k) == (if p.Running? then Ending else Flash)
            && Regular(r, env, k) && OnlyPhase(s, r, env, k)
  {
  }

  lemma {:induction false} HandledPhase(s: State, env: Env, k: SSRC)
    requires Possible(s, env, EventHandled(k)) && Regular(s, env, k)
    ensures var p, r := PhaseOf(s, env, k), Step(s, env, EventHandled(k));
            && s.events[k][0] == (if p.Ending? then Removed else Added)
            && PhaseOf(r, env, k) == (match p case Starting => Running case Flash => Ending case _ => Over)
            && (p.Starting? || p.Flash? || p.Ending?)
            && Regular(r, env, k) && OnlyPhase(s, r, env, k)
  {
  }

  // ---------------------------------------------------------------- what each step keeps

  lemma {:induction false} ServedFewer(s: State, r: State, env: Env, m: ClientID, tracks: Tracks,
                                       from: set<ClientID>, fewer: set<ClientID>)
    requires Served(s, env, m, tracks, from)
    requires forall k :: PhaseOf(r, env, k).Running? && env.client(k) in fewer ==> env.client(k) in from
    requires forall k :: PhaseOf(r, env, k).Running? ==> PhaseOf(s, env, k).Running?
    requires forall k :: Alive(PhaseOf(s, env, k)) ==> Alive(PhaseOf(r, env, k))
    ensures Served(r, env, m, tracks, fewer)
  {
    hide PhaseOf;
  }

  lemma {:induction false} ServedOneMore(s: State, r: State, env: Env, m: ClientID, tracks: Tracks,
                                         from: set<ClientID>, k: SSRC)
    requires Labelled(env) && Served(s, env, m, tracks, from) && OnlyPhase(s, r, env, k) && Alive(PhaseOf(r, env, k))
    ensures Served(r, env, m, if m == env.client(k) then tracks else Put(tracks, env.info(k)), from)
  {
    hide PhaseOf;
  }

  lemma {:induction false} ServedOneLess(s: State, r: State, env: Env, m: ClientID, tracks: Tracks,
                                         from: set<ClientID>, k: SSRC)
    requires Served(s, env, m, tracks, from) && OnlyPhase(s, r, env, k) && PhaseOf(r, env, k).Over?
    ensures Served(r, env, m, if m == env.client(k) then tracks else tracks - {k}, from)
  {
    hide PhaseOf;
  }

  lemma {:induction false} SamePhases(s: State, r: State, env: Env)
    requires s.events == r.events && s.remote == r.remote
    ensures forall k :: PhaseOf(r, env, k) == PhaseOf(s, env, k)
  {
  }

  /** Where clients are does not matter to the tracks, as long as nobody disappears. */
  lemma {:induction false} SameTracks(s: State, r: State, env: Env)
    requires TracksInv(s, env)
    requires s.events == r.events && s.remote == r.remote && s.clientIDBySSRC == r.clientIDBySSRC
    requires s.left + Present(s) <= r.left + Present(r)
    ensures TracksInv(r, env)
  {
    hide Present;
    forall k ensures Regular(r, env, k) {
      assert Regular(s, env, k);
    }
    hide Regular;
    SamePhases(s, r, env);
    hide PhaseOf;
    forall k | k in r.clientIDBySSRC ensures env.client(k) in r.left || env.client(k) in Present(r) {
      assert env.client(k) in s.left + Present(s);
    }
    hide Handled;
    assert forall c :: Receives(r, c) == Receives(s, c);
  }

  lemma {:induction false} RunningIsKnown(s: State, env: Env)
    requires TracksInv(s, env)
    ensures forall k :: PhaseOf(s, env, k).Running? ==> env.client(k) in s.left || env.client(k) in Present(s)
  {
    hide PhaseOf, Regular;
  }

  lemma {:induction false} ReceivedIsAlive(s: State, env: Env)
    requires TracksInv(s, env)
    ensures forall c, k :: k in Receives(s, c) ==>
              c == env.client(k) && Receives(s, c)[k] == env.info(k) && Alive(PhaseOf(s, env, k))
    ensures forall k :: PhaseOf(s, env, k).Running? ==> k in Receives(s, env.client(k))
  {
    forall c, k | k in Receives(s, c)
      ensures c == env.client(k) && Receives(s, c)[k] == env.info(k) && Alive(PhaseOf(s, env, k))
    {
      assert Regular(s, env, k);
    }
  }

  lemma {:induction false} AnnounceKeeps(s: State, env: Env, c: ClientID)
    requires Inv(s, env) && Possible(s, env, Announce(c))
    ensures Inv(Step(s, env, Announce(c)), env)
  {
    hide PhaseOf, TracksInv;
    var r := Step(s, env, Announce(c));
    RunningIsKnown(s, env);
    SamePhases(s, r, env);
    SameTracks(s, r, env);
    forall m | m in s.local ensures Served(r, env, m, r.local[m], Present(r)) {
      ServedFewer(s, r, env, m, s.local[m], Present(s), Present(r));
    }
  }

  lemma {:induction false} TakeLockKeeps(s: State, env: Env)
    requires Inv(s, env) && Possible(s, env, TakeLock)
    ensures Inv(Step(s, env, TakeLock), env)
  {
    hide PhaseOf, TracksInv;
    var r := Step(s, env, TakeLock);
    SamePhases(s, r, env);
    SameTracks(s, r, env);
    assert r.local.Keys - r.joining.todo == {};
    assert Present(r) == Present(s);
    forall m | m in s.local ensures Served(r, env, m, r.local[m], Present(r)) {
      ServedFewer(s, r, env, m, s.local[m], Present(s), Present(r));
    }
  }

  /** Taking over all that a member receives now. */
  lemma {:induction false} ServedCopied(s: State, env: Env, m: ClientID, own: Tracks, from: set<ClientID>, c: ClientID)
    requires TracksInv(s, env) && Served(s, env, m, own, from) && c != m
    ensures Served(s, env, m, own + Receives(s, c), from + {c})
  {
    ReceivedIsAlive(s, env);
    hide PhaseOf, TracksInv, Receives;
  }

  lemma {:induction false} CopyFromKeeps(s: State, env: Env, c: ClientID)
    requires Inv(s, env) && Possible(s, env, CopyFrom(c))
    ensures Inv(Step(s, env, CopyFrom(c)), env)
  {
    hide PhaseOf, TracksInv;
    var r := Step(s, env, CopyFrom(c));
    SamePhases(s, r, env);
    SameTracks(s, r, env);
    var j, visited := s.joining, s.local.Keys - s.joining.todo;
    ServedCopied(s, env, j.clientID, j.own, visited, c);
    ServedFewer(s, r, env, j.clientID, r.joining.own, visited + {c}, r.local.Keys - r.joining.todo);
    forall m | m in s.local ensures Served(r, env, m, r.local[m], Present(r)) {
      ServedFewer(s, r, env, m, s.local[m], Present(s), Present(r));
    }
  }

  lemma {:induction false} InsertKeeps(s: State, env: Env)
    requires Inv(s, env) && Possible(s, env, Insert)
    ensures Inv(Step(s, env, Insert), env)
  {
    hide PhaseOf, TracksInv;
    var r := Step(s, env, Insert);
    SamePhases(s, r, env);
    SameTracks(s, r, env);
    assert Present(r) == Present(s);
    forall m | m in r.local ensures Served(r, env, m, r.local[m], Present(r)) {
      if m in s.local {
        ServedFewer(s, r, env, m, s.local[m], Present(s), Present(r));
      }
    }
  }

  lemma {:induction false} LeaveKeeps(s: State, env: Env, c: ClientID)
    requires Inv(s, env) && Possible(s, env, Leave(c))
    ensures Inv(Step(s, env, Leave(c)), env)
  {
    hide PhaseOf, TracksInv;
    var r := Step(s, env, Leave(c));
    SamePhases(s, r, env);
    SameTracks(s, r, env);
    forall m | m in r.local ensures Served(r, env, m, r.local[m], Present(r)) {
      ServedFewer(s, r, env, m, s.local[m], Present(s), Present(r));
    }
  }

  lemma {:induction false} ReceivesKeeps(s: State, r: State, env: Env, a: Action)
    requires TracksInv(s, env) && Possible(s, env, a) && r == Step(s, env, a)
    requires a.TrackStarts? || a.TrackEnds? || a.EventHandled?
    ensures forall c, k :: k in Receives(r, c) ==> c == env.client(k) && Receives(r, c)[k] == env.info(k)
  {
    hide PhaseOf, Regular;
    forall c, k | k in Receives(r, c) ensures c == env.client(k) && Receives(r, c)[k] == env.info(k) {
      match a
      case TrackStarts(j) => assert k != j || c != env.client(j) ==> k in Receives(s, c);
      case TrackEnds(j) => assert k in Receives(s, c);
      case EventHandled(j) => assert k in Receives(s, c);
    }
  }

  lemma {:induction false} TrackStartsKeeps(s: State, env: Env, k: SSRC)
    requires Inv(s, env) && Possible(s, env, TrackStarts(k))
    ensures Inv(Step(s, env, TrackStarts(k)), env)
  {
    hide PhaseOf, Regular;
    var r := Step(s, env, TrackStarts(k));
    assert Regular(s, env, k);
    StartPhase(s, env, k);
    ReceivesKeeps(s, r, env, TrackStarts(k));
    ServedKeeps(s, r, env, k);
  }

  lemma {:induction false} TrackEndsKeeps(s: State, env: Env, k: SSRC)
    requires Inv(s, env) && Possible(s, env, TrackEnds(k))
    ensures Inv(Step(s, env, TrackEnds(k)), env)
  {
    hide PhaseOf, Regular;
    var r := Step(s, env, TrackEnds(k));
    assert Regular(s, env, k);
    EndPhase(s, env, k);
    ReceivesKeeps(s, r, env, TrackEnds(k));
    ServedKeeps(s, r, env, k);
  }

  /** Between its events a track may start or end without making anyone's tracks wrong. */
  lemma {:induction false} ServedKeeps(s: State, r: State, env: Env, k: SSRC)
    requires Inv(s, env) && OnlyPhase(s, r, env, k) && Alive(PhaseOf(r, env, k)) && !PhaseOf(r, env, k).Running?
    requires r.joining == s.joining && r.local == s.local && r.left == s.left
    ensures JoinInv(r, env) && forall m :: m in r.local ==> Served(r, env, m, r.local[m], Present(r))
  {
    hide PhaseOf, Regular, TracksInv;
    assert Present(r) == Present(s);
    forall m | m in r.local ensures Served(r, env, m, r.local[m], Present(r)) {
      ServedFewer(s, r, env, m, s.local[m], Present(s), Present(r));
    }
    if s.joining.Copying? {
      var visited := s.local.Keys - s.joining.todo;
      ServedFewer(s, r, env, s.joining.clientID, s.joining.own, visited, visited);
    }
  }

  lemma {:induction false} EventHandledTracks(s: State, env: Env, k: SSRC)
    requires Inv(s, env) && Possible(s, env, EventHandled(k))
    ensures TracksInv(Step(s, env, EventHandled(k)), env)
  {
    hide PhaseOf, Regular, Served;
    var r := Step(s, env, EventHandled(k));
    assert Regular(s, env, k);
    HandledPhase(s, env, k);
    ReceivesKeeps(s, r, env, EventHandled(k));
    hide Receives, Gain, Lose;
    assert Present(r) == Present(s);
  }

  lemma {:induction false} EventHandledKeeps(s: State, env: Env, k: SSRC)
    requires Labelled(env) && Inv(s, env) && Possible(s, env, EventHandled(k))
    ensures Inv(Step(s, env, EventHandled(k)), env)
  {
    hide PhaseOf, Regular, Served;
    var r := Step(s, env, EventHandled(k));
    assert Regular(s, env, k);
    HandledPhase(s, env, k);
    EventHandledTracks(s, env, k);
    hide TracksInv, OnlyPhase;
    assert Present(r) == Present(s);
    forall m | m in r.local ensures Served(r, env, m, r.local[m], Present(r)) {
      if s.events[k][0].Added? {
        ServedOneMore(s, r, env, m, s.local[m], Present(s), k);
      } else {
        ServedOneLess(s, r, env, m, s.local[m], Present(s), k);
      }
    }
  }

  /** Every step keeps the forwarding table right, up to the events that are still to be handled. */
  lemma {:induction false} StepKeepsInv(s: State, env: Env, a: Action)
    requires Labelled(env) && Inv(s, env) && Possible(s, env, a)
    ensures Inv(Step(s, env, a), env)
  {
    hide *;
    match a
    case Announce(c) => AnnounceKeeps(s, env, c);
    case TakeLock => TakeLockKeeps(s, env);
    case CopyFrom(c) => CopyFromKeeps(s, env, c);
    case Insert => InsertKeeps(s, env);
    case Leave(c) => LeaveKeeps(s, env, c);
    case TrackStarts(k) => TrackStartsKeeps(s, env, k);
    case TrackEnds(k) => TrackEndsKeeps(s, env, k);
    case EventHandled(k) => EventHandledKeeps(s, env, k);
  }

  // ---------------------------------------------------------------- whole runs

  ghost predicate Reaches(s: State, env: Env, actions: seq<Action>, r: State)
    decreases |actions|
  {
    if |actions| == 0 then s == r
    else Possible(s, env, actions[0]) && Reaches(Step(s, env, actions[0]), env, actions[1..], r)
  }

  lemma {:induction false} RunKeepsInv(s: State, env: Env, actions: seq<Action>, r: State)
    requires Labelled(env) && Inv(s, env) && Reaches(s, env, actions, r)
    ensures Inv(r, env)
    decreases |actions|
  {
    hide Inv, Step, Possible;
    if |actions| > 0 {
      StepKeepsInv(s, env, actions[0]);
      RunKeepsInv(Step(s, env, actions[0]), env, actions[1..], r);
    }
  }

  lemma {:induction false} ReachableInv(env: Env, actions: seq<Action>, r: State)
    requires Labelled(env) && Reaches(EMPTY, env, actions, r)
    ensures Inv(r, env)
  {
    hide Reaches;
    RunKeepsInv(EMPTY, env, actions, r);
  }

  /** No join under way, no track event to be handled, and those who left have ended their tracks. */
  ghost predicate Settled(s: State) {
    && s.joining.Nobody?
    && (forall k :: k in s.events ==> s.events[k] == [])
    && (forall c :: c in s.left ==> Receives(s, c) == map[])
  }

  /** What the others in the room receive. */
  ghost predicate FromOthers(s: State, m: ClientID, k: SSRC, track: TrackInfo) {
    exists c :: c in s.local && c != m && k in Receives(s, c) && Receives(s, c)[k] == track
  }

  lemma {:induction false} SettledPhases(s: State, env: Env, k: SSRC)
    requires Settled(s) && Regular(s, env, k)
    ensures PhaseOf(s, env, k).Running? <==> k in Receives(s, env.client(k))
    ensures PhaseOf(s, env, k).Unborn? || PhaseOf(s, env, k).Over? || PhaseOf(s, env, k).Running?
  {
  }

  lemma {:induction false} RunningInRoom(s: State, env: Env, c: ClientID, k: SSRC)
    requires TracksInv(s, env) && Settled(s) && k in Receives(s, c)
    ensures c == env.client(k) && c in s.local && PhaseOf(s, env, k).Running?
  {
    assert Regular(s, env, k);
    SettledPhases(s, env, k);
    RunningIsKnown(s, env);
  }

  /** Once settled, every transport sends exactly what the other members receive. */
  lemma {:induction false} SettledForwardsAll(env: Env, actions: seq<Action>, s: State, m: ClientID)
    requires Labelled(env) && Reaches(EMPTY, env, actions, s) && Settled(s) && m in s.local
    ensures forall k, track :: (k in s.local[m] && s.local[m][k] == track) <==> FromOthers(s, m, k, track)
  {
    hide PhaseOf, Regular, Reaches, Settled, FromOthers;
    ReachableInv(env, actions, s);
    forall k, track ensures (k in s.local[m] && s.local[m][k] == track) <==> FromOthers(s, m, k, track) {
      SentIsFromOthers(s, env, m, k);
      if FromOthers(s, m, k, track) {
        FromOthersIsSent(s, env, m, k, track);
      }
    }
  }

  lemma {:induction false} SentIsFromOthers(s: State, env: Env, m: ClientID, k: SSRC)
    requires Inv(s, env) && Settled(s) && m in s.local
    ensures k in s.local[m] ==> FromOthers(s, m, k, s.local[m][k])
  {
    if k in s.local[m] {
      assert Regular(s, env, k);
      SettledPhases(s, env, k);
      assert k in Receives(s, env.client(k));
      RunningInRoom(s, env, env.client(k), k);
    }
  }

  lemma {:induction false} FromOthersIsSent(s: State, env: Env, m: ClientID, k: SSRC, track: TrackInfo)
    requires Inv(s, env) && Settled(s) && m in s.local && FromOthers(s, m, k, track)
    ensures k in s.local[m] && s.local[m][k] == track
  {
    hide PhaseOf, Regular;
    var c :| c in s.local && c != m && k in Receives(s, c) && Receives(s, c)[k] == track;
    RunningInRoom(s, env, c, k);
  }

  /** Once settled, the record of publishers is exactly who receives what. */
  lemma {:induction false} SettledPublishers(env: Env, actions: seq<Action>, s: State)
    requires Labelled(env) && Reaches(EMPTY, env, actions, s) && Settled(s)
    ensures forall k, c :: (k in s.clientIDBySSRC && s.clientIDBySSRC[k] == c) <==>
                           (c in s.local && k in Receives(s, c))
  {
    hide PhaseOf, Regular, Reaches, Settled;
    ReachableInv(env, actions, s);
    forall k, c ensures (k in s.clientIDBySSRC && s.clientIDBySSRC[k] == c) <==> (c in s.local && k in Receives(s, c)) {
      assert Regular(s, env, k);
      SettledPhases(s, env, k);
      if k in Receives(s, env.client(k)) {
        RunningInRoom(s, env, env.client(k), k);
      }
    }
  }

  /**
   At any moment: nobody is sent its own track or one whose end was handled, and the metadata of a track that is
   sent names its publisher, except that it names nobody exactly as long as the start is still to be handled.
   */
  lemma {:induction false} AlwaysHonest(env: Env, actions: seq<Action>, s: State, m: ClientID, k: SSRC, mid: string,
                                        kind: string)
    requires Labelled(env) && Reaches(EMPTY, env, actions, s) && m in s.local && k in s.local[m]
    ensures env.client(k) != m && s.local[m][k] == env.info(k)
    ensures k in Receives(s, env.client(k)) || (k in s.events && s.events[k] != [])
    ensures k in s.events
    ensures MetadataOf(s.local[m][k], mid, kind, s.clientIDBySSRC) ==
            TrackMetadata(mid, if s.events[k] != [] && s.events[k][0] == Added then "" else env.client(k),
                          env.info(k).streamLabel, kind)
  {
    hide Reaches;
    ReachableInv(env, actions, s);
    assert Regular(s, env, k);
  }

  lemma {:induction false} Onward(s: State, env: Env, a: Action, actions: seq<Action>, r: State)
    requires Possible(s, env, a) && Reaches(Step(s, env, a), env, actions, r)
    ensures Reaches(s, env, [a] + actions, r)
  {
    assert ([a] + actions)[1..] == actions;
  }

  /** The publisher is in the room, its track has started, and the start is not handled. */
  function JustStarted(env: Env, k: SSRC): State {
    var c := env.client(k);
    State(Nobody, {}, map[c := map[]], map[c := map[k := env.info(k)]], map[k := [Added]], map[])
  }

  /** Another client has joined since. */
  function JoinedEarly(env: Env, k: SSRC, m: ClientID): State {
    JustStarted(env, k).(local := map[env.client(k) := map[], m := map[k := env.info(k)]])
  }

  lemma {:induction false} JustStartedIsReached(env: Env, k: SSRC, rest: seq<Action>, s: State)
    requires Reaches(JustStarted(env, k), env, rest, s)
    ensures Reaches(EMPTY, env, [Announce(env.client(k))] + ([TakeLock] + ([Insert] + ([TrackStarts(k)] + rest))), s)
  {
    var c := env.client(k);
    var one := EMPTY.(joining := Announced(c));
    var two := EMPTY.(joining := Copying(c, {}, map[]));
    var three := EMPTY.(local := map[c := map[]]);
    assert Step(EMPTY, env, Announce(c)) == one && Step(one, env, TakeLock) == two && Step(two, env, Insert) == three;
    assert Step(three, env, TrackStarts(k)) == JustStarted(env, k);
    hide Reaches, Step, JustStarted;
    Onward(three, env, TrackStarts(k), rest, s);
    Onward(two, env, Insert, [TrackStarts(k)] + rest, s);
    Onward(one, env, TakeLock, [Insert] + ([TrackStarts(k)] + rest), s);
    Onward(EMPTY, env, Announce(c), [TakeLock] + ([Insert] + ([TrackStarts(k)] + rest)), s);
  }

  /** m joins while c is the only one in the room. */
  function JoiningOf(c: ClientID, m: ClientID): seq<Action> {
    [Announce(m)] + ([TakeLock] + ([CopyFrom(c)] + ([Insert] + [])))
  }

  lemma {:induction false} JoinedEarlyIsReached(env: Env, k: SSRC, m: ClientID)
    requires m != env.client(k)
    ensures Reaches(JustStarted(env, k), env, JoiningOf(env.client(k), m), JoinedEarly(env, k, m))
  {
    var c, s, last := env.client(k), JustStarted(env, k), JoinedEarly(env, k, m);
    var one, two := s.(joining := Announced(m)), s.(joining := Copying(m, {c}, map[]));
    var three := s.(joining := Copying(m, {}, map[k := env.info(k)]));
    assert s.local.Keys == {c};
    assert Step(s, env, Announce(m)) == one && Step(one, env, TakeLock) == two;
    assert {c} - {c} == {} && map[] + map[k := env.info(k)] == map[k := env.info(k)];
    assert Step(two, env, CopyFrom(c)) == three;
    assert Step(three, env, Insert) == last;
    assert Reaches(last, env, [], last);
    hide Reaches, Step, JustStarted, JoinedEarly;
    Onward(three, env, Insert, [], last);
    Onward(two, env, CopyFrom(c), [Insert] + [], last);
    Onward(one, env, TakeLock, [CopyFrom(c)] + ([Insert] + []), last);
    Onward(s, env, Announce(m), [TakeLock] + ([CopyFrom(c)] + ([Insert] + [])), last);
  }

  /** Whoever joins between the start of a track and its handling is sent a track of nobody. */
  lemma {:induction false} MetadataNamesNobody(env: Env, k: SSRC, m: ClientID) returns (actions: seq<Action>, s: State)
    requires Labelled(env) && m != env.client(k)
    ensures Reaches(EMPTY, env, actions, s) && m in s.local && k in s.local[m]
    ensures forall mid, kind :: MetadataOf(s.local[m][k], mid, kind, s.clientIDBySSRC).userID == ""
  {
    s := JoinedEarly(env, k, m);
    var rest := JoiningOf(env.client(k), m);
    actions := [Announce(env.client(k))] + ([TakeLock] + ([Insert] + ([TrackStarts(k)] + rest)));
    hide Reaches;
    JoinedEarlyIsReached(env, k, m);
    JustStartedIsReached(env, k, rest, s);
  }

  /** The lock is never held for good: a join can always go on, and each visit leaves fewer to visit. */
  lemma {:induction false} JoinGoesOn(s: State, env: Env)
    requires !s.joining.Nobody?
    ensures exists a :: (a == TakeLock || a == Insert || (s.joining.Copying? && exists c :: a == CopyFrom(c)))
                        && Possible(s, env, a)
    ensures forall c :: Possible(s, env, CopyFrom(c)) ==>
              |Step(s, env, CopyFrom(c)).joining.todo| == |s.joining.todo| - 1
  {
    if s.joining.Announced? {
      assert Possible(s, env, TakeLock);
    } else if s.joining.todo == {} {
      assert Possible(s, env, Insert);
    } else {
      var c :| c in s.joining.todo;
      assert Possible(s, env, CopyFrom(c));
    }
  }

  /** Steps that need no new client, no leave and no track to start or end. */
  predicate Internal(a: Action) {
    a.TakeLock? || a.CopyFrom? || a.Insert? || a.EventHandled?
  }

  predicate AllInternal(actions: seq<Action>) {
    forall i :: 0 <= i < |actions| ==> Internal(actions[i])
  }

  /** No join under way, and no event to be handled of a client whose events are read. */
  predicate Rested(s: State, env: Env) {
    s.joining.Nobody? && forall k :: k in s.events ==> s.events[k] == [] || !Read(s, env.client(k))
  }

  function JoinSteps(s: State): nat {
    if s.joining.Nobody? then 0 else if s.joining.Announced? then 2 else 1
  }

  function ToVisit(s: State): set<ClientID> {
    if s.joining.Copying? then s.joining.todo else {}
  }

  function Pending(s: State): set<(SSRC, nat)> {
    set k, i: nat | k in s.events && i < |s.events[k]| :: (k, i)
  }

  lemma {:induction false} HandledPending(s: State, env: Env, k: SSRC)
    requires Possible(s, env, EventHandled(k))
    ensures Pending(Step(s, env, EventHandled(k))) < Pending(s)
    ensures Step(s, env, EventHandled(k)).joining == s.joining
  {
    var r := Step(s, env, EventHandled(k));
    var last := (k, |s.events[k]| - 1);
    assert last in Pending(s) && last !in Pending(r);
  }

  /** The next internal step of a state that is not at rest. */
  lemma {:induction false} NextStep(s: State, env: Env) returns (a: Action)
    requires !Rested(s, env)
    ensures Internal(a) && Possible(s, env, a)
    ensures var r := Step(s, env, a);
            JoinSteps(r) < JoinSteps(s)
            || (JoinSteps(r) == JoinSteps(s) && ToVisit(r) < ToVisit(s))
            || (JoinSteps(r) == JoinSteps(s) && ToVisit(r) == ToVisit(s) && Pending(r) < Pending(s))
  {
    if s.joining.Announced? {
      a := TakeLock;
    } else if s.joining.Copying? && s.joining.todo == {} {
      a := Insert;
    } else if s.joining.Copying? {
      var c :| c in s.joining.todo;
      a := CopyFrom(c);
      assert c in ToVisit(s) && c !in ToVisit(Step(s, env, a));
    } else {
      var k :| k in s.events && s.events[k] != [] && Read(s, env.client(k));
      a := EventHandled(k);
      HandledPending(s, env, k);
    }
  }

  /** From every state the room comes to rest by itself: joins finish and events are handled. */
  lemma {:induction false} ComesToRest(s: State, env: Env) returns (actions: seq<Action>, r: State)
    ensures AllInternal(actions) && Reaches(s, env, actions, r) && Rested(r, env)
    decreases JoinSteps(s), ToVisit(s), Pending(s)
  {
    hide Step, Possible, Rested, Internal, Pending;
    if Rested(s, env) {
      actions, r := [], s;
    } else {
      var a := NextStep(s, env);
      var rest: seq<Action>;
      rest, r := ComesToRest(Step(s, env, a), env);
      actions := [a] + rest;
      assert actions[1..] == rest;
    }
  }

  /** At rest, with every client that ever had a track in the room and no track of a departed one, all is settled. */
  lemma {:induction false} RestIsSettled(s: State, env: Env)
    requires Rested(s, env)
    requires forall k :: k in s.events ==> env.client(k) in s.local || env.client(k) in s.left
    requires forall c :: c in s.left ==> Receives(s, c) == map[]
    ensures Settled(s)
  {
  }

  // ---------------------------------------------------------------- a join in one go

  function RoomReceives(s: State): map<ClientID, Tracks> {
    map c | c in s.local :: Receives(s, c)
  }

  function Copied(s: State, order: seq<ClientID>, n: nat): State
    requires s.joining.Announced? && n <= |order| && forall i :: 0 <= i < |order| ==> order[i] in s.local
  {
    var own := CopyAll(map[], RoomReceives(s), order, n);
    s.(joining := Copying(s.joining.clientID, s.local.Keys - Visited(order, n), own))
  }

  function Visited(order: seq<ClientID>, n: nat): set<ClientID>
    requires n <= |order|
  {
    set i | 0 <= i < n :: order[i]
  }

  lemma {:induction false} CopyStep(s: State, env: Env, order: seq<ClientID>, i: nat)
    requires Possible(s, env, TakeLock) && Walks(order, s.local.Keys) && i < |order|
    ensures Possible(Copied(s, order, i), env, CopyFrom(order[i]))
    ensures Step(Copied(s, order, i), env, CopyFrom(order[i])) == Copied(s, order, i + 1)
  {
    VisitedNext(order, i);
    assert order[i] in order;
    var next := CopyAll(map[], RoomReceives(s), order, i) + Receives(s, order[i]);
    assert CopyAll(map[], RoomReceives(s), order, i + 1) == next;
    hide CopyAll, RoomReceives, Receives;
    assert s.local.Keys - Visited(order, i + 1) == s.local.Keys - Visited(order, i) - {order[i]};
    hide Visited;
  }

  /** With no track event in between, the steps of a join do to the room what RoomPeersManager.Add does. */
  lemma {:induction false} JoinIsAdd(s: State, env: Env, order: seq<ClientID>)
    requires Possible(s, env, TakeLock) && Walks(order, s.local.Keys)
    ensures Step(s, env, TakeLock) == Copied(s, order, 0)
    ensures forall i :: 0 <= i < |order| ==>
              Possible(Copied(s, order, i), env, CopyFrom(order[i]))
              && Step(Copied(s, order, i), env, CopyFrom(order[i])) == Copied(s, order, i + 1)
    ensures var last := Copied(s, order, |order|);
            && Possible(last, env, Insert)
            && Step(last, env, Insert) ==
               s.(joining := Nobody,
                  local := s.local[s.joining.clientID := CopyAll(map[], RoomReceives(s), order, |order|)])
  {
    assert s.local.Keys - Visited(order, 0) == s.local.Keys;
    forall i | 0 <= i < |order|
      ensures Possible(Copied(s, order, i), env, CopyFrom(order[i]))
      ensures Step(Copied(s, order, i), env, CopyFrom(order[i])) == Copied(s, order, i + 1)
    {
      CopyStep(s, env, order, i);
    }
    assert s.local.Keys - Visited(order, |order|) == {};
  }

  lemma {:induction false} VisitedNext(order: seq<ClientID>, i: nat)
    requires i < |order| && forall j, k :: 0 <= j < k < |order| ==> order[j] != order[k]
    ensures order[i] !in Visited(order, i) && Visited(order, i + 1) == Visited(order, i) + {order[i]}
  {
  }

  // ---------------------------------------------------------------- the steps, transport by transport

  /** A new client can always start to join when nobody else does, and goes through with it (see JoinIsAdd). */
  lemma {:induction false} AnnounceExact(s: State, env: Env, c: ClientID)
    requires s.joining.Nobody? && c !in s.local && c !in s.left
    ensures Possible(s, env, Announce(c)) && Step(s, env, Announce(c)) == s.(joining := Announced(c))
  {
  }

  /** A member can always leave when nobody joins. It is out of the room, and its tracks stay as they are. */
  lemma {:induction false} LeaveExact(s: State, env: Env, c: ClientID)
    requires s.joining.Nobody? && c in s.local
    ensures Possible(s, env, Leave(c))
    ensures var r := Step(s, env, Leave(c));
            && r == s.(local := r.local, left := s.left + {c})
            && c !in r.local
            && (forall d :: d != c ==> (d in r.local <==> d in s.local))
            && (forall d :: d != c && d in s.local ==> r.local[d] == s.local[d])
  {
  }

  /** A new track can always start: its client receives it, and the room has yet to be told. */
  lemma {:induction false} TrackStartsExact(s: State, env: Env, k: SSRC)
    requires k !in s.events
    ensures Possible(s, env, TrackStarts(k))
    ensures var r, c := Step(s, env, TrackStarts(k)), env.client(k);
            && r == s.(remote := r.remote, events := r.events)
            && k in Receives(r, c) && Receives(r, c)[k] == env.info(k) && k in r.events && r.events[k] == [Added]
            && (forall j :: j != k ==> (j in r.events <==> j in s.events))
            && (forall j :: j != k && j in s.events ==> r.events[j] == s.events[j])
            && (forall d, j :: d != c || j != k ==> (j in Receives(r, d) <==> j in Receives(s, d)))
            && (forall d, j :: (d != c || j != k) && j in Receives(s, d) ==> Receives(r, d)[j] == Receives(s, d)[j])
  {
  }

  /** A running track can always end: its client no longer receives it, and the room has yet to be told. */
  lemma {:induction false} TrackEndsExact(s: State, env: Env, k: SSRC)
    requires k in Receives(s, env.client(k)) && k in s.events
    ensures Possible(s, env, TrackEnds(k))
    ensures var r, c := Step(s, env, TrackEnds(k)), env.client(k);
            && r == s.(remote := r.remote, events := s.events[k := s.events[k] + [Removed]])
            && k !in Receives(r, c)
            && (forall d, j :: d != c || j != k ==> (j in Receives(r, d) <==> j in Receives(s, d)))
            && (forall d, j :: (d != c || j != k) && j in Receives(s, d) ==> Receives(r, d)[j] == Receives(s, d)[j])
  {
  }

  /** The events of members and of those who left are handled one by one, as AddTrack and RemoveTrack do. */
  lemma {:induction false} EventHandledExact(s: State, env: Env, k: SSRC)
    requires k in s.events && |s.events[k]| > 0 && !s.joining.Copying?
    requires env.client(k) in s.local || env.client(k) in s.left || s.joining == Announced(env.client(k))
    ensures Possible(s, env, EventHandled(k))
    ensures var r, c, tracks := Step(s, env, EventHandled(k)), env.client(k), s.events[k][0];
            && r == s.(local := r.local, clientIDBySSRC := r.clientIDBySSRC, events := s.events[k := s.events[k][1..]])
            && r.local.Keys == s.local.Keys
            && (c in s.local ==> r.local[c] == s.local[c])
            && (tracks.Added? ==>
                  && r.clientIDBySSRC == s.clientIDBySSRC[k := c]
                  && forall m :: m in s.local && m != c ==> r.local[m] == s.local[m][env.info(k).ssrc := env.info(k)])
            && (tracks.Removed? ==>
                  && r.clientIDBySSRC == s.clientIDBySSRC - {k}
                  && forall m :: m in s.local && m != c ==> r.local[m] == s.local[m] - {k})
  {
  }
}
