/**
 Who is in a room, kept in a hash that several server instances share: each replays every join and leave from
 its own subscription, however late.
 */
module Membership {
  type ClientID = string
  type Instance = string
  type Metadata = string

  datatype Message = Join(clientID: ClientID, metadata: Metadata) | Leave(clientID: ClientID) | Other

  // ---------------------------------------------------------------- the objects

  /**
   The shared hash roomClients, and the messages that each subscriber of the room's channel still has to read.
   While the server is down every command fails and changes nothing.
   */
  class Redis {
    const down: bool
    var roomClients: map<ClientID, Metadata>
    var queues: map<Instance, seq<Message>>

    constructor (instances: set<Instance>, down: bool)
      ensures roomClients == map[] && queues == (map i | i in instances :: []) && this.down == down
    {
      roomClients, queues, this.down := map[], map i | i in instances :: [], down;
    }

    method HSet(clientID: ClientID, metadata: Metadata) returns (ok: bool)
      modifies this`roomClients
      ensures ok == !down
      ensures roomClients == if ok then old(roomClients)[clientID := metadata] else old(roomClients)
    {
      if !down {
        roomClients := roomClients[clientID := metadata];
      }
      return !down;
    }

    method HDel(clientID: ClientID) returns (ok: bool)
      modifies this`roomClients
      ensures ok == !down
      ensures roomClients == if ok then old(roomClients) - {clientID} else old(roomClients)
    {
      if !down {
        roomClients := roomClients - {clientID};
      }
      return !down;
    }

    method Publish(message: Message) returns (ok: bool)
      modifies this`queues
      ensures ok == !down
      ensures queues == if ok then Published(old(queues), message) else old(queues)
      ensures queues.Keys == old(queues).Keys
      ensures forall i :: i in queues ==> queues[i] == old(queues)[i] + if down then [] else [message]
    {
      if !down {
        queues := Published(queues, message);
      }
      return !down;
    }
  }

  function Published(queues: map<Instance, seq<Message>>, message: Message): map<Instance, seq<Message>> {
    map i | i in queues :: queues[i] + [message]
  }

  /** The hash after one message was replayed; a leave is skipped when a local socket fails. */
  function Replayed(roomClients: map<ClientID, Metadata>, message: Message, written: bool): map<ClientID, Metadata> {
    match message
    case Join(clientID, metadata) => roomClients[clientID := metadata]
    case Leave(clientID) => if written then roomClients - {clientID} else roomClients
    case Other => roomClients
  }

  class RedisAdapter {
    const redis: Redis
    const instance: Instance
    var clients: set<ClientID>

    constructor (redis: Redis, instance: Instance)
      ensures this.redis == redis && this.instance == instance && clients == {}
    {
      this.redis, this.instance, clients := redis, instance, {};
    }

    /** The client becomes local only if its join could be broadcast. */
    method Add(clientID: ClientID, metadata: Metadata) returns (ok: bool)
      modifies this`clients, redis`queues
      ensures ok == !redis.down
      ensures redis.queues == if ok then Published(old(redis.queues), Join(clientID, metadata)) else old(redis.queues)
      ensures clients == if ok then old(clients) + {clientID} else old(clients)
    {
      ok := redis.Publish(Join(clientID, metadata));
      if ok {
        clients := clients + {clientID};
      }
    }

    /** Only clients of this instance are removed, and these even if nobody can be told. */
    method Remove(clientID: ClientID) returns (ok: bool)
      modifies this`clients, redis
      ensures ok == (clientID !in old(clients) || !redis.down)
      ensures clients == old(clients) - {clientID}
      ensures clientID !in old(clients) || redis.down ==>
                redis.roomClients == old(redis.roomClients) && redis.queues == old(redis.queues)
      ensures clientID in old(clients) && !redis.down ==>
                && redis.roomClients == old(redis.roomClients) - {clientID}
                && redis.queues == Published(old(redis.queues), Leave(clientID))
    {
      ok := true;
      if clientID in clients {
        var deleted := redis.HDel(clientID);
        clients := clients - {clientID};
        ok := redis.Publish(Leave(clientID));
      }
    }

    /** Writes to every local socket; false if one of them is broken. */
    method LocalBroadcast(message: Message, broken: set<ClientID>) returns (ok: bool)
      ensures ok <==> clients !! broken
    {
      ok := true;
      var todo := clients;
      while todo != {}
        invariant todo <= clients
        invariant ok <==> (clients - todo) !! broken
      {
        var clientID :| clientID in todo;
        todo := todo - {clientID};
        if clientID in broken {
          ok := false;
        }
      }
    }

    method HandleMessage(message: Message, broken: set<ClientID>) returns (ok: bool)
      modifies redis`roomClients
      ensures redis.roomClients ==
              if redis.down then old(redis.roomClients)
              else Replayed(old(redis.roomClients), message, clients !! broken)
      ensures ok == (clients !! broken && (redis.down ==> message.Other?))
      ensures message.Join? && !redis.down ==>
                redis.roomClients == old(redis.roomClients)[message.clientID := message.metadata]
      ensures message.Leave? && !redis.down && clients !! broken ==>
                redis.roomClients == old(redis.roomClients) - {message.clientID}
      ensures message.Other? || redis.down || (message.Leave? && !(clients !! broken)) ==>
                redis.roomClients == old(redis.roomClients)
    {
      match message
      case Join(clientID, metadata) =>
        ok := redis.HSet(clientID, metadata);
        if ok {
          ok := LocalBroadcast(message, broken);
        }
      case Leave(clientID) =>
        ok := LocalBroadcast(message, broken);
        if ok {
          ok := redis.HDel(clientID);
        }
      case Other =>
        ok := LocalBroadcast(message, broken);
    }
  }

  // ---------------------------------------------------------------- every interleaving

  /** leaving: taken out of the hash by their own instance, which has yet to broadcast the leave. */
  datatype State = State(
    clients: map<Instance, set<ClientID>>,
    roomClients: map<ClientID, Metadata>,
    queues: map<Instance, seq<Message>>,
    joined: set<ClientID>,
    leaving: set<ClientID>,
    left: set<ClientID>)

  function Start(instances: set<Instance>): State {
    State(map i | i in instances :: {}, map[], map i | i in instances :: [], {}, {}, {})
  }

  datatype Action =
    | ClientJoins(instance: Instance, clientID: ClientID, metadata: Metadata)
    | ClientIsDeleted(instance: Instance, clientID: ClientID)
    | LeaveIsBroadcast(clientID: ClientID)
    | MetadataSet(clientID: ClientID, metadata: Metadata)
    | MessageHandled(instance: Instance, broken: set<ClientID>)
    | OtherBroadcast

  /** Each client joins once, and metadata is set only for clients that are present. */
  predicate Possible(s: State, a: Action) {
    match a
    case ClientJoins(i, c, m) => i in s.clients && i in s.queues && c !in s.joined
    case ClientIsDeleted(i, c) => i in s.clients && c in s.clients[i]
    case LeaveIsBroadcast(c) => c in s.leaving
    case MetadataSet(c, m) => c in s.joined && c !in s.left
    case MessageHandled(i, broken) => i in s.clients && i in s.queues && |s.queues[i]| > 0
    case OtherBroadcast => true
  }

  function Step(s: State, a: Action): State
    requires Possible(s, a)
  {
    match a
    case ClientJoins(i, c, m) =>
      s.(clients := s.clients[i := s.clients[i] + {c}], queues := Published(s.queues, Join(c, m)),
         joined := s.joined + {c})
    case ClientIsDeleted(i, c) =>
      s.(clients := s.clients[i := s.clients[i] - {c}], roomClients := s.roomClients - {c},
         leaving := s.leaving + {c}, left := s.left + {c})
    case LeaveIsBroadcast(c) =>
      s.(queues := Published(s.queues, Leave(c)), leaving := s.leaving - {c})
    case MetadataSet(c, m) => s.(roomClients := s.roomClients[c := m])
    case MessageHandled(i, broken) =>
      s.(roomClients := Replayed(s.roomClients, s.queues[i][0], s.clients[i] !! broken),
         queues := s.queues[i := s.queues[i][1..]])
    case OtherBroadcast => s.(queues := Published(s.queues, Other))
  }

  // ---------------------------------------------------------------- the steps are the methods

  /** Every instance will read this message after all others. */
  predicate IsPublished(before: map<Instance, seq<Message>>, message: Message, after: map<Instance, seq<Message>>) {
    after.Keys == before.Keys && forall i :: i in before ==> after[i] == before[i] + [message]
  }

  /** A client that has not joined can join at any instance: what Add does. */
  lemma {:induction false} JoinsAsAdded(s: State, i: Instance, c: ClientID, m: Metadata)
    requires i in s.clients && i in s.queues && c !in s.joined
    ensures Possible(s, ClientJoins(i, c, m))
    ensures var r := Step(s, ClientJoins(i, c, m));
            && IsPublished(s.queues, Join(c, m), r.queues) && r.joined == s.joined + {c}
            && r == s.(clients := s.clients[i := s.clients[i] + {c}], queues := r.queues, joined := r.joined)
  {
  }

  /** A local client can be removed at any time, in two steps (see LeaveIsTold): what Remove does. */
  lemma {:induction false} LeavesAsRemoved(s: State, i: Instance, c: ClientID)
    requires i in s.clients && c in s.clients[i]
    ensures Possible(s, ClientIsDeleted(i, c))
    ensures Step(s, ClientIsDeleted(i, c)) ==
            s.(clients := s.clients[i := s.clients[i] - {c}], roomClients := s.roomClients - {c},
               leaving := s.leaving + {c}, left := s.left + {c})
  {
  }

  lemma {:induction false} LeaveIsTold(s: State, c: ClientID)
    requires c in s.leaving
    ensures Possible(s, LeaveIsBroadcast(c))
    ensures var r := Step(s, LeaveIsBroadcast(c));
            IsPublished(s.queues, Leave(c), r.queues) && r == s.(queues := r.queues, leaving := s.leaving - {c})
  {
  }

  /** An instance can replay its next message at any time: what HandleMessage does. */
  lemma {:induction false} ReplaysAsHandled(s: State, i: Instance, broken: set<ClientID>)
    requires i in s.clients && i in s.queues && |s.queues[i]| > 0
    ensures Possible(s, MessageHandled(i, broken))
    ensures var r, m := Step(s, MessageHandled(i, broken)), s.queues[i][0];
            && r == s.(roomClients := r.roomClients, queues := s.queues[i := s.queues[i][1..]])
            && (m.Join? ==> r.roomClients == s.roomClients[m.clientID := m.metadata])
            && (m.Leave? && s.clients[i] !! broken ==> r.roomClients == s.roomClients - {m.clientID})
            && (m.Other? || (m.Leave? && !(s.clients[i] !! broken)) ==> r.roomClients == s.roomClients)
  {
  }

  lemma {:induction false} SetsMetadata(s: State, c: ClientID, m: Metadata)
    requires c in s.joined && c !in s.left
    ensures Possible(s, MetadataSet(c, m))
    ensures Step(s, MetadataSet(c, m)) == s.(roomClients := s.roomClients[c := m])
    ensures var q := Step(s, OtherBroadcast); IsPublished(s.queues, Other, q.queues) && q == s.(queues := q.queues)
  {
  }

  // ---------------------------------------------------------------- invariants

  predicate IsJoin(m: Message, c: ClientID) {
    m.Join? && m.clientID == c
  }

  predicate HasJoin(q: seq<Message>, c: ClientID) {
    exists p :: 0 <= p < |q| && IsJoin(q[p], c)
  }

  predicate About(q: seq<Message>, c: ClientID) {
    HasJoin(q, c) || Leave(c) in q
  }

  /** Whoever replays the join will replay the leave after it. */
  predicate LeaveFollows(q: seq<Message>, c: ClientID) {
    forall p :: 0 <= p < |q| && IsJoin(q[p], c) ==> Leave(c) in q[p..]
  }

  ghost predicate Known(s: State) {
    && s.clients.Keys == s.queues.Keys && (s.joined != {} ==> s.queues.Keys != {})
    && s.leaving <= s.left <= s.joined && s.roomClients.Keys <= s.joined
    && (forall i, c :: i in s.clients && c in s.clients[i] ==> c in s.joined && c !in s.left)
    && (forall i, j, c :: i in s.clients && j in s.clients && c in s.clients[i] && c in s.clients[j] ==> i == j)
    && (forall i, c :: i in s.queues && About(s.queues[i], c) ==> c in s.joined)
  }

  /** A client that is present is in the hash, or every instance has yet to put it there; none takes it out. */
  ghost predicate PresentIsListed(s: State, c: ClientID) {
    c in s.joined && c !in s.left ==>
      && (c in s.roomClients || forall i :: i in s.queues ==> HasJoin(s.queues[i], c))
      && (forall i :: i in s.queues ==> Leave(c) !in s.queues[i])
  }

  /** Once a leave is broadcast, it comes after the join wherever that is still to be replayed. */
  ghost predicate LeavesFollow(s: State, c: ClientID) {
    c in s.left && c !in s.leaving ==> forall i :: i in s.queues ==> LeaveFollows(s.queues[i], c)
  }

  /** A client that has left is out of the hash, or some instance has yet to take it out. */
  ghost predicate GoneIsDropped(s: State, c: ClientID) {
    c in s.left && c !in s.leaving && c in s.roomClients ==> exists i :: i in s.queues && Leave(c) in s.queues[i]
  }

  ghost predicate Listed(s: State) {
    Known(s) && forall c :: PresentIsListed(s, c) && LeavesFollow(s, c)
  }

  // ---------------------------------------------------------------- queues

  lemma {:induction false} Push(q: seq<Message>, m: Message, c: ClientID)
    ensures HasJoin(q + [m], c) <==> HasJoin(q, c) || IsJoin(m, c)
    ensures Leave(c) in q + [m] <==> Leave(c) in q || m == Leave(c)
    ensures LeaveFollows(q, c) && !IsJoin(m, c) ==> LeaveFollows(q + [m], c)
    ensures m == Leave(c) ==> LeaveFollows(q + [m], c)
  {
    var r := q + [m];
    if HasJoin(q, c) {
      var p :| 0 <= p < |q| && IsJoin(q[p], c);
      assert IsJoin(r[p], c);
    }
    assert r[|q|] == m;
    forall p | 0 <= p < |r| && IsJoin(r[p], c) && (m == Leave(c) || (LeaveFollows(q, c) && !IsJoin(m, c)))
      ensures Leave(c) in r[p..]
    {
      assert r[p..] == q[p..] + [m];
    }
  }

  lemma {:induction false} Pop(q: seq<Message>, c: ClientID)
    requires |q| > 0
    ensures HasJoin(q, c) <==> IsJoin(q[0], c) || HasJoin(q[1..], c)
    ensures Leave(c) in q <==> q[0] == Leave(c) || Leave(c) in q[1..]
    ensures LeaveFollows(q, c) ==> LeaveFollows(q[1..], c) && (IsJoin(q[0], c) ==> Leave(c) in q[1..])
  {
    if HasJoin(q, c) && !IsJoin(q[0], c) {
      var p :| 0 <= p < |q| && IsJoin(q[p], c);
      assert IsJoin(q[1..][p - 1], c);
    }
    if LeaveFollows(q, c) {
      forall p | 0 <= p < |q[1..]| && IsJoin(q[1..][p], c) ensures Leave(c) in q[1..][p..] {
        assert q[1..][p..] == q[p + 1..];
        assert IsJoin(q[p + 1], c);
      }
      if IsJoin(q[0], c) {
        assert q[0..] == q;
      }
    }
  }

  // ---------------------------------------------------------------- what each step keeps

  lemma {:induction false} PublishedKeeps(s: State, r: State, m: Message, c: ClientID)
    requires r.queues == Published(s.queues, m) && !IsJoin(m, c) && m != Leave(c)
    requires r.roomClients == s.roomClients
    requires c in r.joined <==> c in s.joined
    requires c in r.left <==> c in s.left
    requires c in r.leaving <==> c in s.leaving
    ensures PresentIsListed(s, c) ==> PresentIsListed(r, c)
    ensures LeavesFollow(s, c) ==> LeavesFollow(r, c)
    ensures GoneIsDropped(s, c) ==> GoneIsDropped(r, c)
    ensures forall i :: i in s.queues ==> About(r.queues[i], c) == About(s.queues[i], c)
  {
    hide HasJoin, LeaveFollows;
    forall i | i in s.queues
      ensures r.queues[i] == s.queues[i] + [m]
      ensures HasJoin(r.queues[i], c) == HasJoin(s.queues[i], c)
      ensures Leave(c) in r.queues[i] <==> Leave(c) in s.queues[i]
      ensures LeaveFollows(s.queues[i], c) ==> LeaveFollows(r.queues[i], c)
    {
      Push(s.queues[i], m, c);
    }
    if c in s.left && c !in s.leaving && c in s.roomClients && GoneIsDropped(s, c) {
      var i :| i in s.queues && Leave(c) in s.queues[i];
      assert Leave(c) in r.queues[i];
    }
  }

  lemma {:induction false} UnknownIsUnheard(s: State, c: ClientID)
    requires Known(s) && c !in s.joined
    ensures forall i :: i in s.queues ==> !HasJoin(s.queues[i], c) && Leave(c) !in s.queues[i]
  {
    forall i | i in s.queues ensures !About(s.queues[i], c) {
    }
  }

  lemma {:induction false} PublishedKnown(s: State, m: Message, joined: set<ClientID>)
    requires Known(s) && s.joined <= joined
    requires forall c :: IsJoin(m, c) || m == Leave(c) ==> c in joined
    ensures forall i, c :: i in Published(s.queues, m) && About(Published(s.queues, m)[i], c) ==> c in joined
  {
    hide HasJoin;
    forall i, c | i in Published(s.queues, m) && About(Published(s.queues, m)[i], c) ensures c in joined {
      Push(s.queues[i], m, c);
      assert About(s.queues[i], c) ==> c in s.joined;
    }
  }

  lemma {:induction false} JoinsKeeps(s: State, i: Instance, c: ClientID, m: Metadata)
    requires Listed(s) && Possible(s, ClientJoins(i, c, m))
    ensures Listed(Step(s, ClientJoins(i, c, m)))
    ensures forall d :: GoneIsDropped(s, d) ==> GoneIsDropped(Step(s, ClientJoins(i, c, m)), d)
  {
    hide HasJoin, About, LeaveFollows;
    var r := Step(s, ClientJoins(i, c, m));
    PublishedKnown(s, Join(c, m), r.joined);
    UnknownIsUnheard(s, c);
    forall j | j in s.queues ensures HasJoin(r.queues[j], c) && Leave(c) !in r.queues[j] {
      Push(s.queues[j], Join(c, m), c);
    }
    hide Known;
    forall d ensures PresentIsListed(r, d) && LeavesFollow(r, d) && (GoneIsDropped(s, d) ==> GoneIsDropped(r, d)) {
      assert PresentIsListed(s, d) && LeavesFollow(s, d);
      if d != c {
        PublishedKeeps(s, r, Join(c, m), d);
      }
    }
  }

  lemma {:induction false} DeletedKeeps(s: State, i: Instance, c: ClientID)
    requires Listed(s) && Possible(s, ClientIsDeleted(i, c))
    ensures Listed(Step(s, ClientIsDeleted(i, c)))
    ensures forall d :: GoneIsDropped(s, d) ==> GoneIsDropped(Step(s, ClientIsDeleted(i, c)), d)
  {
    hide HasJoin, About, LeaveFollows;
    var r := Step(s, ClientIsDeleted(i, c));
    forall d ensures PresentIsListed(r, d) && LeavesFollow(r, d) && (GoneIsDropped(s, d) ==> GoneIsDropped(r, d)) {
      assert PresentIsListed(s, d) && LeavesFollow(s, d);
    }
  }

  lemma {:induction false} LeaveKeeps(s: State, c: ClientID)
    requires Listed(s) && Possible(s, LeaveIsBroadcast(c))
    ensures Listed(Step(s, LeaveIsBroadcast(c)))
    ensures forall d :: GoneIsDropped(s, d) ==> GoneIsDropped(Step(s, LeaveIsBroadcast(c)), d)
  {
    hide HasJoin, About, LeaveFollows;
    var r := Step(s, LeaveIsBroadcast(c));
    PublishedKnown(s, Leave(c), r.joined);
    forall j | j in s.queues ensures Leave(c) in r.queues[j] && LeaveFollows(r.queues[j], c) {
      Push(s.queues[j], Leave(c), c);
    }
    var any :| any in s.queues;
    assert Leave(c) in r.queues[any] && GoneIsDropped(r, c);
    assert c in s.left;
    forall d ensures PresentIsListed(r, d) && LeavesFollow(r, d) && (GoneIsDropped(s, d) ==> GoneIsDropped(r, d)) {
      assert PresentIsListed(s, d) && LeavesFollow(s, d);
      if d != c {
        PublishedKeeps(s, r, Leave(c), d);
      }
    }
  }

  lemma {:induction false} MetadataKeeps(s: State, c: ClientID, m: Metadata)
    requires Listed(s) && Possible(s, MetadataSet(c, m))
    ensures Listed(Step(s, MetadataSet(c, m)))
    ensures forall d :: GoneIsDropped(s, d) ==> GoneIsDropped(Step(s, MetadataSet(c, m)), d)
  {
    hide HasJoin, About, LeaveFollows;
    var r := Step(s, MetadataSet(c, m));
    forall d ensures PresentIsListed(r, d) && LeavesFollow(r, d) && (GoneIsDropped(s, d) ==> GoneIsDropped(r, d)) {
      assert PresentIsListed(s, d) && LeavesFollow(s, d);
    }
  }

  lemma {:induction false} OtherKeeps(s: State)
    requires Listed(s)
    ensures Listed(Step(s, OtherBroadcast))
    ensures forall d :: GoneIsDropped(s, d) ==> GoneIsDropped(Step(s, OtherBroadcast), d)
  {
    hide HasJoin, About, LeaveFollows;
    var r := Step(s, OtherBroadcast);
    PublishedKnown(s, Other, r.joined);
    forall d ensures PresentIsListed(r, d) && LeavesFollow(r, d) && (GoneIsDropped(s, d) ==> GoneIsDropped(r, d)) {
      assert PresentIsListed(s, d) && LeavesFollow(s, d);
      PublishedKeeps(s, r, Other, d);
    }
  }

  lemma {:induction false} HandledKnown(s: State, i: Instance, broken: set<ClientID>)
    requires Known(s) && Possible(s, MessageHandled(i, broken))
    ensures Known(Step(s, MessageHandled(i, broken)))
  {
    hide HasJoin;
    var r := Step(s, MessageHandled(i, broken));
    forall j, c | j in r.queues && About(r.queues[j], c) ensures c in r.joined {
      if j == i {
        Pop(s.queues[i], c);
      }
      assert About(s.queues[j], c);
    }
    if s.queues[i][0].Join? {
      Pop(s.queues[i], s.queues[i][0].clientID);
      assert About(s.queues[i], s.queues[i][0].clientID);
    }
  }

  lemma {:induction false} HandledPresent(s: State, i: Instance, broken: set<ClientID>, c: ClientID)
    requires PresentIsListed(s, c) && Possible(s, MessageHandled(i, broken))
    ensures PresentIsListed(Step(s, MessageHandled(i, broken)), c)
  {
    hide HasJoin;
    Pop(s.queues[i], c);
  }

  lemma {:induction false} HandledFollows(s: State, i: Instance, broken: set<ClientID>, c: ClientID)
    requires LeavesFollow(s, c) && Possible(s, MessageHandled(i, broken))
    ensures LeavesFollow(Step(s, MessageHandled(i, broken)), c)
  {
    hide LeaveFollows;
    Pop(s.queues[i], c);
  }

  lemma {:induction false} HandledGone(s: State, i: Instance, broken: set<ClientID>, c: ClientID)
    requires GoneIsDropped(s, c) && LeavesFollow(s, c) && Possible(s, MessageHandled(i, broken))
    requires s.queues[i][0].Leave? ==> s.clients[i] !! broken
    ensures GoneIsDropped(Step(s, MessageHandled(i, broken)), c)
  {
    hide HasJoin, LeaveFollows;
    Pop(s.queues[i], c);
    var r := Step(s, MessageHandled(i, broken));
    assert forall j :: j in s.queues && j != i ==> r.queues[j] == s.queues[j];
    if c in s.left && c !in s.leaving && c in r.roomClients {
      if IsJoin(s.queues[i][0], c) {
        assert Leave(c) in r.queues[i];
      } else {
        var j :| j in s.queues && Leave(c) in s.queues[j];
        assert Leave(c) in r.queues[j];
      }
    }
  }

  /** No local socket fails while a leave is handled. */
  predicate Succeeds(s: State, a: Action)
    requires Possible(s, a)
  {
    a.MessageHandled? && s.queues[a.instance][0].Leave? ==> s.clients[a.instance] !! a.broken
  }

  lemma {:induction false} StepKeepsListed(s: State, a: Action)
    requires Listed(s) && Possible(s, a)
    ensures Listed(Step(s, a))
    ensures forall c :: Succeeds(s, a) && GoneIsDropped(s, c) ==> GoneIsDropped(Step(s, a), c)
  {
    hide Known, PresentIsListed, LeavesFollow, GoneIsDropped;
    match a
    case ClientJoins(i, c, m) => JoinsKeeps(s, i, c, m);
    case ClientIsDeleted(i, c) => DeletedKeeps(s, i, c);
    case LeaveIsBroadcast(c) => LeaveKeeps(s, c);
    case MetadataSet(c, m) => MetadataKeeps(s, c, m);
    case OtherBroadcast => OtherKeeps(s);
    case MessageHandled(i, broken) =>
      HandledKnown(s, i, broken);
      forall c
        ensures PresentIsListed(Step(s, a), c) && LeavesFollow(Step(s, a), c)
        ensures Succeeds(s, a) && GoneIsDropped(s, c) ==> GoneIsDropped(Step(s, a), c)
      {
        HandledPresent(s, i, broken, c);
        HandledFollows(s, i, broken, c);
        if Succeeds(s, a) && GoneIsDropped(s, c) {
          HandledGone(s, i, broken, c);
        }
      }
  }

  // ---------------------------------------------------------------- whole runs

  ghost predicate Reaches(s: State, actions: seq<Action>, r: State)
    decreases |actions|
  {
    if |actions| == 0 then s == r
    else Possible(s, actions[0]) && Reaches(Step(s, actions[0]), actions[1..], r)
  }

  ghost predicate AllSucceed(s: State, actions: seq<Action>)
    decreases |actions|
  {
    |actions| > 0 && Possible(s, actions[0]) ==>
      Succeeds(s, actions[0]) && AllSucceed(Step(s, actions[0]), actions[1..])
  }

  lemma {:induction false} RunKeeps(s: State, actions: seq<Action>, r: State)
    requires Listed(s) && Reaches(s, actions, r)
    ensures Listed(r)
    ensures forall c :: AllSucceed(s, actions) && GoneIsDropped(s, c) ==> GoneIsDropped(r, c)
    decreases |actions|
  {
    hide Listed, GoneIsDropped, Step, Possible, Succeeds;
    if |actions| > 0 {
      StepKeepsListed(s, actions[0]);
      RunKeeps(Step(s, actions[0]), actions[1..], r);
    }
  }

  lemma {:induction false} StartIsListed(instances: set<Instance>)
    ensures Listed(Start(instances)) && forall c :: GoneIsDropped(Start(instances), c)
  {
  }

  /** Every instance has read all its messages, and every leave that was begun is broadcast. */
  predicate Drained(s: State) {
    s.leaving == {} && forall i :: i in s.queues ==> s.queues[i] == []
  }

  lemma {:induction false} DrainedIsSilent(s: State)
    requires Drained(s)
    ensures forall i, c :: i in s.queues ==> !HasJoin(s.queues[i], c)
    ensures forall i, c :: i in s.queues ==> Leave(c) !in s.queues[i]
  {
    forall i, c | i in s.queues ensures !HasJoin(s.queues[i], c) {
      assert s.queues[i] == [];
    }
  }

  /** Once everything is drained, the hash lists exactly the clients that joined and have not left. */
  lemma {:induction false} DrainedIsExact(instances: set<Instance>, actions: seq<Action>, s: State)
    requires Reaches(Start(instances), actions, s) && AllSucceed(Start(instances), actions) && Drained(s)
    ensures s.roomClients.Keys == s.joined - s.left
  {
    hide Reaches, AllSucceed, HasJoin, LeaveFollows;
    DrainedIsSilent(s);
    StartIsListed(instances);
    RunKeeps(Start(instances), actions, s);
    forall c ensures c in s.roomClients <==> c in s.joined && c !in s.left {
      assert PresentIsListed(s, c);
      assert GoneIsDropped(Start(instances), c) && GoneIsDropped(s, c);
    }
  }

  /** Whether or not sockets fail, no present client is missing once everything is drained. */
  lemma {:induction false} DrainedMissesNobody(instances: set<Instance>, actions: seq<Action>, s: State)
    requires Reaches(Start(instances), actions, s) && Drained(s)
    ensures s.joined - s.left <= s.roomClients.Keys <= s.joined
  {
    hide Reaches, HasJoin, LeaveFollows;
    DrainedIsSilent(s);
    StartIsListed(instances);
    RunKeeps(Start(instances), actions, s);
    forall c | c in s.joined && c !in s.left ensures c in s.roomClients {
      assert PresentIsListed(s, c);
    }
  }

  // ---------------------------------------------------------------- who lingers

  /** Nobody will take this client out of the hash, nor put it in again. */
  ghost predicate Lingers(s: State, c: ClientID) {
    c in s.roomClients && forall i :: i in s.queues ==> Leave(c) !in s.queues[i]
  }

  predicate Gone(s: State, c: ClientID) {
    c in s.left && c !in s.leaving
  }

  lemma {:induction false} GoneStays(s: State, a: Action, c: ClientID)
    requires Listed(s) && Possible(s, a) && Gone(s, c)
    ensures Gone(Step(s, a), c)
    ensures Lingers(s, c) ==> Lingers(Step(s, a), c)
  {
    hide HasJoin, About, LeaveFollows;
    assert LeavesFollow(s, c);
    match a
    case MessageHandled(i, broken) => Pop(s.queues[i], c);
    case _ =>
  }

  lemma {:induction false} GoneRuns(s: State, actions: seq<Action>, r: State, c: ClientID)
    requires Listed(s) && Reaches(s, actions, r) && Gone(s, c)
    ensures Gone(r, c)
    ensures Lingers(s, c) ==> Lingers(r, c)
    decreases |actions|
  {
    hide Listed, Lingers, Gone, Step, Possible;
    if |actions| > 0 {
      StepKeepsListed(s, actions[0]);
      GoneStays(s, actions[0], c);
      GoneRuns(Step(s, actions[0]), actions[1..], r, c);
    }
  }

  /**
   Whatever sockets failed so far: from now on, with working sockets, a client that is gone is in the drained hash
   if and only if it is in the hash now and no instance has its leave still to handle.
   */
  lemma {:induction false} LingersExact(instances: set<Instance>, past: seq<Action>, s: State, c: ClientID,
                                        actions: seq<Action>, r: State)
    requires Reaches(Start(instances), past, s) && Gone(s, c)
    requires Reaches(s, actions, r) && AllSucceed(s, actions) && Drained(r)
    ensures c in r.roomClients <==> c in s.roomClients && forall i :: i in s.queues ==> Leave(c) !in s.queues[i]
  {
    hide Reaches, AllSucceed, HasJoin, LeaveFollows;
    StartIsListed(instances);
    RunKeeps(Start(instances), past, s);
    RunKeeps(s, actions, r);
    GoneRuns(s, actions, r, c);
    DrainedIsSilent(r);
    assert Lingers(s, c) || GoneIsDropped(s, c);
  }

  // ---------------------------------------------------------------- whether metadata lasts

  /** Every join of the client that is still to be replayed carries this metadata. */
  predicate Carries(q: seq<Message>, c: ClientID, m: Metadata) {
    forall p :: 0 <= p < |q| && IsJoin(q[p], c) ==> q[p].metadata == m
  }

  predicate LeavesAlone(a: Action, c: ClientID) {
    !(a.MetadataSet? && a.clientID == c) && !(a.ClientIsDeleted? && a.clientID == c)
  }

  predicate AllLeaveAlone(actions: seq<Action>, c: ClientID) {
    forall k :: 0 <= k < |actions| ==> LeavesAlone(actions[k], c)
  }

  /** The client is present with metadata m, and nothing on its way says otherwise. */
  ghost predicate Lasting(s: State, c: ClientID, m: Metadata) {
    && c in s.joined && c !in s.left
    && c in s.roomClients && s.roomClients[c] == m
    && forall i :: i in s.queues ==> Carries(s.queues[i], c, m)
  }

  lemma {:induction false} CarriesOn(q: seq<Message>, x: Message, c: ClientID, m: Metadata)
    ensures Carries(q, c, m) && !IsJoin(x, c) ==> Carries(q + [x], c, m)
    ensures Carries(q, c, m) && |q| > 0 ==> Carries(q[1..], c, m) && (IsJoin(q[0], c) ==> q[0].metadata == m)
  {
    if Carries(q, c, m) && |q| > 0 {
      forall p | 0 <= p < |q[1..]| && IsJoin(q[1..][p], c) ensures q[1..][p].metadata == m {
        assert IsJoin(q[p + 1], c);
      }
    }
  }

  lemma {:induction false} PublishedCarries(s: State, x: Message, c: ClientID, m: Metadata)
    requires forall i :: i in s.queues ==> Carries(s.queues[i], c, m)
    requires !IsJoin(x, c)
    ensures forall i :: i in s.queues ==> Carries(Published(s.queues, x)[i], c, m)
  {
    hide Carries;
    forall i | i in s.queues ensures Carries(Published(s.queues, x)[i], c, m) {
      CarriesOn(s.queues[i], x, c, m);
    }
  }

  lemma {:induction false} LastingStays(s: State, a: Action, c: ClientID, m: Metadata)
    requires Listed(s) && Lasting(s, c, m) && Possible(s, a) && LeavesAlone(a, c)
    ensures Lasting(Step(s, a), c, m)
  {
    hide HasJoin, About, LeaveFollows, Carries, Known;
    assert PresentIsListed(s, c);
    LeavingHasLeft(s);
    match a
    case ClientJoins(i, d, metadata) => PublishedCarries(s, Join(d, metadata), c, m);
    case LeaveIsBroadcast(d) => PublishedCarries(s, Leave(d), c, m);
    case OtherBroadcast => PublishedCarries(s, Other, c, m);
    case MessageHandled(i, broken) =>
      CarriesOn(s.queues[i], Other, c, m);
      assert s.queues[i][0] in s.queues[i];
    case _ =>
  }

  lemma {:induction false} LeavingHasLeft(s: State)
    requires Known(s)
    ensures s.leaving <= s.left <= s.joined
  {
  }

  lemma {:induction false} LastingRuns(s: State, actions: seq<Action>, r: State, c: ClientID, m: Metadata)
    requires Listed(s) && Lasting(s, c, m) && Reaches(s, actions, r) && AllLeaveAlone(actions, c)
    ensures Lasting(r, c, m)
    decreases |actions|
  {
    hide Listed, Lasting, Step, Possible, LeavesAlone;
    if |actions| > 0 {
      StepKeepsListed(s, actions[0]);
      LastingStays(s, actions[0], c, m);
      LastingRuns(Step(s, actions[0]), actions[1..], r, c, m);
    }
  }

  /** An instance that replays its queue up to a join puts that join's metadata into the hash. */
  lemma {:induction false} ReplaysUpTo(s: State, i: Instance, p: nat, c: ClientID)
    returns (actions: seq<Action>, r: State)
    requires i in s.clients && i in s.queues && p < |s.queues[i]| && IsJoin(s.queues[i][p], c)
    ensures Reaches(s, actions, r) && AllLeaveAlone(actions, c)
    ensures c in r.roomClients && r.roomClients[c] == s.queues[i][p].metadata
    decreases p
  {
    var a := MessageHandled(i, {});
    var next := Step(s, a);
    if p == 0 {
      actions, r := [a], next;
      assert Reaches(next, [], next);
      Onward(s, a, [], next);
      assert [a] + [] == [a];
    } else {
      var rest: seq<Action>;
      rest, r := ReplaysUpTo(next, i, p - 1, c);
      actions := [a] + rest;
      Onward(s, a, rest, r);
    }
  }

  lemma {:induction false} Onward(s: State, a: Action, actions: seq<Action>, r: State)
    requires Possible(s, a) && Reaches(Step(s, a), actions, r)
    ensures Reaches(s, [a] + actions, r)
  {
    assert ([a] + actions)[1..] == actions;
  }

  /** The metadata stays what it was set to until it is set again or the client leaves. */
  ghost predicate MetadataLasts(s: State, c: ClientID, m: Metadata) {
    forall actions, r :: Reaches(s, actions, r) && AllLeaveAlone(actions, c) ==>
      c in r.roomClients && r.roomClients[c] == m
  }

  /** It does if and only if no instance has a join of the client with other metadata still to replay. */
  lemma {:induction false} MetadataLastsExact(instances: set<Instance>, past: seq<Action>, s: State, c: ClientID,
                                              m: Metadata)
    requires Reaches(Start(instances), past, s) && Possible(s, MetadataSet(c, m))
    ensures MetadataLasts(Step(s, MetadataSet(c, m)), c, m) <==>
            forall i :: i in s.queues ==> Carries(s.queues[i], c, m)
  {
    hide Reaches, Listed, Known;
    var after := Step(s, MetadataSet(c, m));
    StartIsListed(instances);
    RunKeeps(Start(instances), past, s);
    StepKeepsListed(s, MetadataSet(c, m));
    if forall i :: i in s.queues ==> Carries(s.queues[i], c, m) {
      forall actions, r | Reaches(after, actions, r) && AllLeaveAlone(actions, c)
        ensures c in r.roomClients && r.roomClients[c] == m
      {
        LastingRuns(after, actions, r, c, m);
      }
    } else {
      var i :| i in s.queues && !Carries(s.queues[i], c, m);
      var p :| 0 <= p < |s.queues[i]| && IsJoin(s.queues[i][p], c) && s.queues[i][p].metadata != m;
      SameInstances(s);
      var actions, r := ReplaysUpTo(after, i, p, c);
    }
  }

  lemma {:induction false} SameInstances(s: State)
    requires Listed(s)
    ensures s.clients.Keys == s.queues.Keys
  {
  }

  // ---------------------------------------------------------------- what the hash cannot promise

  ghost predicate CanReach(s: State, r: State) {
    exists actions :: Reaches(s, actions, r)
  }

  lemma {:induction false} Before(s: State, a: Action, r: State)
    requires Possible(s, a) && CanReach(Step(s, a), r)
    ensures CanReach(s, r)
  {
    var actions :| Reaches(Step(s, a), actions, r);
    Onward(s, a, actions, r);
  }

  lemma {:induction false} PublishedToOne(i: Instance, q: seq<Message>, m: Message)
    ensures Published(map[i := q], m) == map[i := q + [m]]
  {
  }

  /** Client a was deleted before its join was replayed, and its leave was skipped because of the socket of b. */
  function Haunted(): State {
    State(map["1" := {"b"}], map["a" := "", "b" := ""], map["1" := []], {"a", "b"}, {}, {"a"})
  }

  /** Just before: everything was broadcast, and nothing handled. */
  function Unread(): State {
    State(map["1" := {"b"}], map[], map["1" := [Join("a", ""), Join("b", ""), Leave("a")]], {"a", "b"}, {}, {"a"})
  }

  lemma {:induction false} UnreadHaunts()
    ensures CanReach(Unread(), Haunted())
  {
    var h := MessageHandled("1", {});
    var one := Step(Unread(), h);
    assert one.roomClients == map["a" := ""] && one.queues["1"] == [Join("b", ""), Leave("a")];
    var two := Step(one, h);
    assert two.roomClients == map["a" := "", "b" := ""] && two.queues["1"] == [Leave("a")];
    var three := Step(two, MessageHandled("1", {"b"}));
    assert "b" in two.clients["1"] && three.queues["1"] == [];
    assert three == Haunted();
    assert Reaches(three, [], Haunted());
    hide Step, Possible, Haunted, Reaches;
    Before(two, MessageHandled("1", {"b"}), Haunted());
    Before(one, h, Haunted());
    Before(Unread(), h, Haunted());
  }

  /** Both clients joined, and nothing was handled. */
  function BothJoined(): State {
    State(map["1" := {"a", "b"}], map[], map["1" := [Join("a", ""), Join("b", "")]], {"a", "b"}, {}, {})
  }

  lemma {:induction false} BothJoinedIsReached(r: State)
    requires CanReach(BothJoined(), r)
    ensures CanReach(Start({"1"}), r)
  {
    var start, a, b := Start({"1"}), ClientJoins("1", "a", ""), ClientJoins("1", "b", "");
    assert start.clients == map["1" := {}] && start.queues == map["1" := []];
    assert [] + [Join("a", "")] == [Join("a", "")];
    assert [Join("a", "")] + [Join("b", "")] == [Join("a", ""), Join("b", "")];
    PublishedToOne("1", [], Join("a", ""));
    PublishedToOne("1", [Join("a", "")], Join("b", ""));
    hide Published, CanReach;
    var one := Step(start, a);
    assert one.clients["1"] == {"a"};
    assert one.queues == map["1" := [Join("a", "")]];
    var two := Step(one, b);
    assert two.clients["1"] == {"a", "b"};
    assert two == BothJoined();
    Before(one, b, r);
    Before(start, a, r);
  }

  lemma {:induction false} UnreadIsReached(r: State)
    requires CanReach(Unread(), r)
    ensures CanReach(BothJoined(), r)
  {
    assert [Join("a", ""), Join("b", "")] + [Leave("a")] == [Join("a", ""), Join("b", ""), Leave("a")];
    PublishedToOne("1", [Join("a", ""), Join("b", "")], Leave("a"));
    hide Published, CanReach;
    var three := Step(BothJoined(), ClientIsDeleted("1", "a"));
    assert three.clients["1"] == {"b"};
    var four := Step(three, LeaveIsBroadcast("a"));
    assert four == Unread();
    Before(three, LeaveIsBroadcast("a"), r);
    Before(BothJoined(), ClientIsDeleted("1", "a"), r);
  }

  /** A socket that fails while a leave is handled can leave a client in the hash for good. */
  lemma {:induction false} FailedWriteHaunts()
    ensures CanReach(Start({"1"}), Haunted())
    ensures Drained(Haunted()) && "a" in Haunted().roomClients && "a" !in Haunted().joined - Haunted().left
  {
    UnreadHaunts();
    UnreadIsReached(Haunted());
    BothJoinedIsReached(Haunted());
  }

  /** Instance 1 has replayed the join of its client, instance 2 has not. */
  function HalfReplayed(): State {
    State(map["1" := {"a"}, "2" := {}], map["a" := "old"], map["1" := [], "2" := [Join("a", "old")]], {"a"}, {}, {})
  }

  lemma {:induction false} HalfReplayedIsReached()
    ensures CanReach(Start({"1", "2"}), HalfReplayed())
  {
    var start, a, h := Start({"1", "2"}), ClientJoins("1", "a", "old"), MessageHandled("1", {});
    var one := Step(start, a);
    assert [] + [Join("a", "old")] == [Join("a", "old")];
    assert one.clients["1"] == {"a"} && one.clients["2"] == {};
    assert one.queues == map["1" := [Join("a", "old")], "2" := [Join("a", "old")]];
    var two := Step(one, h);
    assert two.queues == map["1" := [], "2" := [Join("a", "old")]];
    assert two.roomClients == map["a" := "old"];
    assert two == HalfReplayed();
    assert Reaches(two, [], HalfReplayed());
    hide Step, HalfReplayed, Reaches;
    Before(one, h, HalfReplayed());
    Before(start, a, HalfReplayed());
  }

  /** A late replay forgets: the metadata set between the two replays is gone, for good. */
  lemma {:induction false} LateReplayForgets()
    returns (last: State)
    ensures CanReach(Start({"1", "2"}), HalfReplayed()) && Possible(HalfReplayed(), MetadataSet("a", "new"))
    ensures CanReach(Step(HalfReplayed(), MetadataSet("a", "new")), last)
    ensures Drained(last) && last.roomClients == map["a" := "old"]
  {
    HalfReplayedIsReached();
    var after, h := Step(HalfReplayed(), MetadataSet("a", "new")), MessageHandled("2", {});
    last := Step(after, h);
    assert last.queues["1"] == [] && last.queues["2"] == [];
    assert last.roomClients == map["a" := "old"];
    assert Reaches(last, [], last);
    Before(after, h, last);
  }
}
