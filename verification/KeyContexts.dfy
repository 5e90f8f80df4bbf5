/**
 The decryption keys of received tracks: one context per mid, renewed when the password, the metadata or the
 sender of the track changes, while the keys are derived in the background and arrive late.
 */
module KeyContexts {
  import opened Wrappers

  type Mid = string
  type UserId = seq<byte>
  type Password = seq<byte>

  /** PBKDF2 from a password and a salt. */
  datatype Env = Env(url: seq<byte>, derive: (Password, seq<byte>) -> Key)

  datatype Key = Key(bytes: seq<byte>)

  datatype TrackMetadata = TrackMetadata(mid: Mid, userId: UserId)

  /** Objects are compared by identity: here, the number of the event that created the context. */
  datatype Context = Context(id: nat, userId: UserId, password: Password, key: Option<Key>)

  /** A key being derived for a context. */
  datatype Derivation = Derivation(mid: Mid, id: nat, userId: UserId, password: Password)

  datatype State = State(
    clock: nat,
    password: Password,
    metadataByMid: map<Mid, UserId>,
    contexts: map<Mid, Context>,
    pending: set<Derivation>,
    regenerations: nat)

  const START: State := State(0, [], map[], map[], {}, 0)

  function Salt(url: seq<byte>, userId: UserId): seq<byte> {
    url + [0] + userId
  }

  /** Under one url, users have different salts. */
  lemma {:induction false} SaltInjective(url: seq<byte>, a: UserId, b: UserId)
    ensures Salt(url, a) == Salt(url, b) <==> a == b
  {
    assert Salt(url, a)[|url| + 1..] == a;
    assert Salt(url, b)[|url| + 1..] == b;
  }

  function KeyFor(env: Env, c: Context): Key {
    env.derive(c.password, Salt(env.url, c.userId))
  }

  /** The url, a zero byte, the user. */
  lemma {:induction false} SaltExact(url: seq<byte>, userId: UserId)
    ensures |Salt(url, userId)| == |url| + 1 + |userId|
    ensures Salt(url, userId)[..|url|] == url && Salt(url, userId)[|url|] == 0
    ensures Salt(url, userId)[|url| + 1..] == userId
  {
  }

  // ---------------------------------------------------------------- one context

  function GetUserId(metadataByMid: map<Mid, UserId>, mid: Mid, userId: UserId): UserId {
    if mid in metadataByMid then metadataByMid[mid] else userId
  }

  predicate UpToDate(s: State, mid: Mid, userId: UserId) {
    mid in s.contexts && s.contexts[mid].userId == userId && s.contexts[mid].password == s.password
  }

  function Renewed(s: State, mid: Mid, userId: UserId): Context {
    var resolved := GetUserId(s.metadataByMid, mid, userId);
    if UpToDate(s, mid, resolved) then s.contexts[mid] else Context(s.clock, resolved, s.password, None)
  }

  predicate NeedsKey(s: State, mid: Mid, userId: UserId) {
    !UpToDate(s, mid, GetUserId(s.metadataByMid, mid, userId)) && s.password != []
  }

  /** The context of every mid of users is renewed for that user. */
  function RenewAll(s: State, users: map<Mid, UserId>): State {
    s.(contexts := map mid | mid in s.contexts.Keys + users.Keys ::
         if mid in users then Renewed(s, mid, users[mid]) else s.contexts[mid],
       pending := s.pending + set mid | mid in users && NeedsKey(s, mid, users[mid]) :: Request(s, mid, users[mid]))
  }

  function Request(s: State, mid: Mid, userId: UserId): Derivation {
    Derivation(mid, s.clock, GetUserId(s.metadataByMid, mid, userId), s.password)
  }

  // ---------------------------------------------------------------- events

  function KeyBy(metadata: seq<TrackMetadata>, n: nat): map<Mid, UserId>
    requires n <= |metadata|
  {
    if n == 0 then map[] else KeyBy(metadata, n - 1)[metadata[n - 1].mid := metadata[n - 1].userId]
  }

  function Users(s: State): map<Mid, UserId> {
    map mid | mid in s.contexts :: s.contexts[mid].userId
  }

  /** Contexts of mids that are no longer named go; the others follow the new metadata. */
  function WithMetadata(s: State, m: map<Mid, UserId>): State {
    var kept := s.(metadataByMid := m, contexts := map mid | mid in s.contexts && mid in m :: s.contexts[mid]);
    RenewAll(kept, map mid | mid in s.contexts && mid in m :: m[mid])
  }

  function StoreKey(s: State, env: Env, d: Derivation): State {
    if d.mid in s.contexts && s.contexts[d.mid].id == d.id
    then s.(contexts := s.contexts[d.mid :=
              s.contexts[d.mid].(key := Some(env.derive(d.password, Salt(env.url, d.userId))))])
    else s
  }

  datatype Event =
    | PasswordSet(password: Password)
    | MetadataReceived(metadata: seq<TrackMetadata>)
    | TrackReceived(mid: Mid, userId: UserId)
    | Regenerated
    | RegenerationFailed
    | KeyDerived(derivation: Derivation)
    | KeyFailed(derivation: Derivation)

  /** A password event renews the contexts only later, after the encryption key was derived. */
  function React(s: State, env: Env, e: Event): State {
    match e
    case PasswordSet(password) => s.(password := password, regenerations := s.regenerations + 1)
    case MetadataReceived(metadata) => WithMetadata(s, KeyBy(metadata, |metadata|))
    case TrackReceived(mid, userId) => RenewAll(s, map[mid := userId])
    case Regenerated =>
      if s.regenerations == 0 then s else RenewAll(s, Users(s)).(regenerations := s.regenerations - 1)
    case RegenerationFailed =>
      if s.regenerations == 0 then s else s.(regenerations := s.regenerations - 1)
    case KeyDerived(d) =>
      if d in s.pending then StoreKey(s, env, d).(pending := s.pending - {d}) else s
    case KeyFailed(d) => s.(pending := s.pending - {d})
  }

  /** The state after the first n events; an event that cannot happen changes nothing. */
  function After(env: Env, log: seq<Event>, n: nat): State
    requires n <= |log|
  {
    if n == 0 then START
    else
      var s := React(After(env, log, n - 1), env, log[n - 1]);
      s.(clock := s.clock + 1)
  }

  // ---------------------------------------------------------------- what the log alone says

  function CurrentPassword(log: seq<Event>, n: nat): Password
    requires n <= |log|
  {
    if n == 0 then []
    else if log[n - 1].PasswordSet? then log[n - 1].password
    else CurrentPassword(log, n - 1)
  }

  function CurrentMetadata(log: seq<Event>, n: nat): map<Mid, UserId>
    requires n <= |log|
  {
    if n == 0 then map[]
    else if log[n - 1].MetadataReceived? then KeyBy(log[n - 1].metadata, |log[n - 1].metadata|)
    else CurrentMetadata(log, n - 1)
  }

  /** The mids that get a context, with the user that each was last received for. */
  function Received(log: seq<Event>, n: nat): map<Mid, UserId>
    requires n <= |log|
  {
    if n == 0 then map[]
    else
      var before := Received(log, n - 1);
      match log[n - 1]
      case TrackReceived(mid, userId) => before[mid := userId]
      case MetadataReceived(metadata) =>
        map mid | mid in before && mid in KeyBy(metadata, |metadata|) :: before[mid]
      case _ => before
  }

  // ---------------------------------------------------------------- invariants

  /** A key that is there is that of the user and password of its context. */
  ghost predicate Sound(s: State, env: Env) {
    && (forall mid :: mid in s.contexts ==> s.contexts[mid].id < s.clock)
    && (forall mid :: mid in s.contexts && s.contexts[mid].key.Some? ==>
          s.contexts[mid].key.value == KeyFor(env, s.contexts[mid]) && s.contexts[mid].password != [])
    && (forall d :: d in s.pending ==> d.id < s.clock && d.password != [])
    && (forall d :: d in s.pending && d.mid in s.contexts && s.contexts[d.mid].id == d.id ==>
          s.contexts[d.mid].userId == d.userId && s.contexts[d.mid].password == d.password)
  }

  predicate Awaited(s: State, mid: Mid)
    requires mid in s.contexts
  {
    var c := s.contexts[mid];
    c.key.Some? || c.password == [] || Derivation(mid, c.id, c.userId, c.password) in s.pending
  }

  /** Every context belongs to the user the log resolves its mid to. */
  ghost predicate Follows(s: State, log: seq<Event>, n: nat)
    requires n <= |log|
  {
    && s.password == CurrentPassword(log, n)
    && s.metadataByMid == CurrentMetadata(log, n)
    && s.contexts.Keys == Received(log, n).Keys
    && forall mid :: mid in s.contexts ==>
         s.contexts[mid].userId == GetUserId(CurrentMetadata(log, n), mid, Received(log, n)[mid])
  }

  /** As long as nothing failed: keys are there or on their way, and passwords are current or about to be. */
  ghost predicate Progressing(s: State) {
    && (forall mid :: mid in s.contexts ==> Awaited(s, mid))
    && (s.regenerations == 0 ==> forall mid :: mid in s.contexts ==> s.contexts[mid].password == s.password)
  }

  function Ticked(s: State): State {
    s.(clock := s.clock + 1)
  }

  lemma {:induction false} RenewAllSound(s: State, env: Env, users: map<Mid, UserId>)
    requires Sound(s, env)
    ensures Sound(Ticked(RenewAll(s, users)), env)
  {
  }

  lemma {:induction false} RenewAllProgresses(s: State, users: map<Mid, UserId>)
    requires forall mid :: mid in s.contexts ==> Awaited(s, mid)
    ensures forall mid :: mid in RenewAll(s, users).contexts ==> Awaited(RenewAll(s, users), mid)
  {
  }

  lemma {:induction false} ReactSound(s: State, env: Env, e: Event)
    requires Sound(s, env)
    ensures Sound(Ticked(React(s, env, e)), env)
  {
    hide RenewAll, KeyBy;
    match e
    case MetadataReceived(metadata) =>
      var m := KeyBy(metadata, |metadata|);
      var kept := s.(metadataByMid := m, contexts := map mid | mid in s.contexts && mid in m :: s.contexts[mid]);
      RenewAllSound(kept, env, map mid | mid in s.contexts && mid in m :: m[mid]);
    case TrackReceived(mid, userId) =>
      RenewAllSound(s, env, map[mid := userId]);
    case Regenerated =>
      RenewAllSound(s, env, Users(s));
    case _ =>
  }

  /** A key that is there always fits its context, whatever happens in between and however late it comes. */
  lemma {:induction false} KeysAreSound(env: Env, log: seq<Event>, n: nat)
    requires n <= |log|
    ensures Sound(After(env, log, n), env)
  {
    hide React;
    if n > 0 {
      KeysAreSound(env, log, n - 1);
      ReactSound(After(env, log, n - 1), env, log[n - 1]);
    }
  }

  lemma {:induction false} RenewAllUsers(s: State, users: map<Mid, UserId>)
    ensures var r := RenewAll(s, users);
            && r.password == s.password && r.metadataByMid == s.metadataByMid && r.regenerations == s.regenerations
            && r.contexts.Keys == s.contexts.Keys + users.Keys
            && forall mid :: mid in r.contexts ==>
                 r.contexts[mid].userId ==
                 if mid in users then GetUserId(s.metadataByMid, mid, users[mid]) else s.contexts[mid].userId
  {
  }

  lemma {:induction false} MetadataFollows(s: State, log: seq<Event>, n: nat)
    requires 0 < n <= |log| && Follows(s, log, n - 1) && log[n - 1].MetadataReceived?
    ensures Follows(Ticked(WithMetadata(s, KeyBy(log[n - 1].metadata, |log[n - 1].metadata|))), log, n)
  {
    hide RenewAll, KeyBy;
    var m := KeyBy(log[n - 1].metadata, |log[n - 1].metadata|);
    var kept := s.(metadataByMid := m, contexts := map mid | mid in s.contexts && mid in m :: s.contexts[mid]);
    var users := map mid | mid in s.contexts && mid in m :: m[mid];
    RenewAllUsers(kept, users);
    assert kept.contexts.Keys + users.Keys == Received(log, n).Keys;
  }

  lemma {:induction false} TrackFollows(s: State, log: seq<Event>, n: nat)
    requires 0 < n <= |log| && Follows(s, log, n - 1) && log[n - 1].TrackReceived?
    ensures Follows(Ticked(RenewAll(s, map[log[n - 1].mid := log[n - 1].userId])), log, n)
  {
    hide RenewAll, KeyBy;
    RenewAllUsers(s, map[log[n - 1].mid := log[n - 1].userId]);
  }

  lemma {:induction false} RegeneratedFollows(s: State, log: seq<Event>, n: nat)
    requires 0 < n <= |log| && Follows(s, log, n - 1) && log[n - 1].Regenerated?
    ensures forall k :: Follows(RenewAll(s, Users(s)).(regenerations := k), log, n)
    ensures Follows(s, log, n)
  {
    hide RenewAll, KeyBy;
    RenewAllUsers(s, Users(s));
    assert s.contexts.Keys + Users(s).Keys == s.contexts.Keys;
  }

  lemma {:induction false} ReactFollows(s: State, env: Env, log: seq<Event>, n: nat)
    requires 0 < n <= |log| && Follows(s, log, n - 1)
    ensures Follows(Ticked(React(s, env, log[n - 1])), log, n)
  {
    hide RenewAll, KeyBy, WithMetadata;
    match log[n - 1]
    case MetadataReceived(metadata) =>
      MetadataFollows(s, log, n);
    case TrackReceived(mid, userId) =>
      TrackFollows(s, log, n);
    case Regenerated =>
      RegeneratedFollows(s, log, n);
    case _ =>
  }

  lemma {:induction false} ContextsFollow(env: Env, log: seq<Event>, n: nat)
    requires n <= |log|
    ensures Follows(After(env, log, n), log, n)
  {
    hide React;
    if n > 0 {
      ContextsFollow(env, log, n - 1);
      hide Follows;
      ReactFollows(After(env, log, n - 1), env, log, n);
    }
  }

  lemma {:induction false} RenewAllPasswords(s: State, users: map<Mid, UserId>)
    ensures forall mid :: mid in users ==> RenewAll(s, users).contexts[mid].password == s.password
    ensures forall mid :: mid in s.contexts && mid !in users ==> RenewAll(s, users).contexts[mid] == s.contexts[mid]
    ensures RenewAll(s, users).contexts.Keys == s.contexts.Keys + users.Keys
    ensures RenewAll(s, users).password == s.password && RenewAll(s, users).regenerations == s.regenerations
  {
  }

  lemma {:induction false} RenewProgressing(s: State, users: map<Mid, UserId>)
    requires Progressing(s)
    ensures Progressing(RenewAll(s, users))
  {
    hide RenewAll, Awaited;
    RenewAllProgresses(s, users);
    RenewAllPasswords(s, users);
  }

  lemma {:induction false} ReactProgresses(s: State, env: Env, e: Event)
    requires Progressing(s) && Sound(s, env) && !e.RegenerationFailed? && !e.KeyFailed?
    ensures Progressing(Ticked(React(s, env, e)))
  {
    hide RenewAll, KeyBy;
    match e
    case MetadataReceived(metadata) =>
      var m := KeyBy(metadata, |metadata|);
      var kept := s.(metadataByMid := m, contexts := map mid | mid in s.contexts && mid in m :: s.contexts[mid]);
      RenewProgressing(kept, map mid | mid in s.contexts && mid in m :: m[mid]);
    case TrackReceived(mid, userId) =>
      RenewProgressing(s, map[mid := userId]);
    case Regenerated =>
      RenewAllProgresses(s, Users(s));
      RenewAllPasswords(s, Users(s));
    case _ =>
  }

  ghost predicate NoFailure(log: seq<Event>, n: nat)
    requires n <= |log|
  {
    forall i :: 0 <= i < n ==> !log[i].RegenerationFailed? && !log[i].KeyFailed?
  }

  lemma {:induction false} ContextsProgress(env: Env, log: seq<Event>, n: nat)
    requires n <= |log| && NoFailure(log, n)
    ensures Progressing(After(env, log, n))
  {
    hide React, Sound, Awaited;
    if n > 0 {
      ContextsProgress(env, log, n - 1);
      KeysAreSound(env, log, n - 1);
      ReactProgresses(After(env, log, n - 1), env, log[n - 1]);
    }
  }

  // ---------------------------------------------------------------- the same in terms of the events alone

  predicate Names(metadata: seq<TrackMetadata>, mid: Mid) {
    exists i :: 0 <= i < |metadata| && metadata[i].mid == mid
  }

  /** Entry i is the last of the first n entries that names the mid. */
  predicate LastNaming(metadata: seq<TrackMetadata>, n: nat, mid: Mid, i: int)
    requires n <= |metadata|
  {
    0 <= i < n && metadata[i].mid == mid && forall j :: i < j < n ==> metadata[j].mid != mid
  }

  /** The record has exactly the mids that some entry names, each with the user of the last such entry. */
  lemma {:induction false} KeyByExact(metadata: seq<TrackMetadata>, n: nat, mid: Mid)
    requires n <= |metadata|
    ensures mid in KeyBy(metadata, n) <==> exists i :: 0 <= i < n && metadata[i].mid == mid
    ensures mid in KeyBy(metadata, n) ==>
              exists i :: LastNaming(metadata, n, mid, i) && metadata[i].userId == KeyBy(metadata, n)[mid]
  {
    if n > 0 {
      KeyByExact(metadata, n - 1, mid);
      if metadata[n - 1].mid == mid {
        assert LastNaming(metadata, n, mid, n - 1);
      } else if mid in KeyBy(metadata, n - 1) {
        var i :| LastNaming(metadata, n - 1, mid, i)
                 && metadata[i].userId == KeyBy(metadata, n - 1)[mid];
        assert LastNaming(metadata, n, mid, i);
      }
    }
  }

  /** Event t is the last of the first n that receives a track for the mid. */
  predicate LastReceived(log: seq<Event>, n: nat, mid: Mid, t: int)
    requires n <= |log|
  {
    && 0 <= t < n && log[t].TrackReceived? && log[t].mid == mid
    && forall j :: t < j < n ==> !(log[j].TrackReceived? && log[j].mid == mid)
  }

  /** All metadata that came after event t names the mid. */
  predicate NamedSince(log: seq<Event>, t: int, n: nat, mid: Mid)
    requires 0 <= t && n <= |log|
  {
    forall j :: t < j < n && log[j].MetadataReceived? ==> Names(log[j].metadata, mid)
  }

  /** Event p has the last metadata of the first n events. */
  predicate LastMetadata(log: seq<Event>, n: nat, p: int)
    requires n <= |log|
  {
    0 <= p < n && log[p].MetadataReceived? && forall j :: p < j < n ==> !log[j].MetadataReceived?
  }

  lemma {:induction false} CurrentMetadataExact(log: seq<Event>, n: nat)
    requires n <= |log|
    ensures CurrentMetadata(log, n) == map[] || exists p :: LastMetadata(log, n, p)
    ensures forall p :: LastMetadata(log, n, p) ==>
              CurrentMetadata(log, n) == KeyBy(log[p].metadata, |log[p].metadata|)
  {
    hide KeyBy;
    if n > 0 {
      var m: nat := n - 1;
      CurrentMetadataExact(log, m);
      if log[m].MetadataReceived? {
        assert LastMetadata(log, n, m);
      } else {
        forall p ensures LastMetadata(log, n, p) <==> LastMetadata(log, m, p) {
        }
        if CurrentMetadata(log, n) != map[] {
          var p :| LastMetadata(log, m, p);
          assert LastMetadata(log, n, p);
        }
      }
    }
  }

  lemma {:induction false} ReceivedStep(log: seq<Event>, n: nat, mid: Mid, t: int)
    requires 0 < n <= |log| && 0 <= t < n - 1
    ensures LastReceived(log, n, mid, t) <==>
            LastReceived(log, n - 1, mid, t) && !(log[n - 1].TrackReceived? && log[n - 1].mid == mid)
    ensures NamedSince(log, t, n, mid) <==>
            NamedSince(log, t, n - 1, mid) && (log[n - 1].MetadataReceived? ==> Names(log[n - 1].metadata, mid))
  {
    hide Names;
  }

  /** A mid is on record if and only if all metadata since it was last received names it. */
  lemma {:induction false} ReceivedExact(log: seq<Event>, n: nat, mid: Mid)
    requires n <= |log|
    ensures mid in Received(log, n) <==> exists t :: LastReceived(log, n, mid, t) && NamedSince(log, t, n, mid)
    ensures forall t :: LastReceived(log, n, mid, t) && mid in Received(log, n) ==>
              Received(log, n)[mid] == log[t].userId
  {
    hide Names, KeyBy;
    if n > 0 {
      ReceivedExact(log, n - 1, mid);
      forall t | 0 <= t < n - 1
        ensures LastReceived(log, n, mid, t) <==>
                LastReceived(log, n - 1, mid, t) && !(log[n - 1].TrackReceived? && log[n - 1].mid == mid)
        ensures NamedSince(log, t, n, mid) <==>
                NamedSince(log, t, n - 1, mid) && (log[n - 1].MetadataReceived? ==> Names(log[n - 1].metadata, mid))
      {
        ReceivedStep(log, n, mid, t);
      }
      if mid in Received(log, n - 1) {
        var t :| LastReceived(log, n - 1, mid, t) && NamedSince(log, t, n - 1, mid);
        ReceivedStep(log, n, mid, t);
      }
      match log[n - 1]
      case TrackReceived(m, userId) =>
        if m == mid {
          assert LastReceived(log, n, mid, n - 1) && NamedSince(log, n - 1, n, mid);
        }
      case MetadataReceived(metadata) =>
        KeyByExact(metadata, |metadata|, mid);
        assert Names(metadata, mid) <==> mid in KeyBy(metadata, |metadata|) by {
          NamesIs(metadata, mid);
        }
      case _ =>
    }
  }

  lemma {:induction false} NamesIs(metadata: seq<TrackMetadata>, mid: Mid)
    ensures Names(metadata, mid) <==> exists i :: 0 <= i < |metadata| && metadata[i].mid == mid
  {
  }

  /** The user is the one that the last metadata names last for the mid, or else the one it was last received for. */
  ghost predicate UserIs(log: seq<Event>, n: nat, mid: Mid, userId: UserId)
    requires n <= |log|
  {
    if exists p :: LastMetadata(log, n, p) && Names(log[p].metadata, mid)
    then exists p, i :: LastMetadata(log, n, p) && LastNaming(log[p].metadata, |log[p].metadata|, mid, i)
                        && log[p].metadata[i].userId == userId
    else exists t :: LastReceived(log, n, mid, t) && log[t].userId == userId
  }

  /** A mid has a context if and only if all metadata since it was last received names it, and then for that user. */
  lemma {:induction false} ContextsAreReceived(env: Env, log: seq<Event>, n: nat, mid: Mid)
    requires n <= |log|
    ensures mid in After(env, log, n).contexts <==>
            exists t :: LastReceived(log, n, mid, t) && NamedSince(log, t, n, mid)
    ensures mid in After(env, log, n).contexts ==> UserIs(log, n, mid, After(env, log, n).contexts[mid].userId)
  {
    hide After, Names, KeyBy, Received, CurrentMetadata, LastNaming, NamedSince;
    ContextsFollow(env, log, n);
    ReceivedExact(log, n, mid);
    CurrentMetadataExact(log, n);
    if mid in After(env, log, n).contexts {
      var t :| LastReceived(log, n, mid, t) && NamedSince(log, t, n, mid);
      if p :| LastMetadata(log, n, p) {
        KeyByExact(log[p].metadata, |log[p].metadata|, mid);
        NamesIs(log[p].metadata, mid);
        assert forall q :: LastMetadata(log, n, q) ==> q == p;
      }
    }
  }

  /** The password is the one that was set last. */
  lemma {:induction false} CurrentPasswordExact(log: seq<Event>, n: nat)
    requires n <= |log|
    ensures forall p: nat :: LastSet(log, p, n) ==> CurrentPassword(log, n) == log[p].password
    ensures (forall i :: 0 <= i < n ==> !log[i].PasswordSet?) ==> CurrentPassword(log, n) == []
  {
    if n > 0 {
      CurrentPasswordExact(log, n - 1);
      forall p: nat ensures p < n - 1 ==> (LastSet(log, p, n) <==> LastSet(log, p, n - 1) && !log[n - 1].PasswordSet?) {
      }
    }
  }

  /** Nothing is being derived and no password change waits to reach the contexts. */
  predicate Settled(s: State) {
    s.pending == {} && s.regenerations == 0
  }

  /** What a context must be in the end: nothing about when keys arrived is left in it. */
  ghost predicate Expected(env: Env, log: seq<Event>, n: nat, mid: Mid, c: Context)
    requires n <= |log| && mid in Received(log, n)
  {
    && c.userId == GetUserId(CurrentMetadata(log, n), mid, Received(log, n)[mid])
    && c.password == CurrentPassword(log, n)
    && c.key == if CurrentPassword(log, n) == [] then None
                else Some(env.derive(CurrentPassword(log, n), Salt(env.url, c.userId)))
  }

  /**
   Once all derivations succeeded and settled, every received mid, and no other, has a context, and it holds the
   current password, the currently resolved user and, unless the password is empty, the key of just these two.
   */
  lemma {:induction false} SettledIsExpected(env: Env, log: seq<Event>)
    requires NoFailure(log, |log|) && Settled(After(env, log, |log|))
    ensures After(env, log, |log|).contexts.Keys == Received(log, |log|).Keys
    ensures forall mid :: mid in After(env, log, |log|).contexts ==>
              Expected(env, log, |log|, mid, After(env, log, |log|).contexts[mid])
  {
    hide After, NoFailure;
    KeysAreSound(env, log, |log|);
    ContextsFollow(env, log, |log|);
    ContextsProgress(env, log, |log|);
  }

  // ---------------------------------------------------------------- when a settled context lacks its key

  function DerivationOf(mid: Mid, c: Context): Derivation {
    Derivation(mid, c.id, c.userId, c.password)
  }

  /** The derivations under way that an event makes fail. */
  function Failing(s: State, e: Event): set<Derivation> {
    if e.KeyFailed? && e.derivation in s.pending then {e.derivation} else {}
  }

  function FailedBy(env: Env, log: seq<Event>, n: nat): set<Derivation>
    requires n <= |log|
  {
    if n == 0 then {} else FailedBy(env, log, n - 1) + Failing(After(env, log, n - 1), log[n - 1])
  }

  /** A context without a key has its derivation under way or failed; it is never both, and neither with a key. */
  ghost predicate Accounted(s: State, failed: set<Derivation>) {
    && (forall d :: d in failed ==> d.id < s.clock)
    && (forall mid :: mid in s.contexts && s.contexts[mid].password != [] ==>
          var d := DerivationOf(mid, s.contexts[mid]);
          && (s.contexts[mid].key.None? <==> d in s.pending || d in failed)
          && !(d in s.pending && d in failed))
  }

  lemma {:induction false} RenewAllAccounts(s: State, env: Env, users: map<Mid, UserId>, failed: set<Derivation>)
    requires Sound(s, env) && Accounted(s, failed)
    ensures Accounted(RenewAll(s, users), failed)
  {
    hide KeyFor;
    var r := RenewAll(s, users);
    forall mid | mid in r.contexts && r.contexts[mid].password != []
      ensures var d := DerivationOf(mid, r.contexts[mid]);
              && (r.contexts[mid].key.None? <==> d in r.pending || d in failed)
              && !(d in r.pending && d in failed)
    {
      var c := r.contexts[mid];
      if mid in s.contexts && c == s.contexts[mid] {
        assert DerivationOf(mid, c) in r.pending ==> DerivationOf(mid, c) in s.pending;
      } else {
        assert mid in users && NeedsKey(s, mid, users[mid]) && DerivationOf(mid, c) == Request(s, mid, users[mid]);
      }
    }
  }

  lemma {:induction false} ReactAccounts(s: State, env: Env, e: Event, failed: set<Derivation>)
    requires Sound(s, env) && Accounted(s, failed)
    ensures Accounted(Ticked(React(s, env, e)), failed + Failing(s, e))
  {
    hide RenewAll, KeyBy, KeyFor;
    match e
    case MetadataReceived(metadata) =>
      var m := KeyBy(metadata, |metadata|);
      var kept := s.(metadataByMid := m, contexts := map mid | mid in s.contexts && mid in m :: s.contexts[mid]);
      RenewAllAccounts(kept, env, map mid | mid in s.contexts && mid in m :: m[mid], failed);
    case TrackReceived(mid, userId) =>
      RenewAllAccounts(s, env, map[mid := userId], failed);
    case Regenerated =>
      RenewAllAccounts(s, env, Users(s), failed);
    case _ =>
  }

  lemma {:induction false} ContextsAccounted(env: Env, log: seq<Event>, n: nat)
    requires n <= |log|
    ensures Accounted(After(env, log, n), FailedBy(env, log, n))
  {
    hide React, Sound, Accounted, Failing;
    if n == 0 {
      NothingToAccount();
    } else {
      ContextsAccounted(env, log, n - 1);
      KeysAreSound(env, log, n - 1);
      ReactAccounts(After(env, log, n - 1), env, log[n - 1], FailedBy(env, log, n - 1));
    }
  }

  lemma {:induction false} NothingToAccount()
    ensures Accounted(START, {})
  {
  }

  lemma {:induction false} FailedByExact(env: Env, log: seq<Event>, n: nat, d: Derivation)
    requires n <= |log|
    ensures d in FailedBy(env, log, n) <==>
            exists i :: 0 <= i < n && log[i] == KeyFailed(d) && d in After(env, log, i).pending
  {
    hide After;
    if n > 0 {
      FailedByExact(env, log, n - 1, d);
    }
  }

  /** With a password, a settled context lacks its key if and only if the derivation of just this key has failed. */
  lemma {:induction false} MissingKeyExact(env: Env, log: seq<Event>, mid: Mid)
    requires Settled(After(env, log, |log|)) && mid in After(env, log, |log|).contexts
    requires After(env, log, |log|).contexts[mid].password != []
    ensures var d := DerivationOf(mid, After(env, log, |log|).contexts[mid]);
            After(env, log, |log|).contexts[mid].key.None? <==>
            exists i :: 0 <= i < |log| && log[i] == KeyFailed(d) && d in After(env, log, i).pending
  {
    hide After, FailedBy;
    ContextsAccounted(env, log, |log|);
    FailedByExact(env, log, |log|, DerivationOf(mid, After(env, log, |log|).contexts[mid]));
  }

  // ---------------------------------------------------------------- when a context keeps an old password

  /** The event sees to the context of the mid. */
  predicate Renews(s: State, e: Event, mid: Mid) {
    match e
    case Regenerated => s.regenerations > 0
    case TrackReceived(m, userId) => m == mid
    case MetadataReceived(metadata) => mid in KeyBy(metadata, |metadata|)
    case _ => false
  }

  predicate RenewedSince(env: Env, log: seq<Event>, p: nat, n: nat, mid: Mid)
    requires n <= |log|
  {
    exists i :: p < i < n && Renews(After(env, log, i), log[i], mid)
  }

  /** The last password of the first n events was set by event p. */
  predicate LastSet(log: seq<Event>, p: nat, n: nat)
    requires n <= |log|
  {
    p < n && log[p].PasswordSet? && forall i :: p < i < n ==> !log[i].PasswordSet?
  }

  /** After event p, contexts have its password once renewed and keep their old one until then. */
  ghost predicate PasswordsSince(env: Env, log: seq<Event>, p: nat, n: nat)
    requires n <= |log| && p < n
  {
    forall mid :: mid in After(env, log, n).contexts ==>
      if RenewedSince(env, log, p, n, mid)
      then After(env, log, n).contexts[mid].password == After(env, log, n).password
      else mid in After(env, log, p).contexts
           && After(env, log, n).contexts[mid].password == After(env, log, p).contexts[mid].password
  }

  lemma {:induction false} ReactPasswords(s: State, env: Env, e: Event, mid: Mid)
    requires mid in React(s, env, e).contexts && (Renews(s, e, mid) || !e.PasswordSet?)
    ensures Renews(s, e, mid) ==> React(s, env, e).contexts[mid].password == React(s, env, e).password == s.password
    ensures !Renews(s, e, mid) ==>
              mid in s.contexts && React(s, env, e).contexts[mid].password == s.contexts[mid].password
    ensures !Renews(s, e, mid) ==> React(s, env, e).password == s.password
  {
    hide RenewAll, KeyBy;
    match e
    case MetadataReceived(metadata) =>
      var m := KeyBy(metadata, |metadata|);
      var kept := s.(metadataByMid := m, contexts := map mid | mid in s.contexts && mid in m :: s.contexts[mid]);
      RenewAllPasswords(kept, map mid | mid in s.contexts && mid in m :: m[mid]);
    case TrackReceived(m, userId) =>
      RenewAllPasswords(s, map[m := userId]);
    case Regenerated =>
      RenewAllPasswords(s, Users(s));
    case _ =>
  }

  lemma {:induction false} PasswordsKept(env: Env, log: seq<Event>, p: nat, n: nat)
    requires n <= |log| && LastSet(log, p, n)
    ensures PasswordsSince(env, log, p, n)
  {
    hide React, Renews;
    if n > p + 1 {
      PasswordsKept(env, log, p, n - 1);
      var s, r := After(env, log, n - 1), After(env, log, n);
      forall mid | mid in r.contexts
        ensures if RenewedSince(env, log, p, n, mid) then r.contexts[mid].password == r.password
                else mid in After(env, log, p).contexts
                     && r.contexts[mid].password == After(env, log, p).contexts[mid].password
      {
        ReactPasswords(s, env, log[n - 1], mid);
        RenewedStep(env, log, p, n, mid);
      }
    } else {
      PasswordSetKeeps(After(env, log, p), env, log[p]);
    }
  }

  lemma {:induction false} RenewedStep(env: Env, log: seq<Event>, p: nat, n: nat, mid: Mid)
    requires p + 1 < n <= |log|
    ensures RenewedSince(env, log, p, n, mid) <==>
            RenewedSince(env, log, p, n - 1, mid) || Renews(After(env, log, n - 1), log[n - 1], mid)
  {
    hide After, Renews;
    if RenewedSince(env, log, p, n - 1, mid) {
      var i :| p < i < n - 1 && Renews(After(env, log, i), log[i], mid);
    }
  }

  lemma {:induction false} PasswordSetKeeps(s: State, env: Env, e: Event)
    requires e.PasswordSet?
    ensures React(s, env, e).contexts == s.contexts
  {
  }

  /**
   A context has an old password if and only if it had another one when the password was last set, and no event
   has seen to it since.
   */
  lemma {:induction false} StalePasswordExact(env: Env, log: seq<Event>, p: nat, mid: Mid)
    requires LastSet(log, p, |log|) && mid in After(env, log, |log|).contexts
    ensures After(env, log, |log|).contexts[mid].password != CurrentPassword(log, |log|) <==>
            && mid in After(env, log, p).contexts
            && After(env, log, p).contexts[mid].password != CurrentPassword(log, |log|)
            && forall i :: p < i < |log| ==> !Renews(After(env, log, i), log[i], mid)
  {
    hide After, Renews;
    ContextsFollow(env, log, |log|);
    PasswordsKept(env, log, p, |log|);
  }

  /** Until a password is set, no context has one. */
  lemma {:induction false} NeverSetNeverStale(env: Env, log: seq<Event>, n: nat)
    requires n <= |log| && forall i :: 0 <= i < n ==> !log[i].PasswordSet?
    ensures After(env, log, n).password == []
    ensures forall mid :: mid in After(env, log, n).contexts ==> After(env, log, n).contexts[mid].password == []
  {
    hide React, Renews;
    if n > 0 {
      NeverSetNeverStale(env, log, n - 1);
      OnlyPasswordSets(After(env, log, n - 1), env, log[n - 1]);
      forall mid | mid in After(env, log, n).contexts ensures After(env, log, n).contexts[mid].password == [] {
        ReactPasswords(After(env, log, n - 1), env, log[n - 1], mid);
      }
    }
  }

  lemma {:induction false} OnlyPasswordSets(s: State, env: Env, e: Event)
    requires !e.PasswordSet?
    ensures React(s, env, e).password == s.password
  {
  }

  lemma {:induction false} RegenerationsLeft(env: Env, log: seq<Event>, p: nat, n: nat)
    requires p < n <= |log| && log[p].PasswordSet?
    requires forall i :: p < i < n && After(env, log, i).regenerations > 0 ==>
               !log[i].Regenerated? && !log[i].RegenerationFailed?
    ensures After(env, log, n).regenerations > 0
  {
    hide RenewAll, WithMetadata, StoreKey;
    if n > p + 1 {
      RegenerationsLeft(env, log, p, n - 1);
      RegenerationsStep(After(env, log, n - 1), env, log[n - 1]);
    }
  }

  lemma {:induction false} RegenerationsStep(s: State, env: Env, e: Event)
    ensures React(s, env, e).regenerations >=
            s.regenerations - if e.Regenerated? || e.RegenerationFailed? then 1 else 0
  {
  }

  /** Once settled, an old password means that a regeneration failed after the password was set. */
  lemma {:induction false} StalePasswordMeansFailure(env: Env, log: seq<Event>, p: nat, mid: Mid)
    requires LastSet(log, p, |log|) && mid in After(env, log, |log|).contexts && Settled(After(env, log, |log|))
    requires After(env, log, |log|).contexts[mid].password != CurrentPassword(log, |log|)
    ensures exists i :: p < i < |log| && log[i].RegenerationFailed? && After(env, log, i).regenerations > 0
  {
    hide After;
    StalePasswordExact(env, log, p, mid);
    if forall i :: p < i < |log| && After(env, log, i).regenerations > 0 ==> !log[i].RegenerationFailed? {
      forall i | p < i < |log| && After(env, log, i).regenerations > 0
        ensures !log[i].Regenerated? && !log[i].RegenerationFailed?
      {
        assert !Renews(After(env, log, i), log[i], mid);
      }
      RegenerationsLeft(env, log, p, |log|);
    }
  }

  function UnrenewedLog(mid: Mid, userId: UserId, password: Password): seq<Event> {
    [TrackReceived(mid, userId), PasswordSet(password), RegenerationFailed]
  }

  /** One failed regeneration leaves a settled context with the old password. */
  lemma {:induction false} OldPasswordSticks(env: Env, mid: Mid, userId: UserId, password: Password)
    requires password != []
    ensures var log := UnrenewedLog(mid, userId, password);
            && Settled(After(env, log, 3)) && CurrentPassword(log, 3) == password
            && After(env, log, 3).contexts == map[mid := Context(0, userId, [], None)]
  {
    hide RenewAll;
    var log, c := UnrenewedLog(mid, userId, password), Context(0, userId, [], None);
    assert After(env, log, 0) == START;
    RenewsFirst(mid, userId);
    assert After(env, log, 1) == State(1, [], map[], map[mid := c], {}, 0);
    assert After(env, log, 2) == State(2, password, map[], map[mid := c], {}, 1);
    assert After(env, log, 3) == State(3, password, map[], map[mid := c], {}, 0);
    assert CurrentPassword(log, 2) == password;
  }

  lemma {:induction false} RenewsFirst(mid: Mid, userId: UserId)
    ensures RenewAll(START, map[mid := userId]) == START.(contexts := map[mid := Context(0, userId, [], None)])
  {
    var r := RenewAll(START, map[mid := userId]);
    assert r.contexts == map[mid := Context(0, userId, [], None)];
    assert r.pending == {};
  }

  /** A context that has its user and password is left alone, with or without a key. */
  lemma {:induction false} NeverAskedAgain(s: State, mid: Mid, userId: UserId)
    requires UpToDate(s, mid, GetUserId(s.metadataByMid, mid, userId))
    ensures RenewAll(s, map[mid := userId]) == s
  {
    assert s.contexts.Keys + (map[mid := userId]).Keys == s.contexts.Keys;
  }

  function FailedLog(mid: Mid, userId: UserId, password: Password): seq<Event> {
    [PasswordSet(password), Regenerated, TrackReceived(mid, userId), KeyFailed(Derivation(mid, 2, userId, password)),
     TrackReceived(mid, userId)]
  }

  /** So one failed derivation leaves a settled context without its key, even when the same track is received again. */
  lemma {:induction false} FailureSticks(env: Env, mid: Mid, userId: UserId, password: Password)
    requires password != []
    ensures var s := After(env, FailedLog(mid, userId, password), 5);
            && Settled(s) && CurrentPassword(FailedLog(mid, userId, password), 5) == password
            && s.contexts == map[mid := Context(2, userId, password, None)]
  {
    hide RenewAll;
    var log := FailedLog(mid, userId, password);
    var c, d := Context(2, userId, password, None), Derivation(mid, 2, userId, password);
    var set0 := State(2, password, map[], map[], {}, 0);
    RenewsNone(State(1, password, map[], map[], {}, 1));
    assert After(env, log, 0) == START;
    assert After(env, log, 1) == State(1, password, map[], map[], {}, 1);
    assert After(env, log, 2) == set0;
    RenewsOne(set0, mid, userId);
    assert After(env, log, 3) == State(3, password, map[], map[mid := c], {d}, 0);
    assert After(env, log, 4) == State(4, password, map[], map[mid := c], {}, 0);
    NeverAskedAgain(After(env, log, 4), mid, userId);
    assert After(env, log, 5) == State(5, password, map[], map[mid := c], {}, 0);
    assert CurrentPassword(log, 1) == CurrentPassword(log, 2) == CurrentPassword(log, 3) == CurrentPassword(log, 4);
  }

  lemma {:induction false} RenewsNone(s: State)
    requires s.contexts == map[]
    ensures RenewAll(s, Users(s)) == s
  {
  }

  lemma {:induction false} RenewsOne(s: State, mid: Mid, userId: UserId)
    requires s.contexts == map[] && s.metadataByMid == map[] && s.password != []
    ensures RenewAll(s, map[mid := userId]) ==
            s.(contexts := map[mid := Context(s.clock, userId, s.password, None)],
               pending := s.pending + {Derivation(mid, s.clock, userId, s.password)})
  {
    var users := map[mid := userId];
    var r := RenewAll(s, users);
    assert NeedsKey(s, mid, users[mid]) && Request(s, mid, users[mid]) == Derivation(mid, s.clock, userId, s.password);
    assert (set m | m in users && NeedsKey(s, m, users[m]) :: Request(s, m, users[m])) == {Request(s, mid, userId)};
    assert r.contexts == map[mid := Context(s.clock, userId, s.password, None)];
  }
}
