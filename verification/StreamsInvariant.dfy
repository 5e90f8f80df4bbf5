/**
 What the client's maps agree on in every reachable state, given that each peer and mid keeps one track
 and one stream id.
 */
module StreamsInvariant {
  import opened Streams
  import opened Wrappers

  // ---------------------------------------------------------------- peer and mid in one key

  /** Position of the first separator, or the length. */
  function FirstSeparator(s: string): nat {
    if |s| == 0 then 0 else if SEPARATOR <= s then 0 else 1 + FirstSeparator(s[1..])
  }

  /** The first separator of any key of this peer is the one that ends the peer id. */
  predicate Clean(peerId: string) {
    FirstSeparator(peerId + SEPARATOR) == |peerId|
  }

  lemma {:induction false} FirstSeparatorBounds(s: string)
    ensures FirstSeparator(s) <= |s|
    ensures FirstSeparator(s) < |s| ==> SEPARATOR <= s[FirstSeparator(s)..]
    ensures forall i :: 0 <= i < FirstSeparator(s) ==> !(SEPARATOR <= s[i..])
  {
    if |s| > 0 && !(SEPARATOR <= s) {
      FirstSeparatorBounds(s[1..]);
      forall i | 0 <= i < FirstSeparator(s) ensures !(SEPARATOR <= s[i..]) {
        if i > 0 {
          assert s[1..][i - 1..] == s[i..];
        }
      }
      assert FirstSeparator(s) < |s| ==> s[1..][FirstSeparator(s) - 1..] == s[FirstSeparator(s)..];
    }
  }

  lemma {:induction false} FirstSeparatorStays(s: string, rest: string)
    requires FirstSeparator(s) + 2 <= |s|
    ensures FirstSeparator(s + rest) == FirstSeparator(s)
  {
    if !(SEPARATOR <= s) {
      assert (s + rest)[1..] == s[1..] + rest;
      FirstSeparatorStays(s[1..], rest);
    }
  }

  /** A clean peer id can be read off its keys. */
  lemma {:induction false} CleanFirst(peerId: string, mid: string)
    requires Clean(peerId)
    ensures FirstSeparator(GetPeerIdMid(peerId, mid)) == |peerId|
  {
    FirstSeparatorStays(peerId + SEPARATOR, mid);
  }

  lemma {:induction false} SharedKeyHasSeparator(peerId: string, m: string, other: string, n: string)
    requires |other| < |peerId| && GetPeerIdMid(peerId, m) == GetPeerIdMid(other, n)
    ensures FirstSeparator(peerId + SEPARATOR) < |peerId|
  {
    var s, k := peerId + SEPARATOR, |other|;
    FirstSeparatorBounds(s);
    assert GetPeerIdMid(other, n)[k..k + 2] == SEPARATOR;
    assert GetPeerIdMid(peerId, m)[k..k + 2] == s[k..k + 2];
    assert SEPARATOR <= s[k..];
  }

  lemma {:induction false} UncleanCollides(peerId: string)
    requires !Clean(peerId)
    ensures var s, i := peerId + SEPARATOR, FirstSeparator(peerId + SEPARATOR);
            i < |peerId| && GetPeerIdMid(peerId, "") == GetPeerIdMid(peerId[..i], s[i + 2..])
  {
    var s, i := peerId + SEPARATOR, FirstSeparator(peerId + SEPARATOR);
    FirstSeparatorBounds(s);
    assert s[|peerId|..] == SEPARATOR;
    assert s[..i] == peerId[..i] && s[i..i + 2] == SEPARATOR;
    CutInThree(s, i, i + 2);
    hide FirstSeparator;
    assert GetPeerIdMid(peerId, "") == s;
  }

  lemma {:induction false} CutInThree(s: string, i: nat, j: nat)
    requires i <= j <= |s|
    ensures s == s[..i] + s[i..j] + s[j..]
  {
  }

  /** Clean is exactly what keeps the keys of a peer apart from those of peers with shorter ids. */
  lemma {:induction false} CleanExact(peerId: string)
    ensures Clean(peerId) <==>
            forall other, m, n :: |other| < |peerId| ==> GetPeerIdMid(peerId, m) != GetPeerIdMid(other, n)
  {
    hide GetPeerIdMid, FirstSeparator;
    if Clean(peerId) {
      forall other: string, m: string, n: string | |other| < |peerId|
        ensures GetPeerIdMid(peerId, m) != GetPeerIdMid(other, n)
      {
        if GetPeerIdMid(peerId, m) == GetPeerIdMid(other, n) {
          SharedKeyHasSeparator(peerId, m, other, n);
        }
      }
    } else {
      UncleanCollides(peerId);
    }
  }

  predicate ColonsAt(s: string, i: nat) {
    i + 1 < |s| && s[i] == ':' && s[i + 1] == ':'
  }

  lemma {:induction false} SeparatorAt(s: string, i: nat)
    requires i < |s|
    ensures SEPARATOR <= s[i..] <==> ColonsAt(s, i)
  {
    if ColonsAt(s, i) {
      assert s[i..][..2] == SEPARATOR;
    }
  }

  lemma {:induction false} FirstColons(s: string)
    ensures FirstSeparator(s) < |s| ==> ColonsAt(s, FirstSeparator(s))
    ensures forall i :: 0 <= i < FirstSeparator(s) ==> !ColonsAt(s, i)
  {
    FirstSeparatorBounds(s);
    hide FirstSeparator, ColonsAt;
    var k := FirstSeparator(s);
    if k < |s| {
      SeparatorAt(s, k);
    }
    forall i | 0 <= i < k ensures !ColonsAt(s, i) {
      SeparatorAt(s, i);
    }
  }

  /** A caller can see it in the id: no two colons in a row, and none at the end. */
  lemma {:induction false} CleanMeans(peerId: string)
    ensures Clean(peerId) <==>
            (forall i :: 0 <= i < |peerId| ==> !ColonsAt(peerId, i))
            && (|peerId| > 0 ==> peerId[|peerId| - 1] != ':')
  {
    var s, n := peerId + SEPARATOR, |peerId|;
    FirstSeparatorBounds(s);
    FirstColons(s);
    hide FirstSeparator;
    assert ColonsAt(s, n);
    forall i: nat | i < n
      ensures ColonsAt(s, i) <==> ColonsAt(peerId, i) || (i == n - 1 && peerId[i] == ':')
    {
    }
  }

  /** It is not enough that ids contain no separator: a trailing colon makes two peers share a key. */
  lemma {:induction false} TrailingColonCollides()
    ensures GetPeerIdMid("a:", "0") == GetPeerIdMid("a", ":0")
    ensures OfPeer(GetPeerIdMid("a:", "0"), "a")
  {
  }

  /** Neither of two peer ids and their separators starts the other. */
  predicate Apart(p: string, q: string) {
    !(p + SEPARATOR <= q + SEPARATOR) && !(q + SEPARATOR <= p + SEPARATOR)
  }

  lemma {:induction false} CommonKey(p: string, q: string, key: string)
    requires OfPeer(key, p) && OfPeer(key, q)
    ensures !Apart(p, q)
  {
    var a, b := p + SEPARATOR, q + SEPARATOR;
    assert key[..|a|] == a && key[..|b|] == b;
    if |a| <= |b| {
      assert a == b[..|a|];
    } else {
      assert b == a[..|b|];
    }
  }

  lemma {:induction false} KeyStarts(p: string, m: string)
    ensures OfPeer(GetPeerIdMid(p, m), p)
    ensures forall key :: OfPeer(key, p) ==> key == GetPeerIdMid(p, key[|p| + 2..])
  {
    forall key: string | OfPeer(key, p) ensures key == GetPeerIdMid(p, key[|p| + 2..]) {
      assert key == key[..|p| + 2] + key[|p| + 2..];
    }
  }

  /** Two peers can share a key if and only if their ids are not apart. */
  lemma {:induction false} ApartExact(p: string, q: string)
    ensures (exists m, n :: GetPeerIdMid(p, m) == GetPeerIdMid(q, n)) <==> !Apart(p, q)
  {
    KeyStarts(p, "");
    KeyStarts(q, "");
    if m, n :| GetPeerIdMid(p, m) == GetPeerIdMid(q, n) {
      KeyStarts(p, m);
      KeyStarts(q, n);
      CommonKey(p, q, GetPeerIdMid(p, m));
    }
    if p + SEPARATOR <= q + SEPARATOR {
      assert OfPeer(GetPeerIdMid(q, ""), p);
      assert GetPeerIdMid(p, (q + SEPARATOR)[|p| + 2..]) == GetPeerIdMid(q, "");
    }
    if q + SEPARATOR <= p + SEPARATOR {
      assert OfPeer(GetPeerIdMid(p, ""), q);
      assert GetPeerIdMid(p, "") == GetPeerIdMid(q, (p + SEPARATOR)[|q| + 2..]);
    }
  }

  /** Clean ids are apart. */
  lemma {:induction false} CleanAreApart(p: string, q: string)
    requires Clean(p) && Clean(q) && p != q
    ensures Apart(p, q)
  {
    hide FirstSeparator;
    ApartExact(p, q);
    forall m, n ensures GetPeerIdMid(p, m) != GetPeerIdMid(q, n) {
      CleanFirst(p, m);
      CleanFirst(q, n);
      assert GetPeerIdMid(p, m)[..|p|] == p && GetPeerIdMid(q, n)[..|q|] == q;
    }
  }

  /** Ids need not be clean to be apart. */
  lemma {:induction false} ApartWithoutClean()
    ensures Apart("a:", "b") && !Clean("a:")
  {
    CleanMeans("a:");
    hide FirstSeparator;
    var a, b := "a:" + SEPARATOR, "b" + SEPARATOR;
    assert a[0] == 'a' && b[0] == 'b';
  }

  // ---------------------------------------------------------------- a room of peers

  /** The ids that peers have, and the one track and the one stream id of each key. */
  datatype Env = Env(peer: string -> bool, track: string -> Track, stream: string -> string)

  /** No two keys share a track, and no two peers a key. */
  ghost predicate Distinct(env: Env) {
    && (forall k, l :: env.track(k) == env.track(l) ==> k == l)
    && (forall p, q :: env.peer(p) && env.peer(q) && p != q ==> Apart(p, q))
  }

  /** The peer a key belongs to. */
  ghost function Owner(env: Env, key: string): string {
    if exists p :: env.peer(p) && OfPeer(key, p) then
      var p :| env.peer(p) && OfPeer(key, p);
      p
    else key
  }

  lemma {:induction false} OwnerOf(env: Env, peerId: string, mid: string)
    requires Distinct(env) && env.peer(peerId)
    ensures Owner(env, GetPeerIdMid(peerId, mid)) == peerId
  {
    hide Apart;
    var key := GetPeerIdMid(peerId, mid);
    KeyStarts(peerId, mid);
    CommonKey(peerId, Owner(env, key), key);
  }

  /** The prefix test of removePeer finds exactly the keys of that peer. */
  lemma {:induction false} PrefixFindsPeer(env: Env, peerId: string, other: string, mid: string)
    requires Distinct(env) && env.peer(peerId) && env.peer(other)
    ensures OfPeer(GetPeerIdMid(other, mid), peerId) <==> peerId == other
  {
    hide Apart;
    KeyStarts(other, mid);
    if OfPeer(GetPeerIdMid(other, mid), peerId) {
      CommonKey(peerId, other, GetPeerIdMid(other, mid));
    }
  }

  // ---------------------------------------------------------------- the streams of one user

  ghost predicate Tidy(ss: seq<Stream>) {
    && (forall i, j :: 0 <= i < j < |ss| ==> ss[i].streamId != ss[j].streamId)
    && (forall i :: 0 <= i < |ss| ==> ss[i].tracks != {})
  }

  /** The tracks of the stream of that id. */
  function TracksIn(ss: seq<Stream>, streamId: string): set<Track> {
    if |ss| == 0 then {} else if ss[0].streamId == streamId then ss[0].tracks else TracksIn(ss[1..], streamId)
  }

  lemma {:induction false} TracksInNone(ss: seq<Stream>, streamId: string)
    ensures HasStream(ss, streamId) || TracksIn(ss, streamId) == {}
  {
    if |ss| > 0 && ss[0].streamId != streamId {
      TracksInNone(ss[1..], streamId);
      if HasStream(ss[1..], streamId) {
        var i :| 0 <= i < |ss[1..]| && ss[1..][i].streamId == streamId;
        assert ss[i + 1].streamId == streamId;
      }
    }
  }

  lemma {:induction false} TracksInSome(ss: seq<Stream>, i: nat)
    requires Tidy(ss) && i < |ss|
    ensures TracksIn(ss, ss[i].streamId) == ss[i].tracks
  {
    if i > 0 {
      TracksInSome(ss[1..], i - 1);
    }
  }

  lemma {:induction false} AddToStreamsIds(ss: seq<Stream>, streamId: string, track: Track)
    ensures var r := AddToStreams(ss, streamId, track);
            && |r| > 0
            && (forall i :: 0 <= i < |r| ==> r[i].streamId == streamId || HasStream(ss, r[i].streamId))
  {
    if |ss| > 0 {
      if ss[0].streamId != streamId {
        AddToStreamsIds(ss[1..], streamId, track);
        var r := AddToStreams(ss, streamId, track);
        forall i | 0 <= i < |r| ensures r[i].streamId == streamId || HasStream(ss, r[i].streamId) {
          if i > 0 && r[i].streamId != streamId {
            var j :| 0 <= j < |ss[1..]| && ss[1..][j].streamId == r[i].streamId;
            assert ss[j + 1].streamId == r[i].streamId;
          }
        }
      }
    }
  }

  lemma {:induction false} TidyCons(h: Stream, ss: seq<Stream>)
    requires Tidy(ss) && h.tracks != {} && !HasStream(ss, h.streamId)
    ensures Tidy([h] + ss)
    ensures forall id :: TracksIn([h] + ss, id) == if id == h.streamId then h.tracks else TracksIn(ss, id)
  {
    assert ([h] + ss)[1..] == ss;
  }

  lemma {:induction false} TidyTail(ss: seq<Stream>)
    requires Tidy(ss) && |ss| > 0
    ensures Tidy(ss[1..]) && !HasStream(ss[1..], ss[0].streamId) && ss == [ss[0]] + ss[1..]
  {
  }

  lemma {:induction false} AddToStreamsTracks(ss: seq<Stream>, streamId: string, track: Track)
    requires Tidy(ss)
    ensures Tidy(AddToStreams(ss, streamId, track))
    ensures forall id :: TracksIn(AddToStreams(ss, streamId, track), id) ==
                         TracksIn(ss, id) + if id == streamId then {track} else {}
  {
    if |ss| > 0 {
      var head, tail := ss[0], ss[1..];
      TidyTail(ss);
      TidyCons(head, tail);
      if head.streamId == streamId {
        TidyCons(head.(tracks := head.tracks + {track}), tail);
      } else {
        AddToStreamsTracks(tail, streamId, track);
        AddToStreamsIds(tail, streamId, track);
        TidyCons(head, AddToStreams(tail, streamId, track));
      }
    }
  }

  lemma {:induction false} RemoveFromStreamsIds(ss: seq<Stream>, streamId: string, track: Track)
    ensures forall i :: 0 <= i < |RemoveFromStreams(ss, streamId, track)| ==>
              HasStream(ss, RemoveFromStreams(ss, streamId, track)[i].streamId)
  {
    if |ss| > 0 {
      var r := RemoveFromStreams(ss, streamId, track);
      if ss[0].streamId != streamId {
        RemoveFromStreamsIds(ss[1..], streamId, track);
        forall i | 0 <= i < |r| ensures HasStream(ss, r[i].streamId) {
          if i == 0 {
            assert ss[0].streamId == r[0].streamId;
          } else {
            assert r[i] == RemoveFromStreams(ss[1..], streamId, track)[i - 1];
            var j :| 0 <= j < |ss[1..]| && ss[1..][j].streamId == r[i].streamId;
            assert ss[j + 1].streamId == r[i].streamId;
          }
        }
      } else {
        forall i | 0 <= i < |r| ensures HasStream(ss, r[i].streamId) {
          var j := i + |ss| - |r|;
          assert ss[j].streamId == r[i].streamId;
        }
      }
    }
  }

  lemma {:induction false} RemoveFromStreamsTracks(ss: seq<Stream>, streamId: string, track: Track)
    requires Tidy(ss)
    ensures Tidy(RemoveFromStreams(ss, streamId, track))
    ensures forall id :: TracksIn(RemoveFromStreams(ss, streamId, track), id) ==
                         TracksIn(ss, id) - if id == streamId then {track} else {}
  {
    if |ss| > 0 {
      var head, tail := ss[0], ss[1..];
      TidyTail(ss);
      TidyCons(head, tail);
      if head.streamId == streamId {
        TracksInNone(tail, streamId);
        if head.tracks - {track} != {} {
          TidyCons(head.(tracks := head.tracks - {track}), tail);
        }
      } else {
        RemoveFromStreamsTracks(tail, streamId, track);
        RemoveFromStreamsIds(tail, streamId, track);
        TidyCons(head, RemoveFromStreams(tail, streamId, track));
      }
    }
  }

  // ---------------------------------------------------------------- the invariant

  function In(s: State, userId: string, streamId: string): set<Track> {
    if userId in s.streamsByUserId then TracksIn(s.streamsByUserId[userId], streamId) else {}
  }

  predicate Holds(s: State, key: string, a: Association) {
    key in s.tracksByPeerIdMid && s.tracksByPeerIdMid[key].association == Some(a)
  }

  /** What getUserId answers for a key now. */
  ghost function Resolve(s: State, env: Env, key: string): Association {
    if key in s.metadataByPeerIdMid
    then Association(s.metadataByPeerIdMid[key].streamId, s.metadataByPeerIdMid[key].userId)
    else Association(env.stream(key), Owner(env, key))
  }

  ghost predicate WellKeyed(env: Env, key: string, mid: string) {
    env.peer(Owner(env, key)) && key == GetPeerIdMid(Owner(env, key), mid)
  }

  ghost predicate KeysAgree(s: State, env: Env) {
    && (forall k :: k in s.tracksByPeerIdMid ==>
          s.tracksByPeerIdMid[k].track == env.track(k)
          && env.track(k) in s.trackIdToPeerIdMid && s.trackIdToPeerIdMid[env.track(k)] == k
          && WellKeyed(env, k, s.tracksByPeerIdMid[k].mid))
    && (forall t :: t in s.trackIdToPeerIdMid ==>
          s.trackIdToPeerIdMid[t] in s.tracksByPeerIdMid && t == env.track(s.trackIdToPeerIdMid[t]))
  }

  /** A track is in a stream of a user exactly when its entry says so; no stream and no user is empty. */
  ghost predicate StreamsAgree(s: State) {
    && (forall u, id, t :: t in In(s, u, id) <==>
          t in s.trackIdToPeerIdMid && Holds(s, s.trackIdToPeerIdMid[t], Association(id, u)))
    && (forall u :: u in s.streamsByUserId ==> Tidy(s.streamsByUserId[u]) && |s.streamsByUserId[u]| > 0)
  }

  ghost predicate Core(s: State, env: Env) {
    KeysAgree(s, env) && StreamsAgree(s)
  }

  ghost predicate ResolvedAt(s: State, env: Env, key: string) {
    key in s.tracksByPeerIdMid && s.tracksByPeerIdMid[key].association.Some? ==>
      s.tracksByPeerIdMid[key].association.value == Resolve(s, env, key)
  }

  ghost predicate Inv(s: State, env: Env) {
    Core(s, env) && forall key :: ResolvedAt(s, env, key)
  }

  // ---------------------------------------------------------------- one track

  lemma {:induction false} TracksInEmpty()
    ensures forall id :: TracksIn([], id) == {}
  {
  }

  lemma {:induction false} AddTrackStreams(s: State, peerId: string, mid: string, streamId: string, track: Track)
    requires StreamsAgree(s)
    ensures var a, key := GetUserId(s, peerId, mid, streamId), GetPeerIdMid(peerId, mid);
            var r := AddTrack(s, peerId, mid, streamId, track);
            && r.trackIdToPeerIdMid == s.trackIdToPeerIdMid[track := key]
            && r.metadataByPeerIdMid == s.metadataByPeerIdMid
            && r.tracksByPeerIdMid == s.tracksByPeerIdMid[key := TrackInfo(track, mid, Some(a))]
            && (forall u :: u in r.streamsByUserId ==> Tidy(r.streamsByUserId[u]) && |r.streamsByUserId[u]| > 0)
            && (forall u, id :: In(r, u, id) ==
                  In(s, u, id) + if u == a.userId && id == a.streamId then {track} else {})
  {
    hide AddToStreams, TracksIn;
    var a := GetUserId(s, peerId, mid, streamId);
    var ss := if a.userId in s.streamsByUserId then s.streamsByUserId[a.userId] else [];
    TracksInEmpty();
    AddToStreamsTracks(ss, a.streamId, track);
    AddToStreamsIds(ss, a.streamId, track);
  }

  /** s and r differ in one entry and in where its track is. */
  ghost predicate OneEntryChanged(s: State, r: State, env: Env, key: string, info: TrackInfo) {
    && info.track == env.track(key) && WellKeyed(env, key, info.mid)
    && r.trackIdToPeerIdMid == s.trackIdToPeerIdMid[info.track := key]
    && r.tracksByPeerIdMid == s.tracksByPeerIdMid[key := info]
    && (forall u, id :: In(r, u, id) ==
          In(s, u, id) - {info.track} + if info.association == Some(Association(id, u)) then {info.track} else {})
    && (forall u :: u in r.streamsByUserId ==> Tidy(r.streamsByUserId[u]) && |r.streamsByUserId[u]| > 0)
  }

  lemma {:induction false} KeysAfterChange(s: State, r: State, env: Env, key: string, info: TrackInfo)
    requires Distinct(env) && KeysAgree(s, env) && OneEntryChanged(s, r, env, key, info)
    ensures KeysAgree(r, env)
  {
    hide In, Tidy, WellKeyed;
  }

  lemma {:induction false} StreamsAfterChange(s: State, r: State, env: Env, key: string, info: TrackInfo)
    requires Distinct(env) && Core(s, env) && OneEntryChanged(s, r, env, key, info)
    ensures StreamsAgree(r)
  {
    hide In, Tidy, WellKeyed;
    forall u, id, t
      ensures t in In(r, u, id) <==> t in r.trackIdToPeerIdMid && Holds(r, r.trackIdToPeerIdMid[t], Association(id, u))
    {
      assert t in In(s, u, id) <==> t in s.trackIdToPeerIdMid && Holds(s, s.trackIdToPeerIdMid[t], Association(id, u));
      if t != info.track && t in s.trackIdToPeerIdMid {
        assert s.trackIdToPeerIdMid[t] != key;
      }
    }
  }

  /** AddTrack gives an entry that is free, or already resolved, the user and stream that getUserId answers. */
  lemma {:induction false} AddTrackCore(s: State, env: Env, peerId: string, mid: string, streamId: string)
    requires Distinct(env) && Core(s, env) && env.peer(peerId)
    requires var key := GetPeerIdMid(peerId, mid);
             && ResolvedAt(s, env, key)
             && (key in s.metadataByPeerIdMid || streamId == env.stream(key))
    ensures var key := GetPeerIdMid(peerId, mid);
            var r := AddTrack(s, peerId, mid, streamId, env.track(key));
            && Core(r, env)
            && r.tracksByPeerIdMid ==
               s.tracksByPeerIdMid[key := TrackInfo(env.track(key), mid, Some(Resolve(s, env, key)))]
            && r.metadataByPeerIdMid == s.metadataByPeerIdMid
  {
    hide Owner, AddTrack, In, Tidy, GetPeerIdMid, WellKeyed, Resolve;
    var key := GetPeerIdMid(peerId, mid);
    var a, track := Resolve(s, env, key), env.track(key);
    var r, info := AddTrack(s, peerId, mid, streamId, track), TrackInfo(track, mid, Some(a));
    AddTrackStreams(s, peerId, mid, streamId, track);
    GetUserIdResolves(s, env, peerId, mid, streamId);
    IsWellKeyed(env, peerId, mid);
    forall u, id
      ensures In(r, u, id) ==
              In(s, u, id) - {track} + if info.association == Some(Association(id, u)) then {track} else {}
    {
      if track in In(s, u, id) {
        KeyOfTrack(s, env, key);
        assert Holds(s, key, Association(id, u));
      }
    }
    KeysAfterChange(s, r, env, key, info);
    StreamsAfterChange(s, r, env, key, info);
  }

  lemma {:induction false} KeyOfTrack(s: State, env: Env, key: string)
    requires Distinct(env) && KeysAgree(s, env) && env.track(key) in s.trackIdToPeerIdMid
    ensures s.trackIdToPeerIdMid[env.track(key)] == key
  {
    assert env.track(key) == env.track(s.trackIdToPeerIdMid[env.track(key)]);
  }

  lemma {:induction false} GetUserIdResolves(s: State, env: Env, peerId: string, mid: string, streamId: string)
    requires Distinct(env) && env.peer(peerId)
    requires GetPeerIdMid(peerId, mid) in s.metadataByPeerIdMid || streamId == env.stream(GetPeerIdMid(peerId, mid))
    ensures GetUserId(s, peerId, mid, streamId) == Resolve(s, env, GetPeerIdMid(peerId, mid))
  {
    OwnerOf(env, peerId, mid);
  }

  lemma {:induction false} IsWellKeyed(env: Env, peerId: string, mid: string)
    requires Distinct(env) && env.peer(peerId)
    ensures WellKeyed(env, GetPeerIdMid(peerId, mid), mid)
  {
    OwnerOf(env, peerId, mid);
  }

  lemma {:induction false} RemoveTrackStreams(s: State, env: Env, key: string)
    requires Core(s, env) && key in s.tracksByPeerIdMid
    ensures var r := RemoveTrack(s, env.track(key));
            && r.trackIdToPeerIdMid == s.trackIdToPeerIdMid
            && r.metadataByPeerIdMid == s.metadataByPeerIdMid
            && r.tracksByPeerIdMid == s.tracksByPeerIdMid[key := s.tracksByPeerIdMid[key].(association := None)]
            && (forall u :: u in r.streamsByUserId ==> Tidy(r.streamsByUserId[u]) && |r.streamsByUserId[u]| > 0)
            && (forall u, id :: In(r, u, id) ==
                  In(s, u, id) - if Holds(s, key, Association(id, u)) then {env.track(key)} else {})
  {
    hide RemoveFromStreams, TracksIn, WellKeyed, Tidy, HasStream;
    var track, info := env.track(key), s.tracksByPeerIdMid[key];
    if info.association.Some? {
      var a := info.association.value;
      assert track in In(s, a.userId, a.streamId);
      TracksInNone(s.streamsByUserId[a.userId], a.streamId);
      RemoveFromStreamsTracks(s.streamsByUserId[a.userId], a.streamId, track);
      TracksInEmpty();
    }
  }

  lemma {:induction false} RemoveTrackCore(s: State, env: Env, key: string)
    requires Distinct(env) && Core(s, env) && key in s.tracksByPeerIdMid
    ensures Core(RemoveTrack(s, env.track(key)), env)
    ensures RemoveTrack(s, env.track(key)).metadataByPeerIdMid == s.metadataByPeerIdMid
    ensures RemoveTrack(s, env.track(key)).trackIdToPeerIdMid == s.trackIdToPeerIdMid
    ensures RemoveTrack(s, env.track(key)).tracksByPeerIdMid ==
            s.tracksByPeerIdMid[key := s.tracksByPeerIdMid[key].(association := None)]
  {
    hide RemoveTrack, In, Tidy, WellKeyed;
    RemoveTrackStreams(s, env, key);
    var r, info := RemoveTrack(s, env.track(key)), s.tracksByPeerIdMid[key].(association := None);
    assert s.trackIdToPeerIdMid == s.trackIdToPeerIdMid[info.track := key];
    forall u, id ensures In(r, u, id) == In(s, u, id) - {info.track} {
      if info.track in In(s, u, id) {
        assert Holds(s, key, Association(id, u));
      }
    }
    KeysAfterChange(s, r, env, key, info);
    StreamsAfterChange(s, r, env, key, info);
  }

  lemma {:induction false} RemoveUnknownTrack(s: State, env: Env, track: Track)
    requires KeysAgree(s, env)
    ensures track !in s.trackIdToPeerIdMid ==> RemoveTrack(s, track) == s
    ensures track in s.trackIdToPeerIdMid ==>
              s.trackIdToPeerIdMid[track] in s.tracksByPeerIdMid && track == env.track(s.trackIdToPeerIdMid[track])
  {
  }

  // ---------------------------------------------------------------- one user leaves

  lemma {:induction false} TracksInAt(ss: seq<Stream>, id: string, t: Track)
    requires t in TracksIn(ss, id)
    ensures exists i :: 0 <= i < |ss| && t in ss[i].tracks
  {
    if ss[0].streamId != id {
      TracksInAt(ss[1..], id, t);
      var i :| 0 <= i < |ss[1..]| && t in ss[1..][i].tracks;
      assert t in ss[i + 1].tracks;
    }
  }

  /** Every track of the user loses its association, every other entry stays. */
  lemma {:induction false} UnassociateExact(s: State, env: Env, userId: string, key: string)
    requires Core(s, env) && key in s.tracksByPeerIdMid
    ensures key in UnassociateUserTracks(s, userId).tracksByPeerIdMid
    ensures UnassociateUserTracks(s, userId).tracksByPeerIdMid[key] ==
            if s.tracksByPeerIdMid[key].association.Some? && s.tracksByPeerIdMid[key].association.value.userId == userId
            then s.tracksByPeerIdMid[key].(association := None) else s.tracksByPeerIdMid[key]
  {
    hide TracksIn, WellKeyed;
    var track, info := env.track(key), s.tracksByPeerIdMid[key];
    if info.association.Some? && info.association.value.userId == userId {
      assert track in In(s, userId, info.association.value.streamId);
      TracksInAt(s.streamsByUserId[userId], info.association.value.streamId, track);
    }
    if userId in s.streamsByUserId {
      var ss := s.streamsByUserId[userId];
      if track in TracksOf(ss) {
        var i :| 0 <= i < |ss| && track in ss[i].tracks;
        TracksInSome(ss, i);
        assert track in In(s, userId, ss[i].streamId);
      }
    }
  }

  lemma {:induction false} UnassociateFields(s: State, userId: string)
    ensures var r := UnassociateUserTracks(s, userId);
            && r.trackIdToPeerIdMid == s.trackIdToPeerIdMid
            && r.metadataByPeerIdMid == s.metadataByPeerIdMid
            && r.streamsByUserId == s.streamsByUserId - {userId}
            && r.tracksByPeerIdMid.Keys == s.tracksByPeerIdMid.Keys
            && forall u, id :: In(r, u, id) == if u == userId then {} else In(s, u, id)
  {
    hide TracksIn, TracksOf;
  }

  lemma {:induction false} UnassociateEntries(s: State, env: Env, userId: string)
    requires Core(s, env)
    ensures forall key, a :: Holds(UnassociateUserTracks(s, userId), key, a) <==> Holds(s, key, a) && a.userId != userId
    ensures KeysAgree(UnassociateUserTracks(s, userId), env)
  {
    hide UnassociateUserTracks, WellKeyed, StreamsAgree;
    var r := UnassociateUserTracks(s, userId);
    UnassociateFields(s, userId);
    forall key | key in s.tracksByPeerIdMid
      ensures key in r.tracksByPeerIdMid
      ensures r.tracksByPeerIdMid[key] ==
            if s.tracksByPeerIdMid[key].association.Some? && s.tracksByPeerIdMid[key].association.value.userId == userId
            then s.tracksByPeerIdMid[key].(association := None) else s.tracksByPeerIdMid[key]
    {
      UnassociateExact(s, env, userId, key);
    }
  }

  lemma {:induction false} UnassociateCore(s: State, env: Env, userId: string)
    requires Core(s, env)
    ensures Core(UnassociateUserTracks(s, userId), env)
  {
    hide In, WellKeyed, Tidy, UnassociateUserTracks, Holds;
    UnassociateFields(s, userId);
    UnassociateEntries(s, env, userId);
  }

  // ---------------------------------------------------------------- metadata

  ghost predicate DistinctMids(metadata: seq<TrackMetadata>) {
    forall i, j :: 0 <= i < j < |metadata| ==> metadata[i].mid != metadata[j].mid
  }

  ghost predicate Lists(order: seq<string>, s: State) {
    && (forall k :: k in order <==> k in s.tracksByPeerIdMid)
    && (forall i, j :: 0 <= i < j < |order| ==> order[i] != order[j])
  }

  lemma {:induction false} KeyInMid(peerId: string, m: string, n: string)
    ensures GetPeerIdMid(peerId, m) == GetPeerIdMid(peerId, n) <==> m == n
  {
    assert GetPeerIdMid(peerId, m)[|peerId| + 2..] == m;
    assert GetPeerIdMid(peerId, n)[|peerId| + 2..] == n;
  }

  /** The record has the keys of the entries, each with one of the entries of that key. */
  lemma {:induction false} KeyByLast(peerId: string, metadata: seq<TrackMetadata>, n: nat)
    requires n <= |metadata|
    ensures forall i :: 0 <= i < n ==> GetPeerIdMid(peerId, metadata[i].mid) in KeyBy(peerId, metadata, n)
    ensures forall k :: k in KeyBy(peerId, metadata, n) ==>
              exists i :: 0 <= i < n && k == GetPeerIdMid(peerId, metadata[i].mid)
                          && KeyBy(peerId, metadata, n)[k] == metadata[i]
  {
    hide GetPeerIdMid;
    if n > 0 {
      KeyByLast(peerId, metadata, n - 1);
    }
  }

  /** With distinct mids the record holds each entry under its own key. */
  lemma {:induction false} KeyByExact(peerId: string, metadata: seq<TrackMetadata>, n: nat)
    requires n <= |metadata| && DistinctMids(metadata)
    ensures forall i :: 0 <= i < n ==>
              GetPeerIdMid(peerId, metadata[i].mid) in KeyBy(peerId, metadata, n) &&
              KeyBy(peerId, metadata, n)[GetPeerIdMid(peerId, metadata[i].mid)] == metadata[i]
    ensures forall k :: k in KeyBy(peerId, metadata, n) ==>
              exists i :: 0 <= i < n && k == GetPeerIdMid(peerId, metadata[i].mid)
  {
    hide GetPeerIdMid;
    if n > 0 {
      KeyByExact(peerId, metadata, n - 1);
      forall i | 0 <= i < n - 1
        ensures GetPeerIdMid(peerId, metadata[i].mid) != GetPeerIdMid(peerId, metadata[n - 1].mid)
      {
        KeyInMid(peerId, metadata[i].mid, metadata[n - 1].mid);
      }
    }
  }

  /** Only associations may differ between two sets of entries. */
  ghost predicate SameTracks(s: State, r: State) {
    && r.tracksByPeerIdMid.Keys == s.tracksByPeerIdMid.Keys
    && forall k :: k in s.tracksByPeerIdMid ==>
         r.tracksByPeerIdMid[k] == s.tracksByPeerIdMid[k].(association := r.tracksByPeerIdMid[k].association)
  }

  /** The unnamed ones among the first n keys have lost their association, and nothing else changed. */
  ghost predicate Dropped(s: State, r: State, named: map<string, TrackMetadata>, order: seq<string>, n: nat)
    requires n <= |order|
  {
    SameTracks(s, r) &&
    forall k :: k in s.tracksByPeerIdMid ==>
      r.tracksByPeerIdMid[k].association ==
      if k in order[..n] && k !in named then None else s.tracksByPeerIdMid[k].association
  }

  lemma {:induction false} DroppedStep(s: State, prior: State, r: State, named: map<string, TrackMetadata>,
                                       order: seq<string>, n: nat)
    requires 0 < n <= |order| && Dropped(s, prior, named, order, n - 1) && order[n - 1] in s.tracksByPeerIdMid
    requires r.tracksByPeerIdMid ==
             if order[n - 1] !in named && s.tracksByPeerIdMid[order[n - 1]].association.Some?
             then prior.tracksByPeerIdMid[order[n - 1] := prior.tracksByPeerIdMid[order[n - 1]].(association := None)]
             else prior.tracksByPeerIdMid
    ensures Dropped(s, r, named, order, n)
  {
    assert order[..n] == order[..n - 1] + [order[n - 1]];
  }

  lemma {:induction false} NoneDropped(s: State, named: map<string, TrackMetadata>, order: seq<string>)
    ensures Dropped(s, s, named, order, 0)
  {
  }

  lemma {:induction false} DroppedKeys(s: State, r: State, named: map<string, TrackMetadata>, order: seq<string>,
                                       n: nat)
    requires n <= |order| && Dropped(s, r, named, order, n)
    ensures r.tracksByPeerIdMid.Keys == s.tracksByPeerIdMid.Keys
  {
  }

  lemma {:induction false} ListedIn(order: seq<string>, s: State)
    requires Lists(order, s)
    ensures forall i :: 0 <= i < |order| ==> order[i] in s.tracksByPeerIdMid
  {
  }

  lemma {:induction false} DropUnnamedExact(s: State, env: Env, named: map<string, TrackMetadata>,
                                            order: seq<string>, n: nat)
    requires Distinct(env) && Core(s, env) && Lists(order, s) && n <= |order|
    ensures Core(DropUnnamed(s, named, order, n), env)
    ensures Dropped(s, DropUnnamed(s, named, order, n), named, order, n)
  {
    hide Core, RemoveTrack, WellKeyed, Dropped, Lists;
    ListedIn(order, s);
    if n == 0 {
      NoneDropped(s, named, order);
    } else {
      DropUnnamedExact(s, env, named, order, n - 1);
      var prior, key := DropUnnamed(s, named, order, n - 1), order[n - 1];
      DroppedKeys(s, prior, named, order, n - 1);
      TrackOfEntry(s, env, key);
      RemoveTrackCore(prior, env, key);
      DroppedStep(s, prior, DropUnnamed(s, named, order, n), named, order, n);
    }
  }

  lemma {:induction false} TrackOfEntry(s: State, env: Env, key: string)
    requires Core(s, env) && key in s.tracksByPeerIdMid
    ensures s.tracksByPeerIdMid[key].track == env.track(key)
    ensures WellKeyed(env, key, s.tracksByPeerIdMid[key].mid)
  {
  }

  function Named(m: TrackMetadata): Association {
    Association(m.streamId, m.userId)
  }

  lemma {:induction false} EntryMid(s: State, env: Env, peerId: string, mid: string)
    requires Distinct(env) && Core(s, env) && env.peer(peerId) && GetPeerIdMid(peerId, mid) in s.tracksByPeerIdMid
    ensures s.tracksByPeerIdMid[GetPeerIdMid(peerId, mid)].mid == mid
    ensures s.tracksByPeerIdMid[GetPeerIdMid(peerId, mid)].track == env.track(GetPeerIdMid(peerId, mid))
  {
    var key := GetPeerIdMid(peerId, mid);
    OwnerOf(env, peerId, mid);
    TrackOfEntry(s, env, key);
    KeyInMid(peerId, mid, s.tracksByPeerIdMid[key].mid);
  }

  /** One entry of the metadata leaves its track where it is, or brings it to what the whole metadata says of it. */
  lemma {:induction false} ReassociateExact(s: State, env: Env, now: State, peerId: string, m: TrackMetadata)
    requires Distinct(env) && Core(s, env) && Core(now, env) && env.peer(peerId) && SameTracks(s, now)
    requires var key := GetPeerIdMid(peerId, m.mid);
             && key in now.metadataByPeerIdMid
             && (key in s.tracksByPeerIdMid && s.tracksByPeerIdMid[key].association.None? ==> ResolvedAt(now, env, key))
    ensures var r, key := Reassociate(s, now, peerId, m), GetPeerIdMid(peerId, m.mid);
            && Core(r, env) && r.metadataByPeerIdMid == now.metadataByPeerIdMid
            && r.tracksByPeerIdMid ==
               if key in s.tracksByPeerIdMid && s.tracksByPeerIdMid[key].association != Some(Named(m))
               then now.tracksByPeerIdMid[key :=
                      now.tracksByPeerIdMid[key].(association := Some(Named(now.metadataByPeerIdMid[key])))]
               else now.tracksByPeerIdMid
  {
    hide Core, RemoveTrack, AddTrack, GetPeerIdMid;
    var key := GetPeerIdMid(peerId, m.mid);
    if key in s.tracksByPeerIdMid {
      EntryMid(s, env, peerId, m.mid);
      EntryMid(now, env, peerId, m.mid);
      var t := s.tracksByPeerIdMid[key];
      if t.association.None? {
        AddTrackCore(now, env, peerId, m.mid, m.streamId);
      } else if t.association.value != Named(m) {
        RemoveTrackCore(now, env, key);
        AddTrackCore(RemoveTrack(now, t.track), env, peerId, m.mid, t.association.value.streamId);
      }
    }
  }

  /** The first n entries of that key all say what the state had before. */
  predicate AllAgree(s: State, peerId: string, metadata: seq<TrackMetadata>, n: nat, key: string)
    requires n <= |metadata| && key in s.tracksByPeerIdMid
  {
    forall i :: 0 <= i < n && GetPeerIdMid(peerId, metadata[i].mid) == key ==>
      s.tracksByPeerIdMid[key].association == Some(Named(metadata[i]))
  }

  /** Once n entries are done, a named track is where the metadata wants it, unless none of them moved it. */
  ghost predicate Done(s: State, r: State, peerId: string, metadata: seq<TrackMetadata>, n: nat)
    requires n <= |metadata|
  {
    var named := KeyBy(peerId, metadata, |metadata|);
    && SameTracks(s, r) && r.metadataByPeerIdMid == named
    && forall k :: k in s.tracksByPeerIdMid ==>
         if k in named then
           || r.tracksByPeerIdMid[k].association == Some(Named(named[k]))
           || (AllAgree(s, peerId, metadata, n, k)
               && r.tracksByPeerIdMid[k].association == s.tracksByPeerIdMid[k].association)
         else r.tracksByPeerIdMid[k].association.None?
  }

  lemma {:induction false} DoneStep(s: State, now: State, r: State, peerId: string, metadata: seq<TrackMetadata>,
                                    n: nat)
    requires 0 < n <= |metadata| && Done(s, now, peerId, metadata, n - 1)
    requires r.metadataByPeerIdMid == now.metadataByPeerIdMid
    requires GetPeerIdMid(peerId, metadata[n - 1].mid) in now.metadataByPeerIdMid
    requires var m, key := metadata[n - 1], GetPeerIdMid(peerId, metadata[n - 1].mid);
             r.tracksByPeerIdMid ==
             if key in s.tracksByPeerIdMid && s.tracksByPeerIdMid[key].association != Some(Named(m))
             then now.tracksByPeerIdMid[key :=
                    now.tracksByPeerIdMid[key].(association := Some(Named(now.metadataByPeerIdMid[key])))]
             else now.tracksByPeerIdMid
    ensures Done(s, r, peerId, metadata, n)
  {
    hide GetPeerIdMid, KeyBy, Named;
  }

  lemma {:induction false} DoneResolves(s: State, env: Env, now: State, peerId: string, metadata: seq<TrackMetadata>,
                                        n: nat, key: string)
    requires n <= |metadata| && Done(s, now, peerId, metadata, n)
    requires key in s.tracksByPeerIdMid && s.tracksByPeerIdMid[key].association.None? && key in now.metadataByPeerIdMid
    ensures ResolvedAt(now, env, key)
  {
    hide KeyBy, AllAgree, GetPeerIdMid;
  }

  lemma {:induction false} ReassociateAllExact(s: State, env: Env, dropped: State, peerId: string,
                                               metadata: seq<TrackMetadata>, n: nat)
    requires Distinct(env) && Core(s, env) && Core(dropped, env) && env.peer(peerId)
    requires n <= |metadata| && Done(s, dropped, peerId, metadata, 0)
    ensures Core(ReassociateAll(s, dropped, peerId, metadata, n), env)
    ensures Done(s, ReassociateAll(s, dropped, peerId, metadata, n), peerId, metadata, n)
  {
    hide Core, Reassociate, GetPeerIdMid, Named, Done, KeyBy, ResolvedAt;
    if n > 0 {
      ReassociateAllExact(s, env, dropped, peerId, metadata, n - 1);
      var now, key := ReassociateAll(s, dropped, peerId, metadata, n - 1), GetPeerIdMid(peerId, metadata[n - 1].mid);
      DoneFields(s, now, peerId, metadata, n - 1);
      KeyByLast(peerId, metadata, |metadata|);
      if key in s.tracksByPeerIdMid && s.tracksByPeerIdMid[key].association.None? {
        DoneResolves(s, env, now, peerId, metadata, n - 1, key);
      }
      ReassociateExact(s, env, now, peerId, metadata[n - 1]);
      DoneStep(s, now, Reassociate(s, now, peerId, metadata[n - 1]), peerId, metadata, n);
    }
  }

  lemma {:induction false} DoneFields(s: State, r: State, peerId: string, metadata: seq<TrackMetadata>, n: nat)
    requires n <= |metadata| && Done(s, r, peerId, metadata, n)
    ensures SameTracks(s, r) && r.metadataByPeerIdMid == KeyBy(peerId, metadata, |metadata|)
  {
  }

  /** The entry that counts is one of those that were done. */
  lemma {:induction false} AllDone(s: State, r: State, peerId: string, metadata: seq<TrackMetadata>)
    requires Done(s, r, peerId, metadata, |metadata|)
    ensures var named := KeyBy(peerId, metadata, |metadata|);
            forall k :: k in s.tracksByPeerIdMid ==>
              r.tracksByPeerIdMid[k].association == if k in named then Some(Named(named[k])) else None
  {
    hide GetPeerIdMid, KeyBy, Named;
    KeyByLast(peerId, metadata, |metadata|);
  }

  lemma {:induction false} CoreIgnoresMetadata(s: State, env: Env, metadata: map<string, TrackMetadata>)
    requires Core(s, env)
    ensures Core(s.(metadataByPeerIdMid := metadata), env)
  {
    hide TracksIn, Tidy, WellKeyed;
    var r := s.(metadataByPeerIdMid := metadata);
    forall u, id, t
      ensures t in In(r, u, id) <==> t in r.trackIdToPeerIdMid && Holds(r, r.trackIdToPeerIdMid[t], Association(id, u))
    {
      assert t in In(s, u, id) <==> t in s.trackIdToPeerIdMid && Holds(s, s.trackIdToPeerIdMid[t], Association(id, u));
    }
  }

  /**
   After metadata, every known track it names is associated with exactly the user and stream that its last entry
   names, every other known track with none, and no entry is lost.
   */
  lemma {:induction false} SetMetadataExact(s: State, env: Env, order: seq<string>, peerId: string,
                                            metadata: seq<TrackMetadata>)
    requires Distinct(env) && Core(s, env) && Lists(order, s) && env.peer(peerId)
    ensures var r, named := SetMetadata(s, order, peerId, metadata), KeyBy(peerId, metadata, |metadata|);
            && Inv(r, env) && SameTracks(s, r) && r.metadataByPeerIdMid == named
            && forall k :: k in s.tracksByPeerIdMid ==>
                 r.tracksByPeerIdMid[k].association == if k in named then Some(Named(named[k])) else None
  {
    hide Core, RemoveTrack, KeyBy, DropUnnamed, ReassociateAll, GetPeerIdMid;
    var named := KeyBy(peerId, metadata, |metadata|);
    var unnamed := DropUnnamed(s, named, order, |order|);
    var dropped := unnamed.(metadataByPeerIdMid := named);
    DropUnnamedExact(s, env, named, order, |order|);
    assert order[..|order|] == order;
    CoreIgnoresMetadata(unnamed, env, named);
    ReassociateAllExact(s, env, dropped, peerId, metadata, |metadata|);
    AllDone(s, ReassociateAll(s, dropped, peerId, metadata, |metadata|), peerId, metadata);
  }

  lemma {:induction false} DropsNothing(s: State, named: map<string, TrackMetadata>, order: seq<string>, n: nat)
    requires n <= |order| && forall i :: 0 <= i < |order| ==> order[i] in s.tracksByPeerIdMid
    requires forall k :: k in s.tracksByPeerIdMid && k !in named ==> s.tracksByPeerIdMid[k].association.None?
    ensures DropUnnamed(s, named, order, n) == s
  {
    if n > 0 {
      DropsNothing(s, named, order, n - 1);
    }
  }

  lemma {:induction false} ReassociatesNothing(s: State, peerId: string, metadata: seq<TrackMetadata>, n: nat)
    requires n <= |metadata|
    requires forall i :: 0 <= i < |metadata| ==>
               var key := GetPeerIdMid(peerId, metadata[i].mid);
               key in s.tracksByPeerIdMid ==> s.tracksByPeerIdMid[key].association == Some(Named(metadata[i]))
    ensures ReassociateAll(s, s, peerId, metadata, n) == s
  {
    hide GetPeerIdMid;
    if n > 0 {
      ReassociatesNothing(s, peerId, metadata, n - 1);
    }
  }

  /** The same metadata again changes nothing. */
  lemma {:induction false} SetMetadataIdempotent(s: State, env: Env, order: seq<string>, again: seq<string>,
                                                 peerId: string, metadata: seq<TrackMetadata>)
    requires Distinct(env) && Core(s, env) && Lists(order, s) && env.peer(peerId) && DistinctMids(metadata)
    requires Lists(again, SetMetadata(s, order, peerId, metadata))
    ensures SetMetadata(SetMetadata(s, order, peerId, metadata), again, peerId, metadata) ==
            SetMetadata(s, order, peerId, metadata)
  {
    hide Core, KeyBy, DropUnnamed, ReassociateAll, GetPeerIdMid, ResolvedAt;
    SetMetadataExact(s, env, order, peerId, metadata);
    var r, named := SetMetadata(s, order, peerId, metadata), KeyBy(peerId, metadata, |metadata|);
    KeyByExact(peerId, metadata, |metadata|);
    DropsNothing(r, named, again, |again|);
    ReassociatesNothing(r, peerId, metadata, |metadata|);
  }

  /** The entries determine the track ids, and what is in which stream. */
  lemma {:induction false} EntriesDetermine(s: State, r: State, env: Env)
    requires Distinct(env) && Core(s, env) && Core(r, env) && s.tracksByPeerIdMid == r.tracksByPeerIdMid
    ensures s.trackIdToPeerIdMid == r.trackIdToPeerIdMid
    ensures forall u, id :: In(s, u, id) == In(r, u, id)
  {
    hide In, Tidy, WellKeyed, Apart;
    assert s.trackIdToPeerIdMid.Keys == r.trackIdToPeerIdMid.Keys;
    forall t | t in s.trackIdToPeerIdMid ensures s.trackIdToPeerIdMid[t] == r.trackIdToPeerIdMid[t] {
      KeyOfTrack(r, env, s.trackIdToPeerIdMid[t]);
    }
    forall u, id ensures In(s, u, id) == In(r, u, id) {
      forall t ensures t in In(s, u, id) <==> t in In(r, u, id) {
        var a := Association(id, u);
        assert t in In(s, u, id) <==> t in s.trackIdToPeerIdMid && Holds(s, s.trackIdToPeerIdMid[t], a);
        assert t in In(r, u, id) <==> t in r.trackIdToPeerIdMid && Holds(r, r.trackIdToPeerIdMid[t], a);
      }
    }
  }

  /** Even if it names a mid twice, the same metadata again moves no track. */
  lemma {:induction false} SetMetadataAgain(s: State, env: Env, order: seq<string>, again: seq<string>,
                                            peerId: string, metadata: seq<TrackMetadata>)
    requires Distinct(env) && Core(s, env) && Lists(order, s) && env.peer(peerId)
    requires Lists(again, SetMetadata(s, order, peerId, metadata))
    ensures var r := SetMetadata(s, order, peerId, metadata);
            var q := SetMetadata(r, again, peerId, metadata);
            && q.tracksByPeerIdMid == r.tracksByPeerIdMid && q.metadataByPeerIdMid == r.metadataByPeerIdMid
            && q.trackIdToPeerIdMid == r.trackIdToPeerIdMid
            && forall u, id :: In(q, u, id) == In(r, u, id)
  {
    hide Core, SetMetadata, KeyBy, ResolvedAt, In, Distinct;
    SetMetadataExact(s, env, order, peerId, metadata);
    var r := SetMetadata(s, order, peerId, metadata);
    SetMetadataExact(r, env, again, peerId, metadata);
    var q := SetMetadata(r, again, peerId, metadata);
    assert q.tracksByPeerIdMid == r.tracksByPeerIdMid;
    EntriesDetermine(q, r, env);
  }

  // ---------------------------------------------------------------- one peer leaves

  /** A state without the entries of gone. */
  function Without(s: State, gone: set<string>): State {
    s.(tracksByPeerIdMid := s.tracksByPeerIdMid - gone)
  }

  lemma {:induction false} RemoveTrackWithout(s: State, gone: set<string>, track: Track)
    requires track in s.trackIdToPeerIdMid ==> s.trackIdToPeerIdMid[track] !in gone
    ensures Without(RemoveTrack(s, track), gone) == RemoveTrack(Without(s, gone), track)
  {
    hide RemoveFromStreams, HasStream;
  }

  function DropFrom(s: State, env: Env, key: string): State {
    s.(tracksByPeerIdMid := s.tracksByPeerIdMid - {key}, trackIdToPeerIdMid := s.trackIdToPeerIdMid - {env.track(key)})
  }

  lemma {:induction false} KeysAfterDrop(s: State, env: Env, key: string)
    requires Distinct(env) && KeysAgree(s, env) && key in s.tracksByPeerIdMid
    ensures KeysAgree(DropFrom(s, env, key), env)
  {
    hide WellKeyed;
    KeyOfTrack(s, env, key);
  }

  lemma {:induction false} StreamsAfterDrop(s: State, env: Env, key: string)
    requires Distinct(env) && Core(s, env)
    requires key in s.tracksByPeerIdMid && s.tracksByPeerIdMid[key].association.None?
    ensures StreamsAgree(DropFrom(s, env, key))
  {
    hide Tidy, WellKeyed, In;
    var r := DropFrom(s, env, key);
    KeyOfTrack(s, env, key);
    forall u, id ensures In(r, u, id) == In(s, u, id) {
      SameStreams(r, s, u, id);
    }
    forall u, id, t
      ensures t in In(r, u, id) <==> t in r.trackIdToPeerIdMid && Holds(r, r.trackIdToPeerIdMid[t], Association(id, u))
    {
      assert t in In(s, u, id) <==> t in s.trackIdToPeerIdMid && Holds(s, s.trackIdToPeerIdMid[t], Association(id, u));
      if t in s.trackIdToPeerIdMid {
        assert t == env.track(s.trackIdToPeerIdMid[t]);
      }
    }
  }

  lemma {:induction false} SameStreams(s: State, r: State, userId: string, streamId: string)
    requires s.streamsByUserId == r.streamsByUserId
    ensures In(s, userId, streamId) == In(r, userId, streamId)
  {
  }

  /** An unassociated entry can go, together with its track id. */
  lemma {:induction false} DropEntry(s: State, env: Env, key: string)
    requires Distinct(env) && Core(s, env)
    requires key in s.tracksByPeerIdMid && s.tracksByPeerIdMid[key].association.None?
    ensures Core(DropFrom(s, env, key), env)
  {
    hide KeysAgree, StreamsAgree, DropFrom;
    KeysAfterDrop(s, env, key);
    StreamsAfterDrop(s, env, key);
  }

  function Gone(order: seq<string>, peerId: string, n: nat): set<string>
    requires n <= |order|
  {
    set i | 0 <= i < n && OfPeer(order[i], peerId) :: order[i]
  }

  lemma {:induction false} ForgetTrackExact(s: State, env: Env, now: State, gone: set<string>, key: string)
    requires Distinct(env) && Core(Without(now, gone), env)
    requires key in s.tracksByPeerIdMid && key in now.tracksByPeerIdMid && key !in gone
    requires now.tracksByPeerIdMid[key] == s.tracksByPeerIdMid[key]
    ensures var r := ForgetTrack(s, now, key);
            && Core(Without(r, gone + {key}), env)
            && r.metadataByPeerIdMid == now.metadataByPeerIdMid
            && r.tracksByPeerIdMid ==
               now.tracksByPeerIdMid[key :=
                 now.tracksByPeerIdMid[key].(association := r.tracksByPeerIdMid[key].association)]
  {
    hide Core, RemoveTrack;
    var l, t := Without(now, gone), s.tracksByPeerIdMid[key];
    assert l.tracksByPeerIdMid[key] == t;
    TrackOfEntry(l, env, key);
    KeyOfEntry(l, env, key);
    RemoveTrackWithout(now, gone, t.track);
    RemoveTrackCore(l, env, key);
    var freed := if t.association.Some? then RemoveTrack(now, t.track) else now;
    RemoveTrackFields(now, key, t.track);
    DropEntry(Without(freed, gone), env, key);
    assert (freed.tracksByPeerIdMid - gone) - {key} == freed.tracksByPeerIdMid - (gone + {key});
  }

  lemma {:induction false} KeyOfEntry(s: State, env: Env, key: string)
    requires Core(s, env) && key in s.tracksByPeerIdMid
    ensures env.track(key) in s.trackIdToPeerIdMid && s.trackIdToPeerIdMid[env.track(key)] == key
  {
  }

  lemma {:induction false} RemoveTrackFields(s: State, key: string, track: Track)
    requires track in s.trackIdToPeerIdMid && s.trackIdToPeerIdMid[track] == key && key in s.tracksByPeerIdMid
    requires s.tracksByPeerIdMid[key].track == track
    ensures var r := RemoveTrack(s, track);
            && key in r.tracksByPeerIdMid
            && r.tracksByPeerIdMid ==
               s.tracksByPeerIdMid[key :=
                 s.tracksByPeerIdMid[key].(association := r.tracksByPeerIdMid[key].association)]
            && r.metadataByPeerIdMid == s.metadataByPeerIdMid
            && r.trackIdToPeerIdMid == s.trackIdToPeerIdMid
  {
    hide RemoveFromStreams, HasStream;
  }

  ghost predicate Untouched(s: State, r: State, gone: set<string>) {
    && r.tracksByPeerIdMid.Keys == s.tracksByPeerIdMid.Keys
    && forall k :: k in s.tracksByPeerIdMid && k !in gone ==> r.tracksByPeerIdMid[k] == s.tracksByPeerIdMid[k]
  }

  /** The next key visited is a new one; it joins the set of gone keys if the peer owns it. */
  lemma {:induction false} GoneStep(order: seq<string>, peerId: string, n: nat)
    requires 0 < n <= |order| && forall i, j :: 0 <= i < j < |order| ==> order[i] != order[j]
    ensures order[n - 1] !in Gone(order, peerId, n - 1)
    ensures Gone(order, peerId, n) ==
            Gone(order, peerId, n - 1) + if OfPeer(order[n - 1], peerId) then {order[n - 1]} else {}
  {
    hide OfPeer;
  }

  lemma {:induction false} UntouchedStep(s: State, prior: State, r: State, gone: set<string>, key: string)
    requires Untouched(s, prior, gone) && key in prior.tracksByPeerIdMid && key in r.tracksByPeerIdMid
    requires r.tracksByPeerIdMid == prior.tracksByPeerIdMid[key :=
               prior.tracksByPeerIdMid[key].(association := r.tracksByPeerIdMid[key].association)]
    ensures Untouched(s, r, gone + {key})
  {
  }

  lemma {:induction false} ForgetTracksExact(s: State, env: Env, order: seq<string>, peerId: string, n: nat)
    requires Distinct(env) && Core(s, env) && Lists(order, s) && n <= |order|
    ensures var r, gone := ForgetTracks(s, order, peerId, n), Gone(order, peerId, n);
            Core(Without(r, gone), env) && Untouched(s, r, gone) && r.metadataByPeerIdMid == s.metadataByPeerIdMid
  {
    hide Core, OfPeer, ForgetTrack, Gone;
    if n == 0 {
      NoneGone(s, order, peerId);
    } else {
      ForgetTracksExact(s, env, order, peerId, n - 1);
      var prior, key, before := ForgetTracks(s, order, peerId, n - 1), order[n - 1], Gone(order, peerId, n - 1);
      assert key in order;
      GoneStep(order, peerId, n);
      if OfPeer(key, peerId) {
        ForgetTrackExact(s, env, prior, before, key);
        UntouchedStep(s, prior, ForgetTrack(s, prior, key), before, key);
      } else {
        assert before + {} == before;
      }
    }
  }

  lemma {:induction false} NoneGone(s: State, order: seq<string>, peerId: string)
    ensures Gone(order, peerId, 0) == {} && Without(s, {}) == s
  {
    assert s.tracksByPeerIdMid - {} == s.tracksByPeerIdMid;
  }

  /**
   When a peer leaves, its entries are gone, in the maps and in the streams, and no other entry changes: what a
   prefix test on the keys finds is what the peer owns.
   */
  lemma {:induction false} RemovePeerExact(s: State, env: Env, order: seq<string>, peerId: string)
    requires Distinct(env) && Core(s, env) && Lists(order, s) && env.peer(peerId)
    ensures var r := RemovePeer(s, order, peerId);
            && Core(r, env) && r.metadataByPeerIdMid == s.metadataByPeerIdMid
            && r.tracksByPeerIdMid ==
               map k | k in s.tracksByPeerIdMid && Owner(env, k) != peerId :: s.tracksByPeerIdMid[k]
  {
    hide Core, ForgetTracks, OfPeer, Owner;
    var gone, left := Gone(order, peerId, |order|), ForgetTracks(s, order, peerId, |order|);
    ForgetTracksExact(s, env, order, peerId, |order|);
    forall k | k in s.tracksByPeerIdMid ensures OfPeer(k, peerId) <==> Owner(env, k) == peerId {
      TrackOfEntry(s, env, k);
      PrefixFindsPeer(env, peerId, Owner(env, k), s.tracksByPeerIdMid[k].mid);
    }
    var r := RemovePeer(s, order, peerId);
    assert r.tracksByPeerIdMid == Without(left, gone).tracksByPeerIdMid;
    assert r == Without(left, gone);
  }

  // ---------------------------------------------------------------- every reachable state

  datatype Action =
    | TrackAdded(peerId: string, mid: string)
    | TrackRemoved(track: Track)
    | NicknameRemoved(userId: string)
    | MetadataReceived(order: seq<string>, peerId: string, metadata: seq<TrackMetadata>)
    | PeerRemoved(order: seq<string>, peerId: string)
    | HungUp

  function Reduce(s: State, env: Env, a: Action): State
    requires Possible(s, env, a)
  {
    match a
    case TrackAdded(peerId, mid) =>
      var key := GetPeerIdMid(peerId, mid);
      AddTrack(s, peerId, mid, env.stream(key), env.track(key))
    case TrackRemoved(track) => RemoveTrack(s, track)
    case NicknameRemoved(userId) => UnassociateUserTracks(s, userId)
    case MetadataReceived(order, peerId, metadata) => SetMetadata(s, order, peerId, metadata)
    case PeerRemoved(order, peerId) => RemovePeer(s, order, peerId)
    case HungUp => DEFAULT_STATE
  }

  /** The peers have clean ids, a message names each mid once, and records are walked key by key. */
  ghost predicate Possible(s: State, env: Env, a: Action) {
    match a
    case TrackAdded(peerId, mid) => env.peer(peerId)
    case TrackRemoved(track) => true
    case NicknameRemoved(userId) => true
    case MetadataReceived(order, peerId, metadata) => Lists(order, s) && env.peer(peerId)
    case PeerRemoved(order, peerId) => Lists(order, s) && env.peer(peerId)
    case HungUp => true
  }

  // ---------------------------------------------------------------- what each action does, entry by entry

  /** The association of an entry with this user and stream. */
  predicate AssociatedWith(t: TrackInfo, userId: string, streamId: string) {
    t.association.Some? && t.association.value.userId == userId && t.association.value.streamId == streamId
  }

  /** An entry of the same track and mid. */
  predicate SameTrack(t: TrackInfo, u: TrackInfo) {
    t.track == u.track && t.mid == u.mid
  }

  /** All entries but that of the key are the same. */
  ghost predicate OthersStay(s: State, r: State, key: string) {
    && (forall k :: k != key ==> (k in r.tracksByPeerIdMid <==> k in s.tracksByPeerIdMid))
    && (forall k :: k != key && k in s.tracksByPeerIdMid ==> r.tracksByPeerIdMid[k] == s.tracksByPeerIdMid[k])
  }

  ghost predicate KeysStay(s: State, r: State) {
    && (forall k :: k in r.tracksByPeerIdMid <==> k in s.tracksByPeerIdMid)
    && (forall k :: k in s.tracksByPeerIdMid ==> SameTrack(r.tracksByPeerIdMid[k], s.tracksByPeerIdMid[k]))
  }

  /** Entry i of the metadata is the last one for the key. */
  predicate LastFor(peerId: string, metadata: seq<TrackMetadata>, n: nat, key: string, i: int)
    requires n <= |metadata|
  {
    && 0 <= i < n && key == peerId + "::" + metadata[i].mid
    && forall j :: i < j < n ==> key != peerId + "::" + metadata[j].mid
  }

  /** The record has exactly the keys of the entries, each with its last one. */
  lemma {:induction false} KeyByIsLast(peerId: string, metadata: seq<TrackMetadata>, n: nat, key: string)
    requires n <= |metadata|
    ensures key in KeyBy(peerId, metadata, n) ==>
              exists i :: LastFor(peerId, metadata, n, key, i) && KeyBy(peerId, metadata, n)[key] == metadata[i]
    ensures key !in KeyBy(peerId, metadata, n) ==> forall i :: 0 <= i < n ==> key != peerId + "::" + metadata[i].mid
  {
    if n > 0 {
      KeyByIsLast(peerId, metadata, n - 1, key);
      if key == GetPeerIdMid(peerId, metadata[n - 1].mid) {
        assert LastFor(peerId, metadata, n, key, n - 1);
      } else if key in KeyBy(peerId, metadata, n - 1) {
        var i :| LastFor(peerId, metadata, n - 1, key, i) && KeyBy(peerId, metadata, n - 1)[key] == metadata[i];
        assert LastFor(peerId, metadata, n, key, i);
      }
    }
  }

  ghost predicate AddedExactly(s: State, env: Env, peerId: string, mid: string, r: State) {
    var key := peerId + "::" + mid;
    && OthersStay(s, r, key) && r.metadataByPeerIdMid == s.metadataByPeerIdMid
    && key in r.tracksByPeerIdMid
    && var t := r.tracksByPeerIdMid[key];
    && t.track == env.track(key) && t.mid == mid
    && if key in s.metadataByPeerIdMid
       then AssociatedWith(t, s.metadataByPeerIdMid[key].userId, s.metadataByPeerIdMid[key].streamId)
       else AssociatedWith(t, peerId, env.stream(key))
  }

  ghost predicate RemovedExactly(s: State, track: Track, r: State) {
    && r.metadataByPeerIdMid == s.metadataByPeerIdMid
    && if track in s.trackIdToPeerIdMid then
         var key := s.trackIdToPeerIdMid[track];
         && OthersStay(s, r, key)
         && key in s.tracksByPeerIdMid && key in r.tracksByPeerIdMid
         && SameTrack(r.tracksByPeerIdMid[key], s.tracksByPeerIdMid[key])
         && r.tracksByPeerIdMid[key].association.None?
       else r == s
  }

  ghost predicate UserRemovedExactly(s: State, userId: string, r: State) {
    && KeysStay(s, r) && r.metadataByPeerIdMid == s.metadataByPeerIdMid && userId !in r.streamsByUserId
    && forall k :: k in s.tracksByPeerIdMid ==>
         var a := s.tracksByPeerIdMid[k].association;
         r.tracksByPeerIdMid[k].association == if a.Some? && a.value.userId == userId then None else a
  }

  ghost predicate FollowsMetadata(s: State, peerId: string, metadata: seq<TrackMetadata>, r: State) {
    && KeysStay(s, r)
    && forall k :: k in s.tracksByPeerIdMid ==>
         if forall i :: 0 <= i < |metadata| ==> k != peerId + "::" + metadata[i].mid
         then r.tracksByPeerIdMid[k].association.None? && k !in r.metadataByPeerIdMid
         else exists i :: LastFor(peerId, metadata, |metadata|, k, i)
                          && k in r.metadataByPeerIdMid && r.metadataByPeerIdMid[k] == metadata[i]
                          && AssociatedWith(r.tracksByPeerIdMid[k], metadata[i].userId, metadata[i].streamId)
  }

  ghost predicate PeerGone(s: State, peerId: string, r: State) {
    && r.metadataByPeerIdMid == s.metadataByPeerIdMid
    && (forall k :: k in r.tracksByPeerIdMid <==> k in s.tracksByPeerIdMid && !(peerId + "::" <= k))
    && (forall k :: k in r.tracksByPeerIdMid ==> r.tracksByPeerIdMid[k] == s.tracksByPeerIdMid[k])
  }

  /** Which entries there are after an action, and whose they are; where the tracks are follows (StreamsAgree). */
  ghost predicate Reduced(s: State, env: Env, a: Action, r: State) {
    match a
    case TrackAdded(peerId, mid) => AddedExactly(s, env, peerId, mid, r)
    case TrackRemoved(track) => RemovedExactly(s, track, r)
    case NicknameRemoved(userId) => UserRemovedExactly(s, userId, r)
    case MetadataReceived(order, peerId, metadata) => FollowsMetadata(s, peerId, metadata, r)
    case PeerRemoved(order, peerId) => PeerGone(s, peerId, r)
    case HungUp => r == State(map[], map[], map[], map[])
  }

  lemma {:induction false} MetadataIsFollowed(s: State, env: Env, order: seq<string>, peerId: string,
                                              metadata: seq<TrackMetadata>)
    requires Distinct(env) && Core(s, env) && Lists(order, s) && env.peer(peerId)
    ensures FollowsMetadata(s, peerId, metadata, SetMetadata(s, order, peerId, metadata))
  {
    hide Core, Distinct, SetMetadata, KeyBy, Inv;
    SetMetadataExact(s, env, order, peerId, metadata);
    var r := SetMetadata(s, order, peerId, metadata);
    forall k | k in s.tracksByPeerIdMid
      ensures if forall i :: 0 <= i < |metadata| ==> k != peerId + "::" + metadata[i].mid
              then r.tracksByPeerIdMid[k].association.None? && k !in r.metadataByPeerIdMid
              else exists i :: LastFor(peerId, metadata, |metadata|, k, i)
                               && k in r.metadataByPeerIdMid && r.metadataByPeerIdMid[k] == metadata[i]
                               && AssociatedWith(r.tracksByPeerIdMid[k], metadata[i].userId, metadata[i].streamId)
    {
      KeyByIsLast(peerId, metadata, |metadata|, k);
      if k in r.metadataByPeerIdMid {
        var i :| LastFor(peerId, metadata, |metadata|, k, i) && r.metadataByPeerIdMid[k] == metadata[i];
        assert LastFor(peerId, metadata, |metadata|, k, i);
      }
    }
  }

  lemma {:induction false} UserIsRemoved(s: State, env: Env, userId: string)
    requires Core(s, env)
    ensures UserRemovedExactly(s, userId, UnassociateUserTracks(s, userId))
  {
    hide Core, UnassociateUserTracks;
    UnassociateFields(s, userId);
    forall k | k in s.tracksByPeerIdMid {
      UnassociateExact(s, env, userId, k);
    }
  }

  lemma {:induction false} PeerIsGone(s: State, env: Env, order: seq<string>, peerId: string)
    requires Distinct(env) && Core(s, env) && Lists(order, s) && env.peer(peerId)
    ensures PeerGone(s, peerId, RemovePeer(s, order, peerId))
  {
    hide Core, Distinct, RemovePeer, Owner, Lists;
    RemovePeerExact(s, env, order, peerId);
    forall k | k in s.tracksByPeerIdMid ensures peerId + "::" <= k <==> Owner(env, k) == peerId {
      TrackOfEntry(s, env, k);
      PrefixFindsPeer(env, peerId, Owner(env, k), s.tracksByPeerIdMid[k].mid);
    }
  }

  lemma {:induction false} TrackIsAdded(s: State, env: Env, peerId: string, mid: string)
    requires Distinct(env) && Inv(s, env) && env.peer(peerId)
    ensures var key := peerId + "::" + mid;
            AddedExactly(s, env, peerId, mid, AddTrack(s, peerId, mid, env.stream(key), env.track(key)))
  {
    hide Core, Distinct, AddTrack, ResolvedAt;
    var key := GetPeerIdMid(peerId, mid);
    assert key == peerId + "::" + mid;
    AddTrackCore(s, env, peerId, mid, env.stream(key));
    OwnerOf(env, peerId, mid);
    hide GetPeerIdMid, Owner;
  }

  lemma {:induction false} TrackIsRemoved(s: State, env: Env, track: Track)
    requires Distinct(env) && Core(s, env)
    ensures RemovedExactly(s, track, RemoveTrack(s, track))
  {
    hide Core, Distinct, RemoveTrack;
    KnownTrack(s, env, track);
    if track in s.trackIdToPeerIdMid {
      RemoveTrackCore(s, env, s.trackIdToPeerIdMid[track]);
    }
  }

  /** Action by action, in every state that keeps the invariant. */
  lemma {:induction false} ReduceExact(s: State, env: Env, a: Action)
    requires Distinct(env) && Inv(s, env) && Possible(s, env, a)
    ensures Reduced(s, env, a, Reduce(s, env, a))
  {
    hide Core, Distinct, AddedExactly, RemovedExactly, UserRemovedExactly, FollowsMetadata, PeerGone, RemoveTrack,
      AddTrack, SetMetadata, RemovePeer, UnassociateUserTracks;
    match a
    case TrackAdded(peerId, mid) => TrackIsAdded(s, env, peerId, mid);
    case TrackRemoved(track) => TrackIsRemoved(s, env, track);
    case NicknameRemoved(userId) => UserIsRemoved(s, env, userId);
    case MetadataReceived(order, peerId, metadata) => MetadataIsFollowed(s, env, order, peerId, metadata);
    case PeerRemoved(order, peerId) => PeerIsGone(s, env, order, peerId);
    case HungUp =>
  }

  ghost predicate Reaches(s: State, env: Env, actions: seq<Action>, r: State)
    decreases |actions|
  {
    if |actions| == 0 then s == r
    else Possible(s, env, actions[0]) && Reaches(Reduce(s, env, actions[0]), env, actions[1..], r)
  }

  lemma {:induction false} InvAtStart(env: Env)
    ensures Inv(DEFAULT_STATE, env)
  {
  }

  lemma {:induction false} ResolvedStays(s: State, r: State, env: Env, key: string)
    requires ResolvedAt(s, env, key) && r.metadataByPeerIdMid == s.metadataByPeerIdMid
    requires forall a :: Holds(r, key, a) ==> Holds(s, key, a)
    ensures ResolvedAt(r, env, key)
  {
    hide Owner;
    if key in r.tracksByPeerIdMid && r.tracksByPeerIdMid[key].association.Some? {
      assert Holds(r, key, r.tracksByPeerIdMid[key].association.value);
    }
  }

  lemma {:induction false} AddedResolved(s: State, r: State, env: Env, key: string, mid: string)
    requires forall k :: ResolvedAt(s, env, k)
    requires r.metadataByPeerIdMid == s.metadataByPeerIdMid
    requires r.tracksByPeerIdMid ==
             s.tracksByPeerIdMid[key := TrackInfo(env.track(key), mid, Some(Resolve(s, env, key)))]
    ensures forall k :: ResolvedAt(r, env, k)
  {
    hide Owner;
    forall k ensures ResolvedAt(r, env, k) {
      assert ResolvedAt(s, env, k);
    }
  }

  lemma {:induction false} KnownTrack(s: State, env: Env, track: Track)
    requires Core(s, env)
    ensures track !in s.trackIdToPeerIdMid ==> RemoveTrack(s, track) == s
    ensures track in s.trackIdToPeerIdMid ==>
              s.trackIdToPeerIdMid[track] in s.tracksByPeerIdMid && track == env.track(s.trackIdToPeerIdMid[track])
  {
    RemoveUnknownTrack(s, env, track);
  }

  lemma {:induction false} RemovedHolds(s: State, r: State, key: string, a: Association)
    requires r.tracksByPeerIdMid == s.tracksByPeerIdMid
             || exists k :: k in s.tracksByPeerIdMid && r.tracksByPeerIdMid ==
                  s.tracksByPeerIdMid[k := s.tracksByPeerIdMid[k].(association := None)]
    ensures Holds(r, key, a) ==> Holds(s, key, a)
  {
  }

  lemma {:induction false} RemovedPeerHolds(s: State, env: Env, order: seq<string>, peerId: string, key: string)
    requires Distinct(env) && Core(s, env) && Lists(order, s) && env.peer(peerId)
    ensures forall a :: Holds(RemovePeer(s, order, peerId), key, a) ==> Holds(s, key, a)
  {
    hide Core, RemovePeer;
    RemovePeerExact(s, env, order, peerId);
  }

  lemma {:induction false} RemovedKeepsInv(s: State, env: Env, track: Track)
    requires Distinct(env) && Inv(s, env)
    ensures Inv(RemoveTrack(s, track), env)
  {
    hide Core, RemoveTrack, ResolvedAt, Holds;
    var r := RemoveTrack(s, track);
    KnownTrack(s, env, track);
    if track in s.trackIdToPeerIdMid {
      RemoveTrackCore(s, env, s.trackIdToPeerIdMid[track]);
    }
    forall key ensures ResolvedAt(r, env, key) {
      forall a ensures Holds(r, key, a) ==> Holds(s, key, a) {
        RemovedHolds(s, r, key, a);
      }
      ResolvedStays(s, r, env, key);
    }
  }

  /** Every action keeps the maps in agreement. */
  lemma {:induction false} ActionKeepsInv(s: State, env: Env, a: Action)
    requires Distinct(env) && Inv(s, env) && Possible(s, env, a)
    ensures Inv(Reduce(s, env, a), env)
  {
    hide Core, Holds, ResolvedAt, SetMetadata, RemovePeer, RemoveTrack, UnassociateUserTracks, AddTrack;
    match a
    case TrackAdded(peerId, mid) =>
      var key := GetPeerIdMid(peerId, mid);
      AddTrackCore(s, env, peerId, mid, env.stream(key));
      AddedResolved(s, Reduce(s, env, a), env, key, mid);
    case TrackRemoved(track) =>
      RemovedKeepsInv(s, env, track);
    case NicknameRemoved(userId) =>
      UnassociateCore(s, env, userId);
      UnassociateFields(s, userId);
      UnassociateEntries(s, env, userId);
      forall key ensures ResolvedAt(Reduce(s, env, a), env, key) {
        ResolvedStays(s, Reduce(s, env, a), env, key);
      }
    case MetadataReceived(order, peerId, metadata) =>
      SetMetadataExact(s, env, order, peerId, metadata);
    case PeerRemoved(order, peerId) =>
      RemovePeerExact(s, env, order, peerId);
      forall key ensures ResolvedAt(Reduce(s, env, a), env, key) {
        RemovedPeerHolds(s, env, order, peerId, key);
        ResolvedStays(s, Reduce(s, env, a), env, key);
      }
    case HungUp =>
      InvAtStart(env);
  }

  /** The maps agree in every reachable state. */
  lemma {:induction false} ReachableInv(s: State, env: Env, actions: seq<Action>, r: State)
    requires Distinct(env) && Inv(s, env) && Reaches(s, env, actions, r)
    ensures Inv(r, env)
    decreases |actions|
  {
    hide Inv, Reduce, Possible;
    if |actions| > 0 {
      ActionKeepsInv(s, env, actions[0]);
      ReachableInv(Reduce(s, env, actions[0]), env, actions[1..], r);
    }
  }

  lemma {:induction false} MapsAgree(env: Env, actions: seq<Action>, r: State)
    requires Distinct(env) && Reaches(DEFAULT_STATE, env, actions, r)
    ensures Inv(r, env)
  {
    InvAtStart(env);
    ReachableInv(DEFAULT_STATE, env, actions, r);
  }
}
