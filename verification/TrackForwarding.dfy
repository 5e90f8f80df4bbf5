/**
 The forwarding table of a room: every track that one transport receives is sent to all the others.
 Objects and their methods; TrackForwardingRuns has the runs.
 */
module TrackForwarding {
  import opened Wrappers
  import Bitrate

  type ClientID = string

  datatype TrackInfo = TrackInfo(payloadType: byte, ssrc: SSRC, id: string, streamLabel: string)

  datatype TrackMetadata = TrackMetadata(mid: string, userID: ClientID, streamID: string, kind: string)

  type Tracks = map<SSRC, TrackInfo>

  // ---------------------------------------------------------------- what a track event does to the room

  function Put(tracks: Tracks, track: TrackInfo): Tracks {
    tracks[track.ssrc := track]
  }

  /** Every transport gets the track except those named. */
  function Gain(local: map<ClientID, Tracks>, except: set<ClientID>, track: TrackInfo): map<ClientID, Tracks> {
    map c | c in local :: if c in except then local[c] else Put(local[c], track)
  }

  /** Every transport loses the track except those named. */
  function Lose(local: map<ClientID, Tracks>, except: set<ClientID>, ssrc: SSRC): map<ClientID, Tracks> {
    map c | c in local :: if c in except then local[c] else local[c] - {ssrc}
  }

  lemma {:induction false} GainNone(local: map<ClientID, Tracks>, except: set<ClientID>, track: TrackInfo)
    ensures Gain(local, local.Keys + except, track) == local
  {
  }

  lemma {:induction false} LoseNone(local: map<ClientID, Tracks>, except: set<ClientID>, ssrc: SSRC)
    ensures Lose(local, local.Keys + except, ssrc) == local
  {
  }

  lemma {:induction false} GainStep(local: map<ClientID, Tracks>, todo: set<ClientID>, except: set<ClientID>,
                                    next: ClientID, track: TrackInfo)
    requires next in todo && next in local
    ensures Gain(local, todo - {next} + except, track) ==
            if next in except then Gain(local, todo + except, track)
            else Gain(local, todo + except, track)[next := Put(local[next], track)]
    ensures next in Gain(local, todo + except, track) && Gain(local, todo + except, track)[next] == local[next]
  {
  }

  lemma {:induction false} LoseStep(local: map<ClientID, Tracks>, todo: set<ClientID>, except: set<ClientID>,
                                    next: ClientID, ssrc: SSRC)
    requires next in todo && next in local
    ensures Lose(local, todo - {next} + except, ssrc) ==
            if next in except then Lose(local, todo + except, ssrc)
            else Lose(local, todo + except, ssrc)[next := local[next] - {ssrc}]
    ensures next in Lose(local, todo + except, ssrc) && Lose(local, todo + except, ssrc)[next] == local[next]
  {
  }

  /** What a joining transport sends after the first n of the others gave it their tracks. */
  function CopyAll(own: Tracks, remote: map<ClientID, Tracks>, order: seq<ClientID>, n: nat): Tracks
    requires n <= |order| && forall i :: 0 <= i < |order| ==> order[i] in remote
  {
    if n == 0 then own else CopyAll(own, remote, order, n - 1) + remote[order[n - 1]]
  }

  /** Every member once, in some order. */
  ghost predicate Walks(order: seq<ClientID>, members: set<ClientID>) {
    && (forall c :: c in order <==> c in members)
    && (forall i, j :: 0 <= i < j < |order| ==> order[i] != order[j])
  }

  /** Nobody is on record as the empty id. */
  function MetadataOf(track: TrackInfo, mid: string, kind: string, clientIDBySSRC: map<SSRC, ClientID>): TrackMetadata {
    var userID := if track.ssrc in clientIDBySSRC then clientIDBySSRC[track.ssrc] else "";
    TrackMetadata(mid, userID, track.streamLabel, kind)
  }

  /** Each track in its own slot. */
  predicate Slotted(tracks: Tracks) {
    forall k :: k in tracks ==> tracks[k].ssrc == k
  }

  function AddList(own: Tracks, list: seq<TrackInfo>, n: nat): Tracks
    requires n <= |list|
  {
    if n == 0 then own else Put(AddList(own, list, n - 1), list[n - 1])
  }

  lemma {:induction false} AddListKeys(own: Tracks, tracks: Tracks, list: seq<TrackInfo>, n: nat)
    requires Slotted(tracks) && n <= |list| && forall t :: t in list ==> t in tracks.Values
    ensures forall k :: k in AddList(own, list, n) <==> k in own || (k in tracks && tracks[k] in list[..n])
    ensures forall k :: k in AddList(own, list, n) ==>
              AddList(own, list, n)[k] == if k in tracks && tracks[k] in list[..n] then tracks[k] else own[k]
  {
    if n > 0 {
      AddListKeys(own, tracks, list, n - 1);
      assert list[n - 1] in list;
      assert list[..n] == list[..n - 1] + [list[n - 1]];
    }
  }

  /** Adding the listed tracks one by one is one map merge. */
  lemma {:induction false} AddListMerges(own: Tracks, tracks: Tracks, list: seq<TrackInfo>)
    requires Slotted(tracks) && forall t :: t in list <==> t in tracks.Values
    ensures AddList(own, list, |list|) == own + tracks
  {
    AddListKeys(own, tracks, list, |list|);
    assert list[..|list|] == list;
  }

  // ---------------------------------------------------------------- the objects

  class WebRTCTransport {
    const clientID: ClientID
    const initiator: bool
    /** The peer connection answers every change of its senders with an error. */
    const refuses: bool
    var localTracks: Tracks
    var remoteTracks: Tracks

    /** What the media engine knows of payload types, and the mids that negotiation has given so far. */
    const kindOf: byte -> string
    var mids: map<SSRC, string>
    /** What this side asked for: rounds of its own, or transceivers of the other side. */
    var negotiations: nat
    var transceiverRequests: nat

    constructor (clientID: ClientID, initiator: bool, refuses: bool, kindOf: byte -> string)
      ensures this.clientID == clientID && this.initiator == initiator
      ensures this.refuses == refuses && this.kindOf == kindOf
      ensures localTracks == map[] && remoteTracks == map[] && mids == map[] && negotiations == transceiverRequests == 0
    {
      this.clientID, this.initiator, this.refuses, this.kindOf := clientID, initiator, refuses, kindOf;
      mids := map[];
      localTracks, remoteTracks, negotiations, transceiverRequests := map[], map[], 0, 0;
    }

    method AddTrack(payloadType: byte, ssrc: SSRC, id: string, streamLabel: string) returns (ok: bool)
      modifies this`localTracks, this`negotiations, this`transceiverRequests
      ensures ok == !refuses
      ensures localTracks == if ok then old(localTracks)[ssrc := TrackInfo(payloadType, ssrc, id, streamLabel)]
                             else old(localTracks)
      ensures negotiations == old(negotiations) + if ok && initiator then 1 else 0
      ensures transceiverRequests == old(transceiverRequests) + if ok && !initiator then 1 else 0
    {
      if refuses {
        return false;
      }
      if initiator {
        negotiations := negotiations + 1;
      } else {
        transceiverRequests := transceiverRequests + 1;
      }
      localTracks := localTracks[ssrc := TrackInfo(payloadType, ssrc, id, streamLabel)];
      return true;
    }

    /** False when the track is not found, or cannot be removed. */
    method RemoveTrack(ssrc: SSRC) returns (ok: bool)
      modifies this`localTracks, this`negotiations
      ensures ok == (ssrc in old(localTracks) && !refuses)
      ensures localTracks == if refuses then old(localTracks) else old(localTracks) - {ssrc}
      ensures negotiations == old(negotiations) + if ok then 1 else 0
    {
      if ssrc !in localTracks {
        assert localTracks - {ssrc} == localTracks;
        return false;
      }
      if refuses {
        return false;
      }
      negotiations := negotiations + 1;
      localTracks := localTracks - {ssrc};
      return true;
    }

    /** What the metadata says of a track that is sent. */
    function Describe(ssrc: SSRC, clientIDBySSRC: map<SSRC, ClientID>): TrackMetadata
      reads this`localTracks, this`mids
      requires ssrc in localTracks
    {
      var mid := if ssrc in mids then mids[ssrc] else "";
      MetadataOf(localTracks[ssrc], mid, kindOf(localTracks[ssrc].payloadType), clientIDBySSRC)
    }

    /** The metadata has the publisher on record, what negotiation and the media engine know, and the stream. */
    predicate Tells(m: TrackMetadata, ssrc: SSRC, clientIDBySSRC: map<SSRC, ClientID>)
      reads this`localTracks, this`mids
    {
      && ssrc in localTracks
      && var track := localTracks[ssrc];
      && m.streamID == track.streamLabel && m.kind == kindOf(track.payloadType)
      && (if track.ssrc in clientIDBySSRC then m.userID == clientIDBySSRC[track.ssrc] else m.userID == "")
      && (if ssrc in mids then m.mid == mids[ssrc] else m.mid == "")
    }

    method AddRemoteTrack(track: TrackInfo)
      modifies this`remoteTracks
      ensures remoteTracks == old(remoteTracks)[track.ssrc := track]
    {
      remoteTracks := remoteTracks[track.ssrc := track];
    }

    method RemoveRemoteTrack(ssrc: SSRC)
      modifies this`remoteTracks
      ensures remoteTracks == old(remoteTracks) - {ssrc}
    {
      remoteTracks := remoteTracks - {ssrc};
    }

    /** Sends all that the other transport receives. */
    method CopyFrom(existing: WebRTCTransport)
      requires Slotted(existing.remoteTracks)
      modifies this`localTracks, this`negotiations, this`transceiverRequests
      ensures localTracks == if refuses then old(localTracks) else old(localTracks) + existing.remoteTracks
    {
      var list := existing.RemoteTracks();
      ghost var before := localTracks;
      for i := 0 to |list|
        invariant localTracks == if refuses then before else AddList(before, list, i)
      {
        var track := list[i];
        var ok := AddTrack(track.payloadType, track.ssrc, track.id, track.streamLabel);
      }
      AddListMerges(before, existing.remoteTracks, list);
    }

    method RemoteTracks() returns (list: seq<TrackInfo>)
      requires Slotted(remoteTracks)
      ensures forall t :: t in list <==> t in remoteTracks.Values
      ensures |list| == |remoteTracks|
    {
      list := [];
      var todo := remoteTracks.Keys;
      while todo != {}
        invariant todo <= remoteTracks.Keys
        invariant |list| + |todo| == |remoteTracks|
        invariant forall t :: t in list ==> t in remoteTracks.Values
        invariant forall k :: k in remoteTracks && k !in todo ==> remoteTracks[k] in list
      {
        var ssrc :| ssrc in todo;
        todo := todo - {ssrc};
        list := list + [remoteTracks[ssrc]];
      }
    }
  }

  /** Transports are kept under their own ids, so no two entries share one. */
  ghost predicate WellKept(transports: map<ClientID, WebRTCTransport>) reads transports.Values {
    && (forall c :: c in transports ==> transports[c].clientID == c)
    && (forall c :: c in transports ==> Slotted(transports[c].remoteTracks))
  }

  ghost function LocalOf(transports: map<ClientID, WebRTCTransport>): map<ClientID, Tracks> reads transports.Values {
    map c | c in transports :: transports[c].localTracks
  }

  ghost function RemoteOf(transports: map<ClientID, WebRTCTransport>): map<ClientID, Tracks> reads transports.Values {
    map c | c in transports :: transports[c].remoteTracks
  }

  /** Those whose peer connections fail. */
  function Refusing(transports: map<ClientID, WebRTCTransport>): set<ClientID> {
    set c | c in transports && transports[c].refuses
  }

  lemma {:induction false} Known(transports: map<ClientID, WebRTCTransport>, c: ClientID)
    requires WellKept(transports) && c in transports
    ensures transports[c].clientID == c && Slotted(transports[c].remoteTracks)
    ensures c in Refusing(transports) <==> transports[c].refuses
    ensures RemoteOf(transports)[c] == transports[c].remoteTracks && LocalOf(transports)[c] == transports[c].localTracks
  {
  }

  lemma {:induction false} LocalAndRemoteKeys(transports: map<ClientID, WebRTCTransport>)
    ensures RemoteOf(transports).Keys == LocalOf(transports).Keys == transports.Keys
  {
  }

  /** What a room sends once a transport sends these tracks, if it is in the room. */
  function Sending(local: map<ClientID, Tracks>, inRoom: bool, c: ClientID, tracks: Tracks): map<ClientID, Tracks> {
    if inRoom then local[c := tracks] else local
  }

  lemma {:induction false} SendingLast(local: map<ClientID, Tracks>, inRoom: bool, c: ClientID, a: Tracks, b: Tracks)
    ensures Sending(Sending(local, inRoom, c, a), inRoom, c, b) == Sending(local, inRoom, c, b)
    ensures Sending(local, inRoom, c, a)[c := b] == local[c := b]
    ensures Sending(local, inRoom, c, b) == if inRoom then Sending(local, inRoom, c, a)[c := b] else local
    ensures !inRoom ==> Sending(local, inRoom, c, a) == local
  {
  }

  lemma {:induction false} Resident(transports: map<ClientID, WebRTCTransport>, transport: WebRTCTransport)
    requires WellKept(transports)
    ensures LocalOf(transports) ==
            Sending(LocalOf(transports), transport in transports.Values, transport.clientID, transport.localTracks)
    ensures if transport in transports.Values
            then transport.clientID in transports && transports[transport.clientID] == transport
            else forall c :: c in transports ==> transports[c] != transport
  {
  }

  lemma {:induction false} Removed(transports: map<ClientID, WebRTCTransport>, c: ClientID)
    requires WellKept(transports)
    ensures WellKept(transports - {c})
    ensures LocalOf(transports - {c}) == LocalOf(transports) - {c}
    ensures RemoteOf(transports - {c}) == RemoteOf(transports) - {c}
  {
  }

  lemma {:induction false} Inserted(transports: map<ClientID, WebRTCTransport>, transport: WebRTCTransport)
    requires WellKept(transports) && Slotted(transport.remoteTracks)
    ensures WellKept(transports[transport.clientID := transport])
    ensures LocalOf(transports[transport.clientID := transport]) ==
            LocalOf(transports)[transport.clientID := transport.localTracks]
    ensures RemoteOf(transports[transport.clientID := transport]) ==
            RemoteOf(transports)[transport.clientID := transport.remoteTracks]
  {
  }

  class RoomPeersManager {
    var transports: map<ClientID, WebRTCTransport>
    var clientIDBySSRC: map<SSRC, ClientID>
    const trackBitrateEstimators: Bitrate.TrackBitrateEstimators

    ghost predicate Valid() reads this`transports, transports.Values {
      WellKept(transports)
    }

    ghost function Local(): map<ClientID, Tracks> reads this`transports, transports.Values {
      LocalOf(transports)
    }

    ghost function Remote(): map<ClientID, Tracks> reads this`transports, transports.Values {
      RemoteOf(transports)
    }

    /** What one transport sends is all that changed. */
    twostate lemma OneChanged(c: ClientID)
      requires old(Valid()) && c in transports && transports == old(transports)
      requires forall d :: d in transports ==> transports[d].remoteTracks == old(transports[d].remoteTracks)
      requires forall d :: d in transports && transports[d] != transports[c] ==>
                 transports[d].localTracks == old(transports[d].localTracks)
      ensures Valid() && Remote() == old(Remote())
      ensures Local() == old(Local())[c := transports[c].localTracks]
    {
    }

    /** A transport outside the room changes nothing in it. */
    twostate lemma NoneChanged()
      requires old(Valid()) && transports == old(transports)
      requires forall d :: d in transports ==> transports[d].remoteTracks == old(transports[d].remoteTracks)
      requires forall d :: d in transports ==> transports[d].localTracks == old(transports[d].localTracks)
      ensures Valid() && Remote() == old(Remote()) && Local() == old(Local())
    {
    }

    constructor ()
      ensures Valid() && transports == map[] && clientIDBySSRC == map[]
      ensures fresh(trackBitrateEstimators) && trackBitrateEstimators.Valid() && trackBitrateEstimators.View() == map[]
    {
      transports, clientIDBySSRC := map[], map[];
      trackBitrateEstimators := new Bitrate.TrackBitrateEstimators();
    }

    method AddTrack(clientID: ClientID, track: TrackInfo)
      requires Valid()
      modifies this`clientIDBySSRC, transports.Values
      ensures Valid()
      ensures Local() == Gain(old(Local()), {clientID} + Refusing(transports), track) && Remote() == old(Remote())
      ensures clientIDBySSRC == old(clientIDBySSRC)[track.ssrc := clientID] && transports == old(transports)
    {
      hide Gain, Refusing, Slotted, LocalOf, RemoteOf, WellKept;
      ghost var was := Local();
      LocalAndRemoteKeys(transports);
      ghost var except := {clientID} + Refusing(transports);
      GainNone(was, except, track);
      clientIDBySSRC := clientIDBySSRC[track.ssrc := clientID];
      var todo := transports.Keys;
      while todo != {}
        invariant todo <= transports.Keys && clientIDBySSRC == old(clientIDBySSRC)[track.ssrc := clientID]
        invariant Valid() && Remote() == old(Remote()) && transports == old(transports) && transports.Keys == was.Keys
        invariant Local() == Gain(was, todo + except, track)
      {
        var otherClientID :| otherClientID in todo;
        Known(transports, otherClientID);
        GainStep(was, todo, except, otherClientID, track);
        todo := todo - {otherClientID};
        if otherClientID != clientID {
          label before:
          var ok := transports[otherClientID].AddTrack(track.payloadType, track.ssrc, track.id, track.streamLabel);
          OneChanged@before(otherClientID);
        }
      }
      assert todo + except == except;
    }

    method RemoveTrack(clientID: ClientID, track: TrackInfo)
      requires Valid() && trackBitrateEstimators.Valid()
      modifies this`clientIDBySSRC, transports.Values, trackBitrateEstimators`estimators
      ensures Valid() && trackBitrateEstimators.Valid()
      ensures Local() == Lose(old(Local()), {clientID} + Refusing(transports), track.ssrc) && Remote() == old(Remote())
      ensures clientIDBySSRC == old(clientIDBySSRC) - {track.ssrc} && transports == old(transports)
      ensures trackBitrateEstimators.View() == old(trackBitrateEstimators.View()) - {track.ssrc}
    {
      hide Lose, Refusing, LocalOf, RemoteOf, WellKept, Slotted;
      trackBitrateEstimators.Remove(track.ssrc);
      clientIDBySSRC := clientIDBySSRC - {track.ssrc};
      RemoveFromOthers(clientID, track.ssrc);
    }

    /** The loop of RemoveTrack. */
    method RemoveFromOthers(clientID: ClientID, ssrc: SSRC)
      requires Valid()
      modifies transports.Values
      ensures Valid()
      ensures Local() == Lose(old(Local()), {clientID} + Refusing(transports), ssrc) && Remote() == old(Remote())
    {
      hide Lose, Refusing, Slotted, LocalOf, RemoteOf, WellKept;
      ghost var was := Local();
      LocalAndRemoteKeys(transports);
      ghost var except := {clientID} + Refusing(transports);
      LoseNone(was, except, ssrc);
      var todo := transports.Keys;
      while todo != {}
        invariant todo <= transports.Keys
        invariant Valid() && Remote() == old(Remote()) && transports.Keys == was.Keys
        invariant Local() == Lose(was, todo + except, ssrc)
      {
        var otherClientID :| otherClientID in todo;
        Known(transports, otherClientID);
        LoseStep(was, todo, except, otherClientID, ssrc);
        todo := todo - {otherClientID};
        if otherClientID != clientID {
          label before:
          var ok := transports[otherClientID].RemoveTrack(ssrc);
          OneChanged@before(otherClientID);
        }
      }
      assert todo + except == except;
    }

    /**
     A transport of the same client, be it the same one, gives its tracks like all others and is then replaced.
     The order in which the transports are walked is not the caller's choice; it is reported as a ghost.
     */
    method Add(transport: WebRTCTransport) returns (ghost order: seq<ClientID>)
      requires Valid() && Slotted(transport.remoteTracks)
      modifies this`transports, transport`localTracks, transport`negotiations, transport`transceiverRequests
      ensures Valid()
      ensures transports == old(transports)[transport.clientID := transport]
      ensures Walks(order, old(transports.Keys))
      ensures Local() == old(Local())[transport.clientID :=
                if transport.refuses then old(transport.localTracks)
                else CopyAll(old(transport.localTracks), old(Remote()), order, |order|)]
      ensures Remote() == old(Remote())[transport.clientID := transport.remoteTracks]
    {
      hide Slotted, CopyAll, Walks, LocalOf, RemoteOf, WellKept, Sending;
      order := [];
      ghost var was, remote := Local(), Remote();
      ghost var own := transport.localTracks;
      WalksNone(own, remote);
      LocalAndRemoteKeys(transports);
      ghost var inRoom := transport in transports.Values;
      Resident(transports, transport);
      var todo := transports.Keys;
      assert transports.Keys - todo == {};
      while todo != {}
        invariant todo <= transports.Keys
        invariant Valid() && transports == old(transports) && transport.remoteTracks == old(transport.remoteTracks)
        invariant Local() == Sending(was, inRoom, transport.clientID, transport.localTracks)
        invariant Remote() == remote
        invariant Walks(order, transports.Keys - todo) && forall i :: 0 <= i < |order| ==> order[i] in remote
        invariant transport.localTracks == if transport.refuses then own else CopyAll(own, remote, order, |order|)
      {
        var existingClientID :| existingClientID in todo;
        Known(transports, existingClientID);
        WalksOn(own, remote, order, transports.Keys - todo, existingClientID);
        assert transports.Keys - (todo - {existingClientID}) == transports.Keys - todo + {existingClientID};
        todo := todo - {existingClientID};
        order := order + [existingClientID];
        ghost var copied := transport.localTracks;
        label before:
        transport.CopyFrom(transports[existingClientID]);
        SendingLast(was, inRoom, transport.clientID, copied, transport.localTracks);
        if inRoom {
          OneChanged@before(transport.clientID);
        } else {
          NoneChanged@before();
        }
      }
      assert transports.Keys - todo == transports.Keys;
      SendingLast(was, inRoom, transport.clientID, transport.localTracks, transport.localTracks);
      Inserted(transports, transport);
      transports := transports[transport.clientID := transport];
    }

    method Remove(clientID: ClientID)
      requires Valid() && trackBitrateEstimators.Valid()
      modifies this`transports, trackBitrateEstimators.Repr
      ensures Valid() && trackBitrateEstimators.Valid()
      ensures Local() == old(Local()) - {clientID} && Remote() == old(Remote()) - {clientID}
      ensures transports == old(transports) - {clientID}
      ensures trackBitrateEstimators.View() ==
              Bitrate.Forgotten(old(trackBitrateEstimators.View()), clientID, old(trackBitrateEstimators.View()).Keys)
    {
      hide LocalOf, RemoteOf, WellKept, Bitrate.Forgotten;
      trackBitrateEstimators.RemoveReceiverEstimations(clientID);
      Removed(transports, clientID);
      transports := transports - {clientID};
    }

    method GetTransportBySSRC(ssrc: SSRC) returns (transport: Option<WebRTCTransport>)
      requires Valid()
      ensures transport.Some? <==> ssrc in clientIDBySSRC && clientIDBySSRC[ssrc] in transports
      ensures transport.Some? ==> transport.value.clientID == clientIDBySSRC[ssrc]
    {
      if ssrc !in clientIDBySSRC {
        return None;
      }
      if clientIDBySSRC[ssrc] !in transports {
        return None;
      }
      return Some(transports[clientIDBySSRC[ssrc]]);
    }

    method GetTracksMetadata(clientID: ClientID) returns (ok: bool, metadata: seq<TrackMetadata>)
      requires Valid()
      ensures ok <==> clientID in transports
      ensures !ok ==> metadata == []
      ensures ok ==> |metadata| == |transports[clientID].localTracks|
      ensures ok ==> forall m :: m in metadata <==>
                exists k :: k in transports[clientID].localTracks
                            && m == transports[clientID].Describe(k, clientIDBySSRC)
      ensures ok ==> forall m :: m in metadata <==> exists k :: transports[clientID].Tells(m, k, clientIDBySSRC)
    {
      metadata := [];
      ok := clientID in transports;
      if !ok {
        return;
      }
      var transport := transports[clientID];
      var todo := transport.localTracks.Keys;
      while todo != {}
        invariant todo <= transport.localTracks.Keys
        invariant |metadata| + |todo| == |transport.localTracks|
        invariant forall m :: m in metadata ==>
                    exists k :: k in transport.localTracks && m == transport.Describe(k, clientIDBySSRC)
        invariant forall k :: k in transport.localTracks && k !in todo ==>
                    transport.Describe(k, clientIDBySSRC) in metadata
      {
        var ssrc :| ssrc in todo;
        todo := todo - {ssrc};
        metadata := metadata + [transport.Describe(ssrc, clientIDBySSRC)];
      }
      forall m ensures m in metadata <==> exists k :: transport.Tells(m, k, clientIDBySSRC) {
        if m in metadata {
          var k :| k in transport.localTracks && m == transport.Describe(k, clientIDBySSRC);
          assert transport.Tells(m, k, clientIDBySSRC);
        }
        if k :| transport.Tells(m, k, clientIDBySSRC) {
          assert m == transport.Describe(k, clientIDBySSRC);
        }
      }
    }
  }

  lemma {:induction false} WalksNone(own: Tracks, remote: map<ClientID, Tracks>)
    ensures Walks([], {}) && CopyAll(own, remote, [], 0) == own
  {
  }

  lemma {:induction false} WalksOn(own: Tracks, remote: map<ClientID, Tracks>, order: seq<ClientID>,
                                   walked: set<ClientID>, next: ClientID)
    requires next in remote && forall i :: 0 <= i < |order| ==> order[i] in remote
    requires Walks(order, walked) && next !in walked
    ensures Walks(order + [next], walked + {next})
    ensures forall i :: 0 <= i < |order + [next]| ==> (order + [next])[i] in remote
    ensures CopyAll(own, remote, order + [next], |order + [next]|) ==
            CopyAll(own, remote, order, |order|) + remote[next]
  {
    CopyAllPrefix(own, remote, order, next, |order|);
  }

  lemma {:induction false} CopyAllPrefix(own: Tracks, remote: map<ClientID, Tracks>, order: seq<ClientID>,
                                         next: ClientID, n: nat)
    requires next in remote && n <= |order| && forall i :: 0 <= i < |order| ==> order[i] in remote
    ensures CopyAll(own, remote, order + [next], n) == CopyAll(own, remote, order, n)
  {
    if n > 0 {
      CopyAllPrefix(own, remote, order, next, n - 1);
    }
  }
}
