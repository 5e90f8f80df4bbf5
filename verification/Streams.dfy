/**
 The client's bookkeeping of remote tracks: which track belongs to which stream of which user, as tracks,
 metadata and peers come and go.
 */
module Streams {
  import opened Wrappers

  /** A media track stands for its id, a media stream for the set of its tracks. */
  type Track = string

  datatype Stream = Stream(streamId: string, tracks: set<Track>)

  datatype Association = Association(streamId: string, userId: string)

  datatype TrackInfo = TrackInfo(track: Track, mid: string, association: Option<Association>)

  datatype TrackMetadata = TrackMetadata(mid: string, userId: string, streamId: string)

  datatype State = State(
    streamsByUserId: map<string, seq<Stream>>,
    metadataByPeerIdMid: map<string, TrackMetadata>,
    trackIdToPeerIdMid: map<Track, string>,
    tracksByPeerIdMid: map<string, TrackInfo>)

  const DEFAULT_STATE: State := State(map[], map[], map[], map[])

  const SEPARATOR: string := "::"

  function GetPeerIdMid(userId: string, mid: string): string {
    userId + SEPARATOR + mid
  }

  /** The user and stream a track belongs to: what the metadata says, or else what its peer says. */
  function GetUserId(s: State, peerId: string, mid: string, streamId: string): Association {
    var key := GetPeerIdMid(peerId, mid);
    if key in s.metadataByPeerIdMid
    then Association(s.metadataByPeerIdMid[key].streamId, s.metadataByPeerIdMid[key].userId)
    else Association(streamId, peerId)
  }

  // ---------------------------------------------------------------- the streams of one user

  /** The first stream of that id gets the track; if there is none, a new stream is appended. */
  function AddToStreams(ss: seq<Stream>, streamId: string, track: Track): seq<Stream> {
    if |ss| == 0 then [Stream(streamId, {track})]
    else if ss[0].streamId == streamId then [ss[0].(tracks := ss[0].tracks + {track})] + ss[1..]
    else [ss[0]] + AddToStreams(ss[1..], streamId, track)
  }

  predicate HasStream(ss: seq<Stream>, streamId: string) {
    exists i :: 0 <= i < |ss| && ss[i].streamId == streamId
  }

  /** The first stream of that id loses the track, and goes away once it has none. */
  function RemoveFromStreams(ss: seq<Stream>, streamId: string, track: Track): seq<Stream> {
    if |ss| == 0 then []
    else if ss[0].streamId == streamId then
      if ss[0].tracks - {track} == {} then ss[1..] else [ss[0].(tracks := ss[0].tracks - {track})] + ss[1..]
    else [ss[0]] + RemoveFromStreams(ss[1..], streamId, track)
  }

  // ---------------------------------------------------------------- the reducer's cases

  function AddTrack(s: State, peerId: string, mid: string, streamId: string, track: Track): State {
    var key := GetPeerIdMid(peerId, mid);
    var a := GetUserId(s, peerId, mid, streamId);
    var streams := if a.userId in s.streamsByUserId then s.streamsByUserId[a.userId] else [];
    s.(streamsByUserId := s.streamsByUserId[a.userId := AddToStreams(streams, a.streamId, track)],
       trackIdToPeerIdMid := s.trackIdToPeerIdMid[track := key],
       tracksByPeerIdMid := s.tracksByPeerIdMid[key := TrackInfo(track, mid, Some(a))])
  }

  function RemoveTrack(s: State, track: Track): State {
    if track !in s.trackIdToPeerIdMid || s.trackIdToPeerIdMid[track] !in s.tracksByPeerIdMid then s
    else
      var key := s.trackIdToPeerIdMid[track];
      var t := s.tracksByPeerIdMid[key];
      if t.association.None? then s
      else
        var a := t.association.value;
        if a.userId !in s.streamsByUserId || !HasStream(s.streamsByUserId[a.userId], a.streamId) then s
        else
          var streams := RemoveFromStreams(s.streamsByUserId[a.userId], a.streamId, track);
          s.(streamsByUserId := if |streams| > 0 then s.streamsByUserId[a.userId := streams]
                                else s.streamsByUserId - {a.userId},
             tracksByPeerIdMid := s.tracksByPeerIdMid[key := TrackInfo(track, t.mid, None)])
  }

  function TracksOf(ss: seq<Stream>): set<Track> {
    set i, t | 0 <= i < |ss| && t in ss[i].tracks :: t
  }

  function UnassociateUserTracks(s: State, userId: string): State {
    if userId !in s.streamsByUserId then s
    else
      var tracks := TracksOf(s.streamsByUserId[userId]);
      var keys := set t | t in tracks && t in s.trackIdToPeerIdMid :: s.trackIdToPeerIdMid[t];
      s.(streamsByUserId := s.streamsByUserId - {userId},
         tracksByPeerIdMid := map key | key in s.tracksByPeerIdMid ::
           if key in keys then s.tracksByPeerIdMid[key].(association := None) else s.tracksByPeerIdMid[key])
  }

  /** keyBy: the last entry of a key wins. */
  function KeyBy(peerId: string, metadata: seq<TrackMetadata>, n: nat): map<string, TrackMetadata>
    requires n <= |metadata|
  {
    if n == 0 then map[]
    else KeyBy(peerId, metadata, n - 1)[GetPeerIdMid(peerId, metadata[n - 1].mid) := metadata[n - 1]]
  }

  /** After the first n known tracks: those the metadata does not name have lost their stream. */
  function DropUnnamed(s: State, named: map<string, TrackMetadata>, order: seq<string>, n: nat): State
    requires n <= |order| && forall i :: 0 <= i < |order| ==> order[i] in s.tracksByPeerIdMid
  {
    if n == 0 then s
    else
      var prior, t := DropUnnamed(s, named, order, n - 1), s.tracksByPeerIdMid[order[n - 1]];
      if order[n - 1] !in named && t.association.Some? then RemoveTrack(prior, t.track) else prior
  }

  /** One metadata entry, judged by the state s before the action and applied to now. */
  function Reassociate(s: State, now: State, peerId: string, m: TrackMetadata): State {
    var key := GetPeerIdMid(peerId, m.mid);
    if key !in s.tracksByPeerIdMid then now
    else
      var t := s.tracksByPeerIdMid[key];
      if t.association.None? then AddTrack(now, peerId, m.mid, m.streamId, t.track)
      else if t.association.value == Association(m.streamId, m.userId) then now
      else AddTrack(RemoveTrack(now, t.track), peerId, m.mid, t.association.value.streamId, t.track)
  }

  function ReassociateAll(s: State, dropped: State, peerId: string, metadata: seq<TrackMetadata>, n: nat): State
    requires n <= |metadata|
  {
    if n == 0 then dropped
    else Reassociate(s, ReassociateAll(s, dropped, peerId, metadata, n - 1), peerId, metadata[n - 1])
  }

  /** order lists the known tracks in the order in which the record is walked. */
  function SetMetadata(s: State, order: seq<string>, peerId: string, metadata: seq<TrackMetadata>): State
    requires forall i :: 0 <= i < |order| ==> order[i] in s.tracksByPeerIdMid
  {
    var named := KeyBy(peerId, metadata, |metadata|);
    var dropped := DropUnnamed(s, named, order, |order|).(metadataByPeerIdMid := named);
    ReassociateAll(s, dropped, peerId, metadata, |metadata|)
  }

  method SetMetadataInLoops(state: State, order: seq<string>, peerId: string, metadata: seq<TrackMetadata>)
    returns (newState: State)
    requires forall i :: 0 <= i < |order| ==> order[i] in state.tracksByPeerIdMid
    ensures newState == SetMetadata(state, order, peerId, metadata)
  {
    newState := state;
    var named: map<string, TrackMetadata> := map[];
    for i := 0 to |metadata|
      invariant named == KeyBy(peerId, metadata, i)
    {
      named := named[GetPeerIdMid(peerId, metadata[i].mid) := metadata[i]];
    }
    for i := 0 to |order|
      invariant newState == DropUnnamed(state, named, order, i)
    {
      var t := state.tracksByPeerIdMid[order[i]];
      if order[i] !in named && t.association.Some? {
        newState := RemoveTrack(newState, t.track);
      }
    }
    newState := newState.(metadataByPeerIdMid := named);
    ghost var dropped := newState;
    for i := 0 to |metadata|
      invariant newState == ReassociateAll(state, dropped, peerId, metadata, i)
    {
      var m := metadata[i];
      var key := GetPeerIdMid(peerId, m.mid);
      if key !in state.tracksByPeerIdMid {
        continue;
      }
      var t := state.tracksByPeerIdMid[key];
      if t.association.None? {
        newState := AddTrack(newState, peerId, m.mid, m.streamId, t.track);
        continue;
      }
      var a := t.association.value;
      if a.streamId == m.streamId && a.userId == m.userId {
        continue;
      }
      newState := RemoveTrack(newState, t.track);
      newState := AddTrack(newState, peerId, m.mid, a.streamId, t.track);
    }
  }

  predicate OfPeer(key: string, peerId: string) {
    peerId + SEPARATOR <= key
  }

  /** One track of the peer: unassociated and forgotten. The record of track ids is emptied in place. */
  function ForgetTrack(s: State, now: State, key: string): State
    requires key in s.tracksByPeerIdMid
  {
    var t := s.tracksByPeerIdMid[key];
    var freed := if t.association.Some? then RemoveTrack(now, t.track) else now;
    freed.(trackIdToPeerIdMid := freed.trackIdToPeerIdMid - {t.track})
  }

  function ForgetTracks(s: State, order: seq<string>, peerId: string, n: nat): State
    requires n <= |order| && forall i :: 0 <= i < |order| ==> order[i] in s.tracksByPeerIdMid
  {
    if n == 0 then s
    else
      var prior := ForgetTracks(s, order, peerId, n - 1);
      if OfPeer(order[n - 1], peerId) then ForgetTrack(s, prior, order[n - 1]) else prior
  }

  function RemovePeer(s: State, order: seq<string>, peerId: string): State
    requires forall i :: 0 <= i < |order| ==> order[i] in s.tracksByPeerIdMid
  {
    ForgetTracks(s, order, peerId, |order|).(
      tracksByPeerIdMid := map key | key in s.tracksByPeerIdMid && !(key in order && OfPeer(key, peerId)) ::
        s.tracksByPeerIdMid[key])
  }

  method RemovePeerInLoop(state: State, order: seq<string>, peerId: string) returns (newState: State)
    requires forall i :: 0 <= i < |order| ==> order[i] in state.tracksByPeerIdMid
    ensures newState == RemovePeer(state, order, peerId)
  {
    newState := state;
    var keysToRemove: set<string> := {};
    for i := 0 to |order|
      invariant newState == ForgetTracks(state, order, peerId, i)
      invariant keysToRemove == set k | 0 <= k < i && OfPeer(order[k], peerId) :: order[k]
    {
      if OfPeer(order[i], peerId) {
        var t := state.tracksByPeerIdMid[order[i]];
        if t.association.Some? {
          newState := RemoveTrack(newState, t.track);
        }
        newState := newState.(trackIdToPeerIdMid := newState.trackIdToPeerIdMid - {t.track});
        keysToRemove := keysToRemove + {order[i]};
      }
    }
    newState := newState.(tracksByPeerIdMid := state.tracksByPeerIdMid - keysToRemove);
  }
}
