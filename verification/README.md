# Peer Calls in Dafny

Dafny models of the parts of Peer Calls whose correctness does not show in any one function: the RTP ring
buffer and its retransmission requests, the chunked message codec, the WebRTC negotiation between two peers, the
bookkeeping of tracks on the client and on the server, the decryption keys that arrive late, the room membership
that several server instances share, and the two arithmetic cores. `dafny verify dfyconfig.toml` checks everything.

Code that the program writes as loops over arrays, maps and fields is written here as classes and methods with
loops, each proved against a specification function; the properties are then proved about these functions, over
all inputs, all runs or all interleavings. Concurrent code is a state machine whose steps are its lock sections,
channel operations and callbacks.

| files | subject |
|---|---|
| `Bitmap`, `Nack`, `RtpBuffer`, `RtpStream`, `JitterBuffer` | the 65,536-slot ring, NACK pairs (section 6.2.1 of RFC 4585), and whole runs over any number of wrap-arounds |
| `CodecHeader`, `CodecEncoder`, `CodecDecoder` | the 16-byte header, the chunking loop, the reassembly |
| `Negotiator`, `TwoPeers`, `Signaller` | one negotiator, two of them against each other (section 3.2 of RFC 8829), the signal channel |
| `Streams`, `StreamsInvariant` | the client's reducer for remote tracks |
| `TrackForwarding`, `TrackForwardingRuns` | the forwarding table of a room on the server |
| `KeyContexts`, `KeyWorker` | decryption keys per mid |
| `Membership` | the hash of clients shared through Redis |
| `Bitrate`, `BaseN` | least estimated bitrates; positional encoding |
| `Wrappers` | options and fixed-width integers |

## Where the code promises less than one would like

Each entry names a concrete input for which the promise fails and the exact condition under which it holds.

* A NACK names exactly the numbers of its window that were never pushed if and only if no packet of that window
  has expired (`RtpStream.ReportExact`). That any 17 consecutive numbers span less than 180,000 ticks is not
  enough, because the window and the pushed packet are 18 numbers (`RtpStream.SeventeenAreNotEnough`).
* A packet that has not expired is lost if and only if another one was pushed since whose number is a multiple of
  65,536 higher (`RtpStream.LostExact`, with the input of `RtpStream.RingTooSmall`).
* The key of a peer and mid is ambiguous for some peer ids that end in a colon, even when no id contains `::`
  (`StreamsInvariant.TrailingColonCollides`). Two peers share a key if and only if one id and its separator start the
  other's (`StreamsInvariant.ApartExact`), and the reducer's invariant is proved for all ids that are apart in this
  sense. An id is apart from all shorter ones if and only if it has no two colons in a row and does not end in one
  (`StreamsInvariant.CleanExact`, `StreamsInvariant.CleanMeans`).
* While a signaller closes, an ICE candidate can be emitted although the description before it was dropped
  (`Signaller.CandidateWithoutDescription`). Before closing begins, no continuation does this if and only if a
  reader has already taken a description (`Signaller.DescribedFirstExact`).
* After a negotiator is closed its queued flag can stay set with no round to wait for
  (`Negotiator.CloseForgetsTheQueue`). It is so if and only if a closing met the flag set, and no request and no
  stable event came after (`Negotiator.StrandedExact`).
* Metadata can name nobody as the user of a forwarded track (`TrackForwardingRuns.MetadataNamesNobody`), exactly as
  long as the start of the track is still to be handled (`TrackForwardingRuns.AlwaysHonest`).
* A failed key derivation is not repeated until the password or the user changes (`KeyContexts.FailureSticks`): a
  settled context lacks its key if and only if the derivation of just this key has failed
  (`KeyContexts.MissingKeyExact`). It can also keep an old password (`KeyContexts.OldPasswordSticks`), if and only if
  no event has seen to it since the password was set (`KeyContexts.StalePasswordExact`), which takes a failed
  regeneration (`KeyContexts.StalePasswordMeansFailure`).
* A socket that fails while a leave is handled can leave a client in the shared hash for good
  (`Membership.FailedWriteHaunts`): it stays if and only if it is in the hash and no instance has its leave still
  to handle (`Membership.LingersExact`).
* A late replay of a join restores old metadata (`Membership.LateReplayForgets`): metadata lasts if and only if no
  instance has a join with other metadata still to replay (`Membership.MetadataLastsExact`).
* A message arrives if and only if it has data: one of zero bytes is sent as no chunk at all
  (`CodecEncoder.NoChunksWithoutData`), so its receiver hears nothing of it.
* A header survives if and only if its fields fit (`CodecHeader.HeaderRoundTrip`), and 32,750 is the longest sender
  id for which the default chunk size numbers all messages below 2 GiB (`CodecEncoder.SenderLimitIsTight`).

## Model

| member | source | states |
|---|---|---|
| Nack.AddSubBLPBits | server/buffer.go:201-211 | for numbers up to sixteen after the first one, adding or subtracting touches the bit of that number and no other |
| Nack.CreateNackPair | server/buffer.go:213-227 | the loop builds the pair whose mask has the bit of every number after the first |
| Nack.CreateNackPairExact | server/buffer.go:213-227 | a pair expands back to the list it was made of if and only if the list is non-empty, in order and spans at most sixteen |
| Nack.ExpandInOrder | server/jitter.go:45-45 | the numbers of any pair are in order and span at most seventeen |
| Nack.ExpandExact | server/jitter.go:45-45 | a pair names its packet id, and bit k the number k + 1 after it, and no others |
| Nack.PairOfExact | server/buffer.go:213-227 | for any list at all, bit k of its pair is set if and only if a later number is k + 1 after the first |
| RtpBuffer.Buffer.Push | server/buffer.go:60-99 | for every buffer and packet, in every order: the packet is stored and stale ones are swept; a buffer that had a packet answers if and only if the window has passed since the last report and one of its slots is empty, asks for exactly the empty ones in order from its source, and notes the report even when nothing is missing |
| RtpBuffer.PushIsExact | server/buffer.go:60-99 | the same of the specification functions, slot by slot |
| RtpBuffer.Buffer.GetPacket | server/buffer.go:101-103 | what a slot holds is a packet of that number |
| RtpBuffer.Buffer.ClearOldPackets | server/buffer.go:179-199 | the scan starts after the last cleared number and ends at the pushed one or at the first packet less than 180,000 ticks away; it empties what it visited, and its marks are those of the last packet it removed |
| RtpBuffer.ScanSweeps | server/buffer.go:184-197 | the same for a scan from any number |
| RtpBuffer.Buffer.GetNackPairs | server/buffer.go:109-137 | for all bounds, one pair per run of seventeen that misses a number; the total is the number of empty slots |
| RtpBuffer.Buffer.GetNackPair | server/buffer.go:141-176 | for all bounds, the pair made of the empty slots between them, and their number |
| RtpBuffer.RunFitsPair | server/buffer.go:155-203 | on a run of at most seventeen no mask shift exceeds fifteen and the pair expands to all empty slots |
| RtpBuffer.ClearScanKeeps | server/buffer.go:179-199 | for any input, clearing only empties slots and never the one just pushed |
| RtpBuffer.PushSpares | server/buffer.go:75-78 | for any input, a push empties only slots whose packet is at least 180,000 ticks away |
| RtpBuffer.PushKeepsSlots | server/buffer.go:60-103 | for any input, every used slot holds its own number and the pushed packet is there afterwards |
| RtpBuffer.ReportExpands | server/buffer.go:109-176 | the pairs of a report expand to the empty slots of its range, in order, for every range and content |
| RtpBuffer.ReportOfRuns | server/buffer.go:109-137 | there is at most one pair for each run of seventeen, in order, and it names just what that run misses |
| RtpBuffer.MissingExact | server/buffer.go:141-176 | those are all empty slots of the cyclic range and each is there once |
| RtpStream.ScanRemovesExpired | server/buffer.go:179-199 | on an ordered stream the scan removes exactly the expired packets |
| RtpStream.RunRefines | server/buffer.go:60-103 | after any ordered run the 65,536 slots agree with the plain log of pushed packets |
| RtpStream.RetainsExactlyTheRecent | server/buffer.go:60-103 | after every push a slot answers with exactly the pushed packets less than 180,000 ticks old |
| RtpStream.SlotHasLatest | server/buffer.go:60-103 | on every ordered stream, however sparse, a slot has the last packet put there unless that has expired |
| RtpStream.LostExact | server/buffer.go:75-75 | without the distance bound, a packet that has not expired is lost if and only if another one followed a multiple of 65,536 numbers later |
| RtpStream.RingTooSmall | server/buffer.go:75-75 | and this does happen |
| RtpStream.AnswerNamesNotKept | server/buffer.go:80-98 | a report names exactly the numbers of its window whose packets are not kept, in order, with the source of the first packet |
| RtpStream.ReportExact | server/buffer.go:80-98 | a report names exactly the numbers never pushed if and only if nothing in its window has expired |
| RtpStream.SeventeenAreNotEnough | server/buffer.go:15-22 | seventeen consecutive numbers within 180,000 ticks do not imply that |
| RtpStream.DenseReportExact | server/buffer.go:60-99 | when the window and the pushed number span less than 180,000 ticks, every answer names exactly the never pushed numbers |
| RtpStream.NoNumberRequestedTwice | server/buffer.go:80-99 | over a whole run requests climb from the first packet on, so no number is requested twice and none before it |
| RtpStream.AllAskedIsRequested | server/buffer.go:80-99 | what goes out over a whole run is those requests, as 16-bit numbers |
| RtpStream.NothingPushedIsRequested | server/buffer.go:80-99 | on a dense stream no number is requested that is pushed at any time |
| JitterBuffer.JitterBuffer.PushRTP | server/jitterbuffer.go:24-35 | the buffer of the packet's source, a new one if there is none, takes the packet and answers as Push does; all other buffers stay as they are |
| JitterBuffer.JitterBuffer.GetPacket | server/jitterbuffer.go:38-47 | a packet that is found carries the asked source and number |
| JitterBuffer.JitterBuffer.RemoveBuffer | server/jitterbuffer.go:49-54 | one source is forgotten, the others stay |
| JitterBuffer.PushKeepsSource | server/jitterbuffer.go:24-35 | the buffer of a source never holds packets of another |
| JitterBuffer.NackHandler.HandleNack | server/jitter.go:37-75 | the buffered packets of all asked numbers are returned in order, and the forwarded pairs expand to all the others in order; nothing is forwarded iff nothing is left, and otherwise one pair for each asked pair that is not all answered |
| JitterBuffer.SplitConserves | server/jitter.go:45-60 | answered and forwarded numbers together are the asked ones, each as often as it was asked |
| JitterBuffer.SplitIsHonest | server/jitter.go:47-59 | answered are exactly the buffered ones among the asked, forwarded exactly the others |
| JitterBuffer.RepackedPair | server/jitter.go:61-63 | what is left of any pair survives being packed into one pair again |
| CodecHeader.EncodeHeader | src/client/codec/header.ts:31-57 | the sixteen bytes of the header layout |
| CodecHeader.HeaderIsLaid | src/client/codec/header.ts:1-57 | each field that fits stands in its own bytes, the high byte first |
| CodecHeader.DecodedIsLaid | src/client/codec/header.ts:59-79 | each field is read from its own bytes |
| CodecHeader.DecodedSign | src/client/codec/header.ts:65-69 | a size whose top bit is set is negative |
| CodecHeader.HeaderRoundTrip | src/client/codec/header.ts:31-79 | decoding returns the encoded header if and only if every field fits its bits |
| CodecHeader.BytesRoundTrip | src/client/codec/header.ts:31-79 | encoding returns the decoded sixteen bytes if and only if both unused bits are clear |
| CodecEncoder.Work | src/client/codec/index.ts:67-146 | the events of the worker: as few chunks as hold the data, numbered in order, each with its header, sender id and stretch of the data, and then done; or one error when there is no room for a byte of data |
| CodecEncoder.WorkIsExact | src/client/codec/index.ts:67-146 | the same of the specification functions, byte by byte |
| CodecEncoder.CountIsCeiling | src/client/codec/index.ts:97-97 | the number of chunks is the least that holds the data |
| CodecEncoder.PiecesTile | src/client/codec/index.ts:99-137 | pieces follow each other without gap or overlap, all but the last equally long, up to the end of the data |
| CodecEncoder.NoChunksWithoutData | src/client/codec/index.ts:97-99 | a message has no chunks if and only if it has no data |
| CodecEncoder.ChunksCarryMessage | src/client/codec/index.ts:99-137 | the pieces together are the message and no chunk exceeds the maximum size |
| CodecEncoder.DefaultIsEncodable | src/client/codec/index.ts:76-137 | with the default maximum, ids of up to 32,750 bytes and data below 2 GiB no header field is truncated |
| CodecEncoder.SenderLimitIsTight | src/client/codec/index.ts:177-177 | 32,750 is exactly the limit |
| CodecEncoder.Encoder.Encode | src/client/codec/index.ts:229-258 | every message gets the next id |
| CodecEncoder.IdsRepeatByCycle | src/client/codec/index.ts:235-239 | ids lie in 1..65,535, and two of them agree if and only if a multiple of 65,535 messages lies between them |
| CodecDecoder.Decoder.Accept | src/client/codec/index.ts:276-317 | after any input: other containers stay; the body is written where its number says, the last one up against the end; a full container is answered and removed, others wait; an input that does not fit is a range error and changes no byte |
| CodecDecoder.DecodeIsExact | src/client/codec/index.ts:276-317 | the same of the specification function |
| CodecDecoder.KeyInjective | src/client/codec/index.ts:287-287 | the key of a container determines sender and message id, whatever the sender id contains |
| CodecDecoder.DecodeChunk | src/client/codec/index.ts:276-317 | a chunk of the encoder is put where it belongs, the last one counted back from the end |
| CodecDecoder.PlaceKeeps | src/client/codec/index.ts:301-306 | placing a chunk keeps every chunk that arrived before it |
| CodecDecoder.Reassembles | src/client/codec/index.ts:268-318 | for any messages and any interleaving and order of their chunks, each delivered once and none while another message with its sender and id is under way: the last chunk of a message yields its sender and bytes, every other chunk nothing, and containers exist exactly for messages under way |
| CodecDecoder.OwnIdsAreDeliverable | src/client/codec/index.ts:268-318 | when every message has a sender and id of its own, that is any interleaving and order |
| Negotiator.Negotiator.Negotiate | server/wrtcnegotiator.go:100-116 | starts a round on a new channel, or queues exactly one when a round is in flight, and answers with the channel of the round it started |
| Negotiator.Negotiator.QueueTransceiverRequest | server/wrtcnegotiator.go:51-55 | the request waits behind earlier ones |
| Negotiator.Negotiator.HandleSignalingStateChange | server/wrtcnegotiator.go:78-98 | a stable connection starts the queued round or ends the current one; a closed one ends it; other states change nothing |
| Negotiator.Negotiator.AddQueuedTransceivers | server/wrtcnegotiator.go:118-127 | the waiting transceivers are added in order and none waits any more |
| Negotiator.Negotiator.DoNegotiate | server/wrtcnegotiator.go:129-141 | adds the waiting transceivers in order, and then the initiator makes one offer, the other peer one request |
| Negotiator.Negotiator.CloseDoneChannel | server/wrtcnegotiator.go:60-65 | the current channel is closed once and forgotten |
| Negotiator.NoLostWakeUp | server/wrtcnegotiator.go:51-141 | in every interleaving of lock sections: requests since the last round imply a queued one, waiting transceivers imply a queued round or a call about to queue it, a queued round implies one in flight, transceivers are added once each in order, and each channel closes at most once |
| Negotiator.DoneMeansServed | server/wrtcnegotiator.go:89-96 | a stable event closes the channel only when every completed request was served by a later round |
| Negotiator.OneOfferPerRound | server/wrtcnegotiator.go:78-141 | in every run an initiator has made one offer for each round started and no request, the other peer the reverse |
| Negotiator.HistoryExact | server/wrtcnegotiator.go:51-141 | what each lock section does to the negotiator, effect by effect, and when it starts a round |
| Negotiator.StrandedExact | server/wrtcnegotiator.go:78-116 | in every run, a round is queued with none in flight if and only if a closing met a queued round and neither a request nor a stable event came after |
| Negotiator.CloseForgetsTheQueue | server/wrtcnegotiator.go:87-88 | after close the queued flag can remain set |
| TwoPeers.OneOfferAtATime | server/wrtcsignaller.go:183-283 | in every interleaving of two peers at most one offer is outstanding, only the initiator creates offers, and every description fits the signalling state it meets |
| TwoPeers.EverythingIsAccounted | server/wrtcsignaller.go:183-299 | in every run offers created, logged and sent are as many; so are requests of the other peer, and offers taken and answered; every transceiver asked for is sent, and those taken are added or wait, in order |
| TwoPeers.StatesExact | server/wrtcsignaller.go:227-283 | signalling states, their events and the log change with the descriptions that are set, and with nothing else |
| TwoPeers.RequestsExact | server/wrtcsignaller.go:183-225 | what each peer hands to its negotiator, step by step |
| TwoPeers.QuietIsDone | server/wrtcnegotiator.go:78-141 | whenever nothing is in flight both negotiators are idle with nothing queued, and the last offer was created after the last request of either side |
| TwoPeers.WorkDecreases | server/wrtcnegotiator.go:78-141 | without new requests every step brings the peers closer to rest, so no run goes on for ever |
| TwoPeers.ComesToRest | server/wrtcnegotiator.go:78-141 | from every reachable state the peers can come to rest by themselves |
| Signaller.Signaller.OnSignal | server/wrtcsignaller.go:123-133 | the payload has the mutex, and after close a channel that never takes it |
| Signaller.Signaller.Select | server/wrtcsignaller.go:135-141 | the payload is sent or, only once closing has begun, dropped; the mutex is free again |
| Signaller.Signaller.FinishClose | server/wrtcsignaller.go:149-155 | the signal channel and then the peer connection are closed under the mutex, and the signaller is marked closed |
| Signaller.Signaller.CloseDescriptionSent | server/wrtcsignaller.go:285-291 | candidates may go on; a second call changes nothing |
| Signaller.ClosedOnceAndForAll | server/wrtcsignaller.go:123-159 | in every interleaving the signal channel is closed at most once, nothing is sent on it afterwards, and the peer connection is closed at most once, after it |
| Signaller.EveryPayloadHasItsTurn | server/wrtcsignaller.go:123-143 | every payload of any kind whose sender got the mutex has one turn, in that order |
| Signaller.PayloadsLeaveInTurn | server/wrtcsignaller.go:123-143 | payloads leave in the order their senders got the mutex, and none is dropped before closing begins |
| Signaller.DescriptionComesFirst | server/wrtcsignaller.go:161-181 | until closing begins every emitted candidate is preceded by an emitted description |
| Signaller.DescriptionHadItsTurn | server/wrtcsignaller.go:250-291 | even while closing, a candidate is sent only after a description had its turn |
| Signaller.DescribedFirstExact | server/wrtcsignaller.go:123-181 | before closing begins: every continuation, closing or not, emits descriptions before candidates if and only if a reader has already taken a description |
| Signaller.CandidateWithoutDescription | server/wrtcsignaller.go:135-141 | while closing, that description may have been dropped |
| Signaller.CloseIsNotBlocked | server/wrtcsignaller.go:145-156 | once closing begins and even after it is finished, whoever holds the mutex can go on without a reader, and until then Close gets a free mutex |
| StreamsInvariant.ApartExact | src/client/reducers/streams.ts:56-60 | two peers can share a key if and only if one id and its separator start the other's |
| StreamsInvariant.CleanAreApart | src/client/reducers/streams.ts:56-60 | different clean ids are apart |
| StreamsInvariant.PrefixFindsPeer | src/client/reducers/streams.ts:621-623 | the prefix test finds the keys of the peer and no others, for ids that are apart |
| StreamsInvariant.CleanExact | src/client/reducers/streams.ts:58-60 | an id is clean if and only if its keys differ from all keys of peers with shorter ids |
| StreamsInvariant.CleanMeans | src/client/reducers/streams.ts:56-60 | that is, if and only if the id has no two colons in a row and does not end in one |
| StreamsInvariant.TrailingColonCollides | src/client/reducers/streams.ts:58-60 | two ids without a separator in them can share a key |
| Streams.SetMetadataInLoops | src/client/reducers/streams.ts:553-613 | the two loops compute the specification function, for every order in which the record is walked |
| Streams.RemovePeerInLoop | src/client/reducers/streams.ts:615-642 | the loop computes the specification function |
| StreamsInvariant.AddTrackCore | src/client/reducers/streams.ts:442-497 | an added track is in the stream of the user that getUserId answers, and the maps agree |
| StreamsInvariant.RemoveTrackCore | src/client/reducers/streams.ts:229-299 | a removed track is in no stream, its entry stays without association, and the maps agree |
| StreamsInvariant.UnassociateExact | src/client/reducers/streams.ts:499-536 | exactly the tracks of that user lose their association |
| StreamsInvariant.UnassociateCore | src/client/reducers/streams.ts:499-536 | and the maps still agree |
| StreamsInvariant.SetMetadataExact | src/client/reducers/streams.ts:553-613 | after any metadata every known track named by it belongs to exactly the user and stream of its last entry, every other one to none, no entry is lost, and the maps agree |
| StreamsInvariant.SetMetadataIdempotent | src/client/reducers/streams.ts:553-613 | with distinct mids the same metadata again changes nothing, in whatever order the record is walked |
| StreamsInvariant.SetMetadataAgain | src/client/reducers/streams.ts:553-613 | with any mids the same metadata again leaves every entry and every track where it is |
| StreamsInvariant.RemovePeerExact | src/client/reducers/streams.ts:615-642 | exactly the entries of that peer go, with their tracks and track ids; all others are untouched |
| StreamsInvariant.ActionKeepsInv | src/client/reducers/streams.ts:674-706 | every action keeps the invariant |
| StreamsInvariant.ReduceExact | src/client/reducers/streams.ts:674-706 | action by action, which entries there are afterwards and whose they are; after hang-up all four maps are empty |
| StreamsInvariant.KeyByIsLast | src/client/reducers/streams.ts:558-561 | the record has exactly the keys of the entries, each with its last one |
| StreamsInvariant.MapsAgree | src/client/reducers/streams.ts:674-706 | for ids that are apart, in every reachable state a track is in a stream of a user if and only if its entry says so, associations are what getUserId answers now, stream ids are unique per user, and no stream or user is empty |
| TrackForwarding.WebRTCTransport.AddTrack | server/webrtctransport.go:312-365 | the track is sent from now on, under its source number, and a round or a transceiver is asked for; nothing happens when the connection refuses |
| TrackForwarding.WebRTCTransport.RemoveTrack | server/webrtctransport.go:292-310 | the track is no longer sent and a round is asked for; unknown tracks and refusals are reported and change nothing |
| TrackForwarding.WebRTCTransport.AddRemoteTrack | server/webrtctransport.go:367-372 | the track is received |
| TrackForwarding.WebRTCTransport.RemoveRemoteTrack | server/webrtctransport.go:374-379 | the track is no longer received |
| TrackForwarding.WebRTCTransport.RemoteTracks | server/webrtctransport.go:382-393 | every received track once |
| TrackForwarding.RoomPeersManager.AddTrack | server/tracksmanager.go:99-113 | every transport but the publisher's and those that fail sends the track, and the publisher is on record |
| TrackForwarding.RoomPeersManager.RemoveTrack | server/tracksmanager.go:310-327 | no transport but the publisher's and those that fail sends it, and the record and the bitrate estimates of the track are gone |
| TrackForwarding.RoomPeersManager.Add | server/tracksmanager.go:254-273 | the new transport sends what all in the room receive, each visited once, and replaces one of the same client; the others are unchanged |
| TrackForwarding.RoomPeersManager.Remove | server/tracksmanager.go:301-308 | that transport is out of the room and its estimates are forgotten, the others are unchanged |
| TrackForwarding.RoomPeersManager.GetTransportBySSRC | server/tracksmanager.go:136-147 | found if and only if the publisher is on record and in the room, and then it is the publisher's |
| TrackForwarding.RoomPeersManager.GetTracksMetadata | server/tracksmanager.go:276-299 | one entry per sent track: its stream, its kind, its mid or none yet, and the publisher on record or nobody; fails exactly for clients outside the room |
| TrackForwardingRuns.StepKeepsInv | server/tracksmanager.go:99-113 | every step of a join, leave or track keeps the table right up to the events still to be handled |
| TrackForwardingRuns.LeaveExact | server/tracksmanager.go:56-66 | a member can leave whenever nobody joins, and only its own table goes |
| TrackForwardingRuns.TrackStartsExact | server/webrtctransport.go:409-440 | a new track is received by its client and its start is still to be handled; nothing else changes |
| TrackForwardingRuns.TrackEndsExact | server/webrtctransport.go:441-461 | a track that ends is no longer received and its end is handled after its start; nothing else changes |
| TrackForwardingRuns.EventHandledExact | server/tracksmanager.go:154-163 | one event is handled as AddTrack or RemoveTrack do, transport by transport |
| TrackForwardingRuns.SettledForwardsAll | server/tracksmanager.go:254-327 | in every interleaving, once no event is pending and departed clients have ended their tracks, each transport sends exactly what the other members receive |
| TrackForwardingRuns.SettledPublishers | server/tracksmanager.go:310-327 | and the record of publishers is exactly who receives what |
| TrackForwardingRuns.AlwaysHonest | server/tracksmanager.go:275-299 | at any moment nobody is sent its own track or one whose end was handled, and metadata names the publisher or, only before the start is handled, nobody |
| TrackForwardingRuns.MetadataNamesNobody | server/tracksmanager.go:285-295 | and this does happen to whoever joins in between |
| TrackForwardingRuns.JoinIsAdd | server/tracksmanager.go:254-273 | the steps of a join without interruption do what RoomPeersManager.Add does |
| TrackForwardingRuns.ComesToRest | server/tracksmanager.go:149-163 | from every state, finishing the join and handling events leads to rest: no join under way and no event of a client whose events are read |
| TrackForwardingRuns.RestIsSettled | server/tracksmanager.go:254-327 | at rest, when all clients with tracks have joined and those who left have ended theirs, the table is settled |
| TrackForwardingRuns.JoinGoesOn | server/tracksmanager.go:37-67 | a join can always go on, with fewer clients to visit |
| KeyContexts.SaltInjective | src/client/insertable-streams/index.ts:118-126 | under one url different users have different salts |
| KeyContexts.SaltExact | src/client/insertable-streams/index.ts:118-126 | the salt is the url, a zero byte and the user |
| KeyContexts.KeyByExact | src/client/insertable-streams/index.ts:345-348 | the record has exactly the mids that some entry names, each with the user of the last such entry |
| KeyContexts.KeysAreSound | src/client/insertable-streams/index.ts:174-182 | in every interleaving, a key stored for a mid is the one of the user and password of its context |
| KeyContexts.ContextsFollow | src/client/insertable-streams/index.ts:344-375 | contexts exist exactly for the mids received and still named, for the user that metadata or else the sender resolves to |
| KeyContexts.ContextsAreReceived | src/client/insertable-streams/index.ts:344-398 | in terms of events alone: a mid has a context if and only if all metadata since it was last received names it, for the user that the last metadata names last, or else the one it was received for |
| KeyContexts.CurrentPasswordExact | src/client/insertable-streams/index.ts:365-366 | the password is the one that was set last |
| KeyContexts.SettledIsExpected | src/client/insertable-streams/index.ts:152-183 | once all derivations succeeded and settled, every context has the current password, the resolved user and exactly their key, none for the empty password |
| KeyContexts.NeverAskedAgain | src/client/insertable-streams/index.ts:160-162 | a context with its user and password is left alone, even without a key |
| KeyContexts.MissingKeyExact | src/client/insertable-streams/index.ts:160-182 | in every settled run, a context with a password lacks its key if and only if the derivation of just this key failed |
| KeyContexts.StalePasswordExact | src/client/insertable-streams/index.ts:365-375 | in every run, a context has an old password if and only if it had another one when the password was last set and no event has seen to it since |
| KeyContexts.StalePasswordMeansFailure | src/client/insertable-streams/index.ts:365-375 | once settled, that takes a regeneration that failed after the password was set |
| KeyContexts.NeverSetNeverStale | src/client/insertable-streams/index.ts:101-107 | until a password is set no context has one |
| KeyContexts.OldPasswordSticks | src/client/insertable-streams/index.ts:365-375 | and this does happen |
| KeyContexts.FailureSticks | src/client/insertable-streams/index.ts:160-182 | after one failed derivation a settled context has no key |
| KeyWorker.Worker.UpdateDecryptContext | src/client/insertable-streams/index.ts:152-183 | the context of one mid is renewed and a derivation started, or nothing happens |
| KeyWorker.Worker.OnPassword | src/client/insertable-streams/index.ts:365-375 | the password changes at once, the contexts only later |
| KeyWorker.Worker.OnMetadata | src/client/insertable-streams/index.ts:344-363 | both loops together do what the event does, in any order of the mids |
| KeyWorker.Worker.OnDecrypt | src/client/insertable-streams/index.ts:387-398 | the context of the received track is renewed |
| KeyWorker.Worker.Regenerate | src/client/insertable-streams/index.ts:369-374 | every context is renewed for its own user |
| KeyWorker.Worker.OnKey | src/client/insertable-streams/index.ts:175-182 | a key is stored only in the context it was derived for |
| Membership.RedisAdapter.Add | server/redisadapter.go:90-101 | the join is broadcast to every instance and the client is local; if the broadcast fails, neither |
| Membership.RedisAdapter.Remove | server/redisadapter.go:103-131 | a local client is deleted from the hash and its leave broadcast, and forgotten even if that fails; others are left alone |
| Membership.RedisAdapter.LocalBroadcast | server/redisadapter.go:300-308 | fails if and only if some local socket fails |
| Membership.RedisAdapter.HandleMessage | server/redisadapter.go:167-215 | a join is put into the hash, a leave taken out unless a local socket or the server fails, and failures are reported |
| Membership.JoinsAsAdded | server/redisadapter.go:90-101 | a join can happen whenever the id is new, and does what Add does |
| Membership.LeavesAsRemoved | server/redisadapter.go:121-127 | the first half of what Remove does |
| Membership.LeaveIsTold | server/redisadapter.go:128-128 | and the second half |
| Membership.ReplaysAsHandled | server/redisadapter.go:167-215 | an instance with a message can replay it, and does what HandleMessage does |
| Membership.StepKeepsListed | server/redisadapter.go:90-215 | every step keeps present clients listed or about to be, and clients that left dropped or about to be |
| Membership.DrainedIsExact | server/redisadapter.go:167-215 | in every interleaving with working sockets, once all instances have read everything the hash lists exactly the clients that joined and have not left |
| Membership.DrainedMissesNobody | server/redisadapter.go:167-215 | even when sockets fail, no present client is missing then |
| Membership.LingersExact | server/redisadapter.go:167-215 | whatever sockets failed so far: with working sockets from now on, a client that left is listed in the end if and only if it is listed now and no instance has its leave still to handle |
| Membership.FailedWriteHaunts | server/redisadapter.go:190-199 | and this does happen in a run of one instance |
| Membership.MetadataLastsExact | server/redisadapter.go:138-189 | in every reachable state: metadata that is set lasts until it is set again or the client leaves, if and only if no instance has a join with other metadata still to replay |
| Membership.LateReplayForgets | server/redisadapter.go:181-189 | in a run of two instances a late replay of the join puts back its metadata for good |
| Bitrate.BitrateEstimator.Estimate | server/remb.go:20-37 | the fast path and the scan both answer with the least current estimate, however stale the cache is |
| Bitrate.BitrateEstimator.RemoveEstimation | server/remb.go:39-41 | one estimate is gone and the cache is still no higher than the others |
| Bitrate.TrackBitrateEstimators.Estimate | server/remb.go:61-80 | the least over all receivers' estimates of the given tracks, the greatest number when none is given |
| Bitrate.TrackBitrateEstimators.RemoveReceiverEstimations | server/remb.go:82-91 | that receiver's estimates are gone from every track |
| Bitrate.TrackBitrateEstimators.Remove | server/remb.go:93-98 | one track is gone |
| Bitrate.ToldExact | server/remb.go:70-77 | exactly the given tracks learn the estimate, however often one is named |
| BaseN.Encode | server/basen.go:22-39 | the digits of the big-endian number, lowest first |
| BaseN.Decode | server/basen.go:46-81 | fails exactly at the first character outside the alphabet, else the bytes of the weighted sum |
| BaseN.RuneToValueExact | server/basen.go:46-57 | for any alphabet, a character counts as its last position in it |
| BaseN.SpelledExact | server/basen.go:31-36 | for any alphabet, the text is that of the digits of the number, lowest first and without a zero at the end |
| BaseN.DecodeEncoded | server/basen.go:22-81 | decoding the encoding gives the bytes without leading zero bytes |
| BaseN.EncodeDecoded | server/basen.go:22-81 | encoding the decoding gives the text without trailing zero digits |
| BaseN.EncodeInjective | server/basen.go:22-39 | equally long byte strings have different encodings; others agree only up to leading zeros |
| BaseN.LengthExact | server/basen.go:31-36 | a number needs at most k digits if and only if it is below the k-th power of the base |
| BaseN.UUIDsAreShort | server/uuid.go:5-10 | UUIDs have texts of at most 22 characters, and different UUIDs different ones |
| BaseN.LongestUUID | server/uuid.go:5-10 | 22 is reached |

## Left out

- The libraries and the browser: WebRTC, simple-peer, Redis, websockets and media objects appear only as their abstract state (a signalling state, a set of tracks, a hash, queues). Their errors are modelled where a method answers them (`TrackForwarding`, `Membership.Redis`, sockets in `Membership`) and for derivations (`KeyContexts`); the runs of `TwoPeers`, `TrackForwardingRuns` and `Membership` have no failing connections or Redis commands.
- AES-GCM, PBKDF2 and UTF-8: derivation is a parameter, and texts that are hashed or sent are byte strings. Decoding of malformed UTF-8 and byte order marks in sender ids is not modelled.
- Signaller.Signaller.OnSignal: `onSignal` and `Close` are cut where they may have to wait for the mutex, a reader or a channel, since others may come in between; a method here is the stretch between two such points, and its precondition is what the goroutine waits for. What the peer connection does with descriptions is not part of this model.
- TwoPeers.OneOfferAtATime: errors of the peer connection and close are left out of the run of two peers; `Negotiator` covers close for one side.
- Negotiator.Negotiator.Negotiate: done channels are numbered, and `Done`, which only hands out the current one or a closed one, is not modelled.
- RtpStream.RetainsExactlyTheRecent: reordered packets and timestamps that wrap are outside the retention property, since ages are absolute differences; what holds for any input is in `RtpBuffer.PushKeepsSlots`.
- CodecDecoder.Reassembles: each chunk is delivered once. The decoder counts arrivals, so duplicated or forged chunks are outside it, and so is a sender that is 65,535 messages ahead of an unfinished one.
- CodecEncoder.Work: the quotient under `Math.ceil` is exact here; in doubles it is for all sizes below 2 GiB. Posting to a worker and timers are left out.
- StreamsInvariant.SetMetadataIdempotent: when a mid is named twice, the order of the streams of a user may change the second time; `SetMetadataAgain` says what stays.
- StreamsInvariant.MapsAgree: a peer and mid keep one track and one stream id, and peer ids are apart. Media streams are sets of tracks, changed together with the state that holds them, so aliasing of one media stream by two states is not modelled. Local streams, recording and object urls are left out.
- TrackForwardingRuns.SettledForwardsAll: it speaks of the `localTracks` map and not of senders inside the peer connection, where a track that is added twice may have two. Events of different tracks may be handled in any order, which allows more than the one queue per transport does.
- TrackForwarding.WebRTCTransport.AddTrack: the sender inside the peer connection is left out, and mids and kinds are what the connection answers when asked; the round it asks for is only counted, and `Negotiator` and `TwoPeers` say what becomes of it. A connection that refuses always refuses.
- KeyContexts.SettledIsExpected: the worker is initialised once and first, so that the url is fixed. Contexts are values with the number of the event that made them in place of object identity. The sender's own key is not modelled: its password is kept when the room's is cleared.
- Membership.DrainedIsExact: Redis commands succeed, instances are fixed, and each client joins once. Which client gets which message through its own channel is left out, and so is closing an adapter, which removes its clients one by one.
- BaseN.Encode: alphabets have at least two characters; with fewer the loop in the source does not end or divides by zero. Characters are single bytes.
- The mesh handshake, recording, small reducers, views, routing, configuration, tokens, metrics, logging and room reference counting are left out: they would only add easy members.
