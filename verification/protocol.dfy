/** The vocabulary shared by both broker instances of server.js: identifiers,
    the stream record kept per stream id, the broker state (the streamer-facing
    `activeStreams` map and its mirror `streamBridge.activeStreams`), the
    requests a socket can send and the outputs a handler produces. */
module Protocol {
  import opened Wrappers
  import opened OrderedMap

  /** A socket.io connection id; every socket is also the only member of the room of that name. */
  type SocketId = string

  /** A stream id, which is also the name of the socket.io room of that stream. */
  type StreamId = string

  /** A payload the broker forwards without looking inside (an SDP offer, an ICE candidate, a data frame). */
  type Blob = string

  /** The object a streamer sends with `streamer-join`: an optional requested id and the rest of its fields. */
  datatype StreamData = StreamData(streamId: Option<string>, body: Blob)

  /** The value stored per stream id: who streams, what it declared, who watches. */
  datatype Stream = Stream(streamerId: SocketId, streamData: StreamData, viewers: set<SocketId>)

  /** `activeStreams` and `streamBridge.activeStreams` are both JavaScript Maps from stream id to stream. */
  type Registry = OMap<StreamId, Stream>

  /** The whole mutable state of the two signalling instances. */
  datatype Broker = Broker(streams: Registry, bridge: Registry)

  /** Both maps are empty when the process starts. */
  const Initial: Broker := Broker([], [])

  /** `io` serves streamers, `viewerIo` serves viewers. */
  datatype Instance = StreamerSide | ViewerSide

  /** Where an emit goes: `socket.emit` reaches the calling socket only; `socket.to(room).emit`
      reaches the room except the sending socket; `io.to(room).emit` reaches the whole room. */
  datatype Target =
    | ToSocket(inst: Instance, socket: SocketId)
    | ToRoom(inst: Instance, room: string, except: Option<SocketId>)

  /** The payload object of an emitted event. */
  datatype Message =
    | StreamRef(streamId: StreamId)                                       // { streamId }
    | ViewerRef(viewerId: SocketId)                                       // { viewerId }
    | Signal(body: Blob, sender: Option<SocketId>, target: Option<SocketId>) // { offer|answer|candidate, sender, target? }
    | Data(packet: Packet)                                                // the stream-data object, forwarded whole

  /** What a handler does to the outside world: emit an event, or put a socket into a room. */
  datatype Output =
    | Emit(to: Target, event: string, msg: Message)
    | JoinRoom(inst: Instance, socket: SocketId, room: StreamId)

  /** The new state and the outputs of one handler run, in the order the handler produces them. */
  datatype Step = Step(state: Broker, out: seq<Output>)

  /** The `data` argument of the signalling events: `target`, `streamId`, the opaque
      offer/answer/candidate, and the `sender` a client may claim. */
  datatype SignalData = SignalData(target: SocketId, streamId: StreamId, body: Blob, sender: Option<SocketId>)

  /** The `stream-data` object: the id of the stream it belongs to, and the rest. */
  datatype Packet = Packet(streamId: StreamId, body: Blob)

  /** The five signalling events the streamer-facing instance relays by explicit target. */
  datatype SignalKind = Offer | Answer | ViewerAnswer | IceCandidate | ViewerIceCandidate

  /** Events a socket of the streamer-facing instance can send. `freshId` is the value `uuidv4()`
      would return if the handler needed one. */
  datatype StreamerRequest =
    | StreamerJoin(data: StreamData, freshId: StreamId)
    | ViewerJoin(streamId: StreamId)
    | SignalIn(kind: SignalKind, signal: SignalData)
    | StreamDataIn(packet: Packet)
    | Disconnect

  /** The three signalling events the viewer-facing instance forwards to a streamer by stream id. */
  datatype RelayKind = RelayOffer | RelayAnswer | RelayIceCandidate

  /** Events a socket of the viewer-facing instance can send. */
  datatype ViewerRequest =
    | RelayJoin(streamId: StreamId)
    | RelayIn(kind: RelayKind, signal: SignalData)
    | RelayDisconnect

  // Event names as they appear on the wire.
  const StreamerReadyEvent := "streamer-ready"
  const ViewerReadyEvent := "viewer-ready"
  const ViewerJoinedEvent := "viewer-joined"
  const ViewerLeftEvent := "viewer-left"
  const StreamNotFoundEvent := "stream-not-found"
  const StreamEndedEvent := "stream-ended"
  const StreamDataEvent := "stream-data"
  const OfferEvent := "offer"
  const AnswerEvent := "answer"
  const IceCandidateEvent := "ice-candidate"
  const ViewerAnswerEvent := "viewer-answer"
  const ViewerIceCandidateEvent := "viewer-ice-candidate"

  /** JavaScript truthiness of an optional string field: absent and "" are falsy. */
  predicate TruthyId(s: Option<string>) {
    s.Some? && s.value != ""
  }

  /** A newly registered stream: the given streamer and data, and no viewers yet. */
  function Fresh(streamer: SocketId, data: StreamData): Stream {
    Stream(streamer, data, {})
  }

  /** The stream with one more viewer. */
  function AddViewer(s: Stream, viewer: SocketId): Stream {
    s.(viewers := s.viewers + {viewer})
  }

  /** The entry with the given socket removed from its viewers. */
  function Strip(e: Entry<StreamId, Stream>, socket: SocketId): Entry<StreamId, Stream> {
    Entry(e.key, e.value.(viewers := e.value.viewers - {socket}))
  }

  /** Every entry with the given socket removed from its viewers. */
  function StripAll(es: seq<Entry<StreamId, Stream>>, socket: SocketId): (r: seq<Entry<StreamId, Stream>>)
    ensures |r| == |es|
    ensures forall j :: 0 <= j < |es| ==> r[j] == Strip(es[j], socket)
  {
    if |es| == 0 then [] else [Strip(es[0], socket)] + StripAll(es[1..], socket)
  }
}
