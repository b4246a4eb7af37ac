/** The socket handlers of the viewer-facing instance `viewerIo` (server.js lines 302-375).
    They read and write only the mirror `streamBridge.activeStreams`. */
module ViewerSide {
  import opened Wrappers
  import opened OrderedMap
  import opened Protocol

  /** `viewer-join` on the viewer-facing instance: the same test as on the streamer side but against
      the mirror; no one but the caller is told. */
  function OnJoin(b: Broker, caller: SocketId, id: StreamId): (r: Step)
    ensures r.state.streams == b.streams
    ensures Has(b.bridge, id) ==>
              && Get(r.state.bridge, id) == Some(AddViewer(Get(b.bridge, id).value, caller))
              && (forall x :: x != id ==> Get(r.state.bridge, x) == Get(b.bridge, x))
              && Keys(r.state.bridge) == Keys(b.bridge)
              && r.out == [JoinRoom(ViewerSide, caller, id),
                           Emit(ToSocket(ViewerSide, caller), ViewerReadyEvent, StreamRef(id))]
    ensures !Has(b.bridge, id) ==>
              && r.state == b
              && r.out == [Emit(ToSocket(ViewerSide, caller), StreamNotFoundEvent, StreamRef(id))]
  {
    match Get(b.bridge, id)
    case Some(s) =>
      Step(b.(bridge := Set(b.bridge, id, AddViewer(s, caller))),
           [JoinRoom(ViewerSide, caller, id),
            Emit(ToSocket(ViewerSide, caller), ViewerReadyEvent, StreamRef(id))])
    case None =>
      Step(b, [Emit(ToSocket(ViewerSide, caller), StreamNotFoundEvent, StreamRef(id))])
  }

  /** The event name a forwarded viewer message reaches the streamer under. */
  function ForwardedEvent(kind: RelayKind): string {
    match kind
    case RelayOffer => OfferEvent
    case RelayAnswer => ViewerAnswerEvent
    case RelayIceCandidate => ViewerIceCandidateEvent
  }

  /** `offer`, `answer`, `ice-candidate` on the viewer-facing instance: look the stream up in the
      mirror and send the payload to its streamer's socket on the streamer-facing instance, stamped
      with the caller as sender; drop it silently for an unknown stream. */
  function OnRelay(b: Broker, caller: SocketId, kind: RelayKind, sig: SignalData): (r: Step)
    ensures r.state == b
    ensures !Has(b.bridge, sig.streamId) ==> r.out == []
    ensures Has(b.bridge, sig.streamId) ==>
              var streamer := Get(b.bridge, sig.streamId).value.streamerId;
              && |r.out| == 1 && r.out[0].Emit?
              && r.out[0].to == ToRoom(StreamerSide, streamer, None)
              && r.out[0].msg == Signal(sig.body, Some(caller), Some(streamer))
              && r.out[0].event == (if kind == RelayOffer then OfferEvent
                                    else if kind == RelayAnswer then ViewerAnswerEvent
                                    else ViewerIceCandidateEvent)
  {
    match Get(b.bridge, sig.streamId)
    case Some(s) =>
      Step(b, [Emit(ToRoom(StreamerSide, s.streamerId, None), ForwardedEvent(kind),
                    Signal(sig.body, Some(caller), Some(s.streamerId)))])
    case None => Step(b, [])
  }

  /** `disconnect` on the viewer-facing instance: leave every mirrored stream, emit nothing. */
  function OnDisconnect(b: Broker, caller: SocketId): (r: Step)
    ensures r.state.streams == b.streams
    ensures Keys(r.state.bridge) == Keys(b.bridge)
    ensures |r.state.bridge| == |b.bridge|
    ensures forall j :: 0 <= j < |b.bridge| ==> r.state.bridge[j] == Strip(b.bridge[j], caller)
    ensures forall x :: Has(b.bridge, x) ==>
              Get(r.state.bridge, x) == Some(Get(b.bridge, x).value.(viewers := Get(b.bridge, x).value.viewers - {caller}))
    ensures forall x :: !Has(b.bridge, x) ==> Get(r.state.bridge, x) == None
    ensures r.out == []
  {
    var kept := StripAll(b.bridge, caller);
    assert Keys(kept) == Keys(b.bridge);
    assert forall x :: IndexOf(kept, x) == IndexOf(b.bridge, x) by {
      forall x ensures IndexOf(kept, x) == IndexOf(b.bridge, x) {
        var i := IndexOf(b.bridge, x);
        if i < |b.bridge| { IndexOfAt(kept, x, i); }
      }
    }
    Step(b.(bridge := kept), [])
  }

  /** Dispatch one event of a viewer-side socket to its handler. No viewer-side event touches
      `activeStreams`, or adds, removes or reorders a mirrored stream id. */
  function Handle(b: Broker, caller: SocketId, req: ViewerRequest): (r: Step)
    ensures r.state.streams == b.streams
    ensures Keys(r.state.bridge) == Keys(b.bridge)
  {
    match req
    case RelayJoin(id) => OnJoin(b, caller, id)
    case RelayIn(kind, sig) => OnRelay(b, caller, kind, sig)
    case RelayDisconnect => OnDisconnect(b, caller)
  }
}
