/** Whole-broker consequences of the handlers: what an id collision does, that a streamer may
    watch its own stream, and an end-to-end run through both instances. */
module Scenarios {
  import opened Wrappers
  import opened OrderedMap
  import opened Protocol
  import StreamerSide
  import ViewerSide
  import Bridge

  /** Registering under an id that is already in use replaces the old stream in both maps: the new
      caller becomes its streamer, its viewers are forgotten, and nobody but the new caller is told,
      so the old stream's viewers receive nothing. */
  lemma CollisionOverwritesSilently(b: Broker, caller: SocketId, data: StreamData, freshId: StreamId)
    requires TruthyId(data.streamId) && Has(b.streams, data.streamId.value)
    ensures var r := StreamerSide.OnStreamerJoin(b, caller, data, freshId);
      && Get(r.state.streams, data.streamId.value) == Some(Stream(caller, data, {}))
      && Get(r.state.bridge, data.streamId.value) == Some(Stream(caller, data, {}))
      && Keys(r.state.streams) == Keys(b.streams)
      && forall o <- r.out :: o.Emit? ==> o.to == ToSocket(StreamerSide, caller)
  {
  }

  /** A socket that registered a stream may also join it as a viewer on the streamer-facing
      instance; nothing keeps a streamer out of its own viewer set. */
  lemma StreamerMayWatchOwnStream(p: SocketId, id: StreamId, body: Blob)
    requires id != ""
    ensures var joined := StreamerSide.OnStreamerJoin(Initial, p, StreamData(Some(id), body), "").state;
            var watched := StreamerSide.OnViewerJoin(joined, p, id).state;
      && Get(watched.streams, id).Some?
      && Get(watched.streams, id).value.streamerId == p
      && p in Get(watched.streams, id).value.viewers
  {
  }

  /** The registration, then a viewer-side join. */
  lemma LifecycleOpening(p: SocketId, c1: SocketId, id: StreamId)
    requires id != ""
    ensures var s := Stream(p, StreamData(Some(id), "cam"), {});
            var b1 := StreamerSide.OnStreamerJoin(Initial, p, StreamData(Some(id), "cam"), "fresh");
            var b2 := ViewerSide.OnJoin(b1.state, c1, id);
      && b1.out == [JoinRoom(StreamerSide, p, id), Emit(ToSocket(StreamerSide, p), StreamerReadyEvent, StreamRef(id))]
      && b2.state == Broker([Entry(id, s)], [Entry(id, AddViewer(s, c1))])
      && b2.out == [JoinRoom(ViewerSide, c1, id), Emit(ToSocket(ViewerSide, c1), ViewerReadyEvent, StreamRef(id))]
  {
    var s := Stream(p, StreamData(Some(id), "cam"), {});
    var b1 := StreamerSide.OnStreamerJoin(Initial, p, StreamData(Some(id), "cam"), "fresh");
    assert b1.state.streams == [Entry(id, s)];
    assert b1.state.bridge == [Entry(id, s)];
    assert IndexOf(b1.state.bridge, id) == 0;
  }

  /** The relayed answer, the streamer's disconnect, a late join. */
  lemma LifecycleClosing(p: SocketId, c1: SocketId, c2: SocketId, forged: SocketId, id: StreamId)
    ensures var s := Stream(p, StreamData(Some(id), "cam"), {});
            var b2 := Broker([Entry(id, s)], [Entry(id, AddViewer(s, c1))]);
            var b3 := ViewerSide.OnRelay(b2, c1, RelayAnswer, SignalData(p, id, "sdp", Some(forged)));
            var b4 := StreamerSide.OnDisconnect(b3.state, p);
            var b5 := ViewerSide.OnJoin(b4.state, c2, id);
      && b3.state == b2
      && b3.out == [Emit(ToRoom(StreamerSide, p, None), ViewerAnswerEvent, Signal("sdp", Some(c1), Some(p)))]
      && b4.state == Initial
      && b4.out == [Emit(ToRoom(StreamerSide, id, None), StreamEndedEvent, StreamRef(id)),
                    Emit(ToRoom(ViewerSide, id, None), StreamEndedEvent, StreamRef(id))]
      && b5.state == Initial
      && b5.out == [Emit(ToSocket(ViewerSide, c2), StreamNotFoundEvent, StreamRef(id))]
  {
    var s := Stream(p, StreamData(Some(id), "cam"), {});
    var b2 := Broker([Entry(id, s)], [Entry(id, AddViewer(s, c1))]);
    assert IndexOf(b2.bridge, id) == 0;
    assert StreamerSide.OwnedIndex(b2.streams, p) == 0;
  }

  /** A streamer `p` registers stream `id` with the streamer-facing instance; viewer `c1` joins it
      through the viewer-facing instance and sends an answer there claiming to be `forged`, which
      reaches the streamer's socket stamped with `c1`; the streamer disconnects, which ends the
      stream on both instances and empties both maps; viewer `c2` asking for it is then told it does
      not exist. */
  lemma RelayedSessionLifecycle(p: SocketId, c1: SocketId, c2: SocketId, forged: SocketId, id: StreamId)
    requires id != ""
    ensures var b1 := StreamerSide.OnStreamerJoin(Initial, p, StreamData(Some(id), "cam"), "fresh");
            var b2 := ViewerSide.OnJoin(b1.state, c1, id);
            var b3 := ViewerSide.OnRelay(b2.state, c1, RelayAnswer, SignalData(p, id, "sdp", Some(forged)));
            var b4 := StreamerSide.OnDisconnect(b3.state, p);
            var b5 := ViewerSide.OnJoin(b4.state, c2, id);
      && b5.state == Initial
      && b1.out + b2.out + b3.out + b4.out + b5.out == [
           JoinRoom(StreamerSide, p, id),
           Emit(ToSocket(StreamerSide, p), StreamerReadyEvent, StreamRef(id)),
           JoinRoom(ViewerSide, c1, id),
           Emit(ToSocket(ViewerSide, c1), ViewerReadyEvent, StreamRef(id)),
           Emit(ToRoom(StreamerSide, p, None), ViewerAnswerEvent, Signal("sdp", Some(c1), Some(p))),
           Emit(ToRoom(StreamerSide, id, None), StreamEndedEvent, StreamRef(id)),
           Emit(ToRoom(ViewerSide, id, None), StreamEndedEvent, StreamRef(id)),
           Emit(ToSocket(ViewerSide, c2), StreamNotFoundEvent, StreamRef(id))]
  {
    LifecycleOpening(p, c1, id);
    LifecycleClosing(p, c1, c2, forged, id);
  }
}
