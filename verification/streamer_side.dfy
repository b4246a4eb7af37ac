/** The socket handlers of the streamer-facing instance `io` (server.js lines 68-195). */
module StreamerSide {
  import opened Wrappers
  import opened OrderedMap
  import opened Protocol

  /** `streamData.streamId || uuidv4()`: the requested id when it is truthy, otherwise the fresh one. */
  function EffectiveId(data: StreamData, freshId: StreamId): (id: StreamId)
    ensures TruthyId(data.streamId) ==> id == data.streamId.value
    ensures !TruthyId(data.streamId) ==> id == freshId
    ensures id != "" || freshId == ""
  {
    if TruthyId(data.streamId) then data.streamId.value else freshId
  }

  /** `streamer-join`: register (or silently overwrite) the stream under the effective id in
      both maps with the caller as streamer and no viewers; only the caller hears back. */
  function OnStreamerJoin(b: Broker, caller: SocketId, data: StreamData, freshId: StreamId): (r: Step)
    ensures var id := EffectiveId(data, freshId);
      && Get(r.state.streams, id) == Some(Fresh(caller, data))
      && Get(r.state.bridge, id) == Some(Fresh(caller, data))
      && (forall x :: x != id ==> Get(r.state.streams, x) == Get(b.streams, x))
      && (forall x :: x != id ==> Get(r.state.bridge, x) == Get(b.bridge, x))
      && r.out == [JoinRoom(StreamerSide, caller, id),
                   Emit(ToSocket(StreamerSide, caller), StreamerReadyEvent, StreamRef(id))]
    ensures forall o <- r.out :: o.Emit? ==> o.to == ToSocket(StreamerSide, caller)
  {
    var id := EffectiveId(data, freshId);
    Step(Broker(Set(b.streams, id, Fresh(caller, data)), Set(b.bridge, id, Fresh(caller, data))),
         [JoinRoom(StreamerSide, caller, id),
          Emit(ToSocket(StreamerSide, caller), StreamerReadyEvent, StreamRef(id))])
  }

  /** `viewer-join` on the streamer-facing instance: add the caller to the stream's viewers and
      tell the room, or answer `stream-not-found`. The mirror is never touched. */
  function OnViewerJoin(b: Broker, caller: SocketId, id: StreamId): (r: Step)
    ensures r.state.bridge == b.bridge
    ensures Has(b.streams, id) ==>
              && Get(r.state.streams, id) == Some(AddViewer(Get(b.streams, id).value, caller))
              && (forall x :: x != id ==> Get(r.state.streams, x) == Get(b.streams, x))
              && Keys(r.state.streams) == Keys(b.streams)
              && r.out == [JoinRoom(StreamerSide, caller, id),
                           Emit(ToRoom(StreamerSide, id, Some(caller)), ViewerJoinedEvent, ViewerRef(caller)),
                           Emit(ToSocket(StreamerSide, caller), ViewerReadyEvent, StreamRef(id))]
    ensures !Has(b.streams, id) ==>
              && r.state == b
              && r.out == [Emit(ToSocket(StreamerSide, caller), StreamNotFoundEvent, StreamRef(id))]
  {
    match Get(b.streams, id)
    case Some(s) =>
      Step(b.(streams := Set(b.streams, id, AddViewer(s, caller))),
           [JoinRoom(StreamerSide, caller, id),
            Emit(ToRoom(StreamerSide, id, Some(caller)), ViewerJoinedEvent, ViewerRef(caller)),
            Emit(ToSocket(StreamerSide, caller), ViewerReadyEvent, StreamRef(id))])
    case None =>
      Step(b, [Emit(ToSocket(StreamerSide, caller), StreamNotFoundEvent, StreamRef(id))])
  }

  /** The event name each signalling kind is re-emitted under: the two viewer-server variants
      reach the streamer as a plain `answer` / `ice-candidate`. */
  function OutgoingEvent(kind: SignalKind): string {
    match kind
    case Offer => OfferEvent
    case Answer | ViewerAnswer => AnswerEvent
    case IceCandidate | ViewerIceCandidate => IceCandidateEvent
  }

  /** The first three kinds stamp the caller as sender; the viewer-server variants pass on
      whatever sender the caller wrote into the message. */
  predicate StampsSender(kind: SignalKind) {
    kind == Offer || kind == Answer || kind == IceCandidate
  }

  /** `offer`, `answer`, `viewer-answer`, `ice-candidate`, `viewer-ice-candidate`: one emit to the
      room named by `target` (the target socket), leaving the state alone. */
  function OnSignal(b: Broker, caller: SocketId, kind: SignalKind, sig: SignalData): (r: Step)
    ensures r.state == b
    ensures |r.out| == 1 && r.out[0].Emit?
    ensures r.out[0].to == ToRoom(StreamerSide, sig.target, Some(caller))
    ensures r.out[0].msg.Signal? && r.out[0].msg.body == sig.body && r.out[0].msg.target == None
    ensures StampsSender(kind) ==> r.out[0].msg.sender == Some(caller)
    ensures !StampsSender(kind) ==> r.out[0].msg.sender == sig.sender
    ensures r.out[0].event == (if kind == Offer then OfferEvent
                               else if kind == Answer || kind == ViewerAnswer then AnswerEvent
                               else IceCandidateEvent)
  {
    var sender := if StampsSender(kind) then Some(caller) else sig.sender;
    Step(b, [Emit(ToRoom(StreamerSide, sig.target, Some(caller)), OutgoingEvent(kind), Signal(sig.body, sender, None))])
  }

  /** `stream-data`: when the stream is known, broadcast to its room on this instance, and also to
      its room on the viewer instance when the mirror lists at least one viewer. */
  function OnStreamData(b: Broker, caller: SocketId, p: Packet): (r: Step)
    ensures r.state == b
    ensures !Has(b.streams, p.streamId) ==> r.out == []
    ensures Has(b.streams, p.streamId) ==>
              && 1 <= |r.out| <= 2
              && r.out[0] == Emit(ToRoom(StreamerSide, p.streamId, Some(caller)), StreamDataEvent, Data(p))
              && (|r.out| == 2 <==> Has(b.bridge, p.streamId) && Get(b.bridge, p.streamId).value.viewers != {})
              && (|r.out| == 2 ==> r.out[1] == Emit(ToRoom(ViewerSide, p.streamId, None), StreamDataEvent, Data(p)))
  {
    if !Has(b.streams, p.streamId) then Step(b, [])
    else
      var local := [Emit(ToRoom(StreamerSide, p.streamId, Some(caller)), StreamDataEvent, Data(p))];
      match Get(b.bridge, p.streamId)
      case Some(m) =>
        if |m.viewers| > 0 then Step(b, local + [Emit(ToRoom(ViewerSide, p.streamId, None), StreamDataEvent, Data(p))])
        else Step(b, local)
      case None => Step(b, local)
  }

  /** Position of the first stream (in iteration order) whose streamer is `caller`, or `|es|`. */
  function OwnedIndex(es: Registry, caller: SocketId): (k: nat)
    ensures k <= |es|
    ensures k < |es| ==> es[k].value.streamerId == caller
    ensures forall j :: 0 <= j < k ==> es[j].value.streamerId != caller
  {
    if |es| == 0 then 0
    else if es[0].value.streamerId == caller then 0
    else 1 + OwnedIndex(es[1..], caller)
  }

  /** The `viewer-left` notice for one visited stream the caller was watching. */
  function LeftNotice(e: Entry<StreamId, Stream>, caller: SocketId): seq<Output> {
    if caller in e.value.viewers then [LeftNoticeFor(e.key, caller)] else []
  }

  /** The notices for a run of visited streams, in order. */
  function LeftNotices(es: Registry, caller: SocketId): seq<Output> {
    if |es| == 0 then [] else LeftNotice(es[0], caller) + LeftNotices(es[1..], caller)
  }

  /** The `viewer-left` notice to the room of `id`. */
  function LeftNoticeFor(id: StreamId, caller: SocketId): Output {
    Emit(ToRoom(StreamerSide, id, Some(caller)), ViewerLeftEvent, ViewerRef(caller))
  }

  /** How many of the streams `es` list the caller among their viewers. */
  function Watched(es: Registry, caller: SocketId): nat {
    if |es| == 0 then 0 else (if caller in es[0].value.viewers then 1 else 0) + Watched(es[1..], caller)
  }

  /** The notices for a run of streams go exactly to the rooms of the streams the caller was
      watching, and there are exactly as many notices as such streams, so one per stream. */
  lemma {:induction false} LeftNoticesExactly(es: Registry, caller: SocketId)
    ensures forall o <- LeftNotices(es, caller) :: exists j :: 0 <= j < |es| && caller in es[j].value.viewers && o == LeftNoticeFor(es[j].key, caller)
    ensures forall j :: 0 <= j < |es| && caller in es[j].value.viewers ==> LeftNoticeFor(es[j].key, caller) in LeftNotices(es, caller)
    ensures |LeftNotices(es, caller)| == Watched(es, caller) <= |es|
  {
    if |es| > 0 {
      LeftNoticesExactly(es[1..], caller);
      var n := LeftNotices(es, caller);
      assert n == LeftNotice(es[0], caller) + LeftNotices(es[1..], caller);
      forall o | o in n
        ensures exists j :: 0 <= j < |es| && caller in es[j].value.viewers && o == LeftNoticeFor(es[j].key, caller)
      {
        if o in LeftNotices(es[1..], caller) {
          var j :| 0 <= j < |es[1..]| && caller in es[1..][j].value.viewers && o == LeftNoticeFor(es[1..][j].key, caller);
          assert es[1..][j] == es[j + 1];
        } else {
          assert o == LeftNoticeFor(es[0].key, caller);
        }
      }
      forall j | 0 <= j < |es| && caller in es[j].value.viewers
        ensures LeftNoticeFor(es[j].key, caller) in n
      {
        if j > 0 { assert es[1..][j - 1] == es[j]; }
      }
    }
  }

  /** The notices follow the iteration order: those for a run of streams are the notices for its
      first part followed by those for the rest. */
  lemma {:induction false} LeftNoticesInOrder(xs: Registry, ys: Registry, caller: SocketId)
    ensures LeftNotices(xs + ys, caller) == LeftNotices(xs, caller) + LeftNotices(ys, caller)
    decreases |xs|
  {
    if |xs| > 0 {
      assert (xs + ys)[0] == xs[0];
      assert (xs + ys)[1..] == xs[1..] + ys;
      LeftNoticesInOrder(xs[1..], ys, caller);
    } else {
      assert xs + ys == ys;
    }
  }

  /** The notice sent to the room of a stream that ends. */
  function EndedNotice(inst: Instance, id: StreamId): Output {
    Emit(ToRoom(inst, id, None), StreamEndedEvent, StreamRef(id))
  }

  /** The outcome of the disconnect loop over `activeStreams`. */
  datatype Walked = Walked(kept: Registry, ended: Option<StreamId>, out: seq<Output>)

  /** The loop at the head of the streamer-side `disconnect` handler: visit the streams in
      insertion order; at the first one the caller streams, announce its end, delete it and stop;
      before that, drop the caller from each visited stream's viewers, announcing it where it was one. */
  function EndOwnedStream(es: Registry, caller: SocketId): (w: Walked)
    ensures w.ended == (if OwnedIndex(es, caller) < |es| then Some(es[OwnedIndex(es, caller)].key) else None)
    ensures |w.kept| == (if w.ended.Some? then |es| - 1 else |es|)
  {
    if |es| == 0 then Walked([], None, [])
    else if es[0].value.streamerId == caller then
      Walked(es[1..], Some(es[0].key), [EndedNotice(StreamerSide, es[0].key)])
    else
      var rest := EndOwnedStream(es[1..], caller);
      Walked([Strip(es[0], caller)] + rest.kept, rest.ended, LeftNotice(es[0], caller) + rest.out)
  }

  /** What the loop leaves, in closed form: the visited streams without the caller among their
      viewers, then the streams it never reached; and what it says: the `viewer-left` notices for the
      visited streams, then the end of the stream it stopped at. */
  lemma {:induction false} EndOwnedStreamClosedForm(es: Registry, caller: SocketId)
    ensures var k := OwnedIndex(es, caller);
            var w := EndOwnedStream(es, caller);
      && w.kept == StripAll(es[..k], caller) + (if k < |es| then es[k + 1..] else [])
      && w.out == LeftNotices(es[..k], caller) + (if k < |es| then [EndedNotice(StreamerSide, es[k].key)] else [])
  {
    if |es| == 0 {
    } else if es[0].value.streamerId == caller {
      assert es[..0] == [];
    } else {
      EndOwnedStreamClosedForm(es[1..], caller);
      var k' := OwnedIndex(es[1..], caller);
      assert OwnedIndex(es, caller) == k' + 1;
      var pre := es[..k' + 1];
      assert pre[0] == es[0] && pre[1..] == es[1..][..k'];
      assert StripAll(pre, caller) == [Strip(es[0], caller)] + StripAll(es[1..][..k'], caller);
      assert LeftNotices(pre, caller) == LeftNotice(es[0], caller) + LeftNotices(es[1..][..k'], caller);
      if k' < |es| - 1 {
        assert es[1..][k' + 1..] == es[k' + 2..];
        assert es[1..][k'] == es[k' + 1];
      }
    }
  }

  /** `disconnect` on the streamer-facing instance: run the loop, and when it ended a stream that
      the mirror also holds, tell the viewer-side room and delete the mirror entry. */
  function OnDisconnect(b: Broker, caller: SocketId): (r: Step)
    ensures var k := OwnedIndex(b.streams, caller);
      && (k == |b.streams| ==> r.state.bridge == b.bridge)
      && (k < |b.streams| ==> r.state.bridge == Delete(b.bridge, b.streams[k].key))
      && r.state.streams == StripAll(b.streams[..k], caller) + (if k < |b.streams| then b.streams[k + 1..] else [])
      && r.out == LeftNotices(b.streams[..k], caller)
                  + (if k < |b.streams| then [EndedNotice(StreamerSide, b.streams[k].key)] else [])
                  + (if k < |b.streams| && Has(b.bridge, b.streams[k].key)
                     then [EndedNotice(ViewerSide, b.streams[k].key)] else [])
  {
    var w := EndOwnedStream(b.streams, caller);
    EndOwnedStreamClosedForm(b.streams, caller);
    match w.ended
    case None => Step(b.(streams := w.kept), w.out)
    case Some(id) =>
      if Has(b.bridge, id)
      then Step(Broker(w.kept, Delete(b.bridge, id)), w.out + [EndedNotice(ViewerSide, id)])
      else Step(Broker(w.kept, b.bridge), w.out)
  }

  /** Dispatch one event of a streamer-side socket to its handler. Signalling and stream data
      change no state; a viewer join changes no stream id and leaves the mirror alone; a
      registration stores the caller's stream; a disconnect drops at most one entry. */
  function Handle(b: Broker, caller: SocketId, req: StreamerRequest): (r: Step)
    ensures req.SignalIn? || req.StreamDataIn? ==> r.state == b
    ensures req.ViewerJoin? ==> r.state.bridge == b.bridge && Keys(r.state.streams) == Keys(b.streams)
    ensures req.StreamerJoin? ==>
              Get(r.state.streams, EffectiveId(req.data, req.freshId)) == Some(Fresh(caller, req.data))
    ensures req.Disconnect? ==> |b.streams| - 1 <= |r.state.streams| <= |b.streams|
  {
    match req
    case StreamerJoin(data, freshId) => OnStreamerJoin(b, caller, data, freshId)
    case ViewerJoin(id) => OnViewerJoin(b, caller, id)
    case SignalIn(kind, sig) => OnSignal(b, caller, kind, sig)
    case StreamDataIn(p) => OnStreamData(b, caller, p)
    case Disconnect => OnDisconnect(b, caller)
  }
}
