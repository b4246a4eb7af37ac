/** The two instances together: the mirror `streamBridge.activeStreams` is written by the
    streamer-side handlers in lockstep with `activeStreams`, and only its viewer sets are written by
    the viewer side. This module states that lockstep as an invariant and proves every handler keeps it. */
module Bridge {
  import opened Wrappers
  import opened OrderedMap
  import opened Protocol
  import StreamerSide
  import ViewerSide

  /** The two maps list the same stream ids in the same iteration order, with the same streamer and
      stream data for each; only the viewer sets may differ. */
  ghost predicate Coherent(b: Broker) {
    && Valid(b.streams)
    && |b.streams| == |b.bridge|
    && forall j :: 0 <= j < |b.streams| ==> SameStream(b.bridge[j], b.streams[j])
  }

  /** Two entries for the same stream id, streamer and stream data; viewers may differ. */
  ghost predicate SameStream(e: Entry<StreamId, Stream>, f: Entry<StreamId, Stream>) {
    && e.key == f.key
    && e.value.streamerId == f.value.streamerId
    && e.value.streamData == f.value.streamData
  }

  /** One event arriving at one of the two instances from one socket. */
  datatype Arrival =
    | AtStreamer(caller: SocketId, sreq: StreamerRequest)
    | AtViewer(caller: SocketId, vreq: ViewerRequest)

  /** Run the handler the arrival triggers. */
  function Apply(b: Broker, a: Arrival): Step {
    match a
    case AtStreamer(caller, req) => StreamerSide.Handle(b, caller, req)
    case AtViewer(caller, req) => ViewerSide.Handle(b, caller, req)
  }

  /** Handle a sequence of arrivals one after another, collecting every output in order. */
  function Run(b: Broker, trace: seq<Arrival>): Step
    decreases |trace|
  {
    if |trace| == 0 then Step(b, [])
    else
      var first := Apply(b, trace[0]);
      var rest := Run(first.state, trace[1..]);
      Step(rest.state, first.out + rest.out)
  }

  /** In a coherent broker a stream id is registered on one side exactly when it is mirrored on the
      other, at the same position, with the same streamer and stream data. */
  lemma CoherentAgrees(b: Broker, id: StreamId)
    requires Coherent(b)
    ensures Valid(b.bridge)
    ensures IndexOf(b.bridge, id) == IndexOf(b.streams, id)
    ensures Has(b.streams, id) <==> Has(b.bridge, id)
    ensures Has(b.streams, id) ==>
              && Get(b.bridge, id).value.streamerId == Get(b.streams, id).value.streamerId
              && Get(b.bridge, id).value.streamData == Get(b.streams, id).value.streamData
  {
    SameKeysSameIndex(b.streams, b.bridge, id);
  }

  /** Both maps start empty, which is coherent. */
  lemma InitialCoherent()
    ensures Coherent(Initial)
  {
  }

  lemma StreamerJoinKeepsCoherent(b: Broker, caller: SocketId, data: StreamData, freshId: StreamId)
    requires Coherent(b)
    ensures Coherent(StreamerSide.OnStreamerJoin(b, caller, data, freshId).state)
  {
    var id := StreamerSide.EffectiveId(data, freshId);
    CoherentAgrees(b, id);
  }

  lemma ViewerJoinKeepsCoherent(b: Broker, caller: SocketId, id: StreamId)
    requires Coherent(b)
    ensures Coherent(StreamerSide.OnViewerJoin(b, caller, id).state)
  {
  }

  /** The streams left by the disconnect loop, position by position. */
  lemma KeptPositions(es: Registry, caller: SocketId, k: nat)
    requires k < |es|
    ensures var kept := StripAll(es[..k], caller) + es[k + 1..];
      && |kept| == |es| - 1
      && (forall j :: 0 <= j < k ==> kept[j] == Strip(es[j], caller))
      && (forall j :: k < j < |es| ==> kept[j - 1] == es[j])
  {
  }

  /** Dropping position `k` from two lockstep maps keeps them in lockstep. */
  lemma DropPositionKeepsCoherent(b: Broker, r: Broker, k: nat)
    requires Coherent(b) && k < |b.streams|
    requires |r.streams| == |b.streams| - 1 && |r.bridge| == |b.bridge| - 1
    requires forall j :: 0 <= j < k ==> SameStream(r.streams[j], b.streams[j])
    requires forall j :: k < j < |b.streams| ==> r.streams[j - 1] == b.streams[j]
    requires forall j :: 0 <= j < k ==> r.bridge[j] == b.bridge[j]
    requires forall j :: k < j < |b.streams| ==> r.bridge[j - 1] == b.bridge[j]
    ensures Coherent(r)
  {
    forall i, j | 0 <= i < j < |r.streams|
      ensures r.streams[i].key != r.streams[j].key
    {
      var i' := if i < k then i else i + 1;
      var j' := if j < k then j else j + 1;
      assert r.streams[i].key == b.streams[i'].key;
      assert r.streams[j].key == b.streams[j'].key;
    }
    forall j | 0 <= j < |r.streams|
      ensures SameStream(r.bridge[j], r.streams[j])
    {
      if j >= k {
        assert r.streams[j] == b.streams[j + 1] && r.bridge[j] == b.bridge[j + 1];
      }
    }
  }

  lemma StreamerDisconnectKeepsCoherent(b: Broker, caller: SocketId)
    requires Coherent(b)
    ensures Coherent(StreamerSide.OnDisconnect(b, caller).state)
  {
    var r := StreamerSide.OnDisconnect(b, caller).state;
    var k := StreamerSide.OwnedIndex(b.streams, caller);
    if k < |b.streams| {
      var id := b.streams[k].key;
      assert r.streams == StripAll(b.streams[..k], caller) + b.streams[k + 1..];
      assert r.bridge == Delete(b.bridge, id);
      KeptPositions(b.streams, caller, k);
      CoherentAgrees(b, id);
      GetAtPosition(b.streams, k);
      assert IndexOf(b.bridge, id) == k;
      DropPositionKeepsCoherent(b, r, k);
    } else {
      assert b.streams[..k] == b.streams;
      assert r.streams == StripAll(b.streams, caller);
      assert r.bridge == b.bridge;
    }
  }

  lemma RelayJoinKeepsCoherent(b: Broker, caller: SocketId, id: StreamId)
    requires Coherent(b)
    ensures Coherent(ViewerSide.OnJoin(b, caller, id).state)
  {
  }

  lemma ViewerDisconnectKeepsCoherent(b: Broker, caller: SocketId)
    requires Coherent(b)
    ensures Coherent(ViewerSide.OnDisconnect(b, caller).state)
  {
  }

  /** Every handler of either instance keeps the mirror in lockstep with the registry. */
  lemma ApplyKeepsCoherent(b: Broker, a: Arrival)
    requires Coherent(b)
    ensures Coherent(Apply(b, a).state)
  {
    match a {
      case AtStreamer(caller, req) =>
        match req {
          case StreamerJoin(data, freshId) => StreamerJoinKeepsCoherent(b, caller, data, freshId);
          case ViewerJoin(id) => ViewerJoinKeepsCoherent(b, caller, id);
          case SignalIn(_, _) =>
          case StreamDataIn(_) =>
          case Disconnect => StreamerDisconnectKeepsCoherent(b, caller);
        }
      case AtViewer(caller, req) =>
        match req {
          case RelayJoin(id) => RelayJoinKeepsCoherent(b, caller, id);
          case RelayIn(_, _) =>
          case RelayDisconnect => ViewerDisconnectKeepsCoherent(b, caller);
        }
    }
  }

  /** From process start, every sequence of events leaves the two maps coherent. */
  lemma {:induction false} RunKeepsCoherent(b: Broker, trace: seq<Arrival>)
    requires Coherent(b)
    ensures Coherent(Run(b, trace).state)
    decreases |trace|
  {
    if |trace| > 0 {
      ApplyKeepsCoherent(b, trace[0]);
      RunKeepsCoherent(Apply(b, trace[0]).state, trace[1..]);
    }
  }

  /** Dropping the entry at position `k` of a valid map removes exactly its key from the key set. */
  lemma DropPositionKeySet(m: Registry, r: Registry, k: nat)
    requires Valid(m) && k < |m| && |r| == |m| - 1
    requires forall j :: 0 <= j < k ==> r[j].key == m[j].key
    requires forall j :: k < j < |m| ==> r[j - 1].key == m[j].key
    ensures KeySet(r) == KeySet(m) - {m[k].key}
  {
    forall x | x in KeySet(m) - {m[k].key}
      ensures x in KeySet(r)
    {
      var j :| 0 <= j < |m| && m[j].key == x;
      if j < k { assert r[j].key == x; } else { assert r[j - 1].key == x; }
    }
    forall x | x in KeySet(r)
      ensures x in KeySet(m) - {m[k].key}
    {
      var j :| 0 <= j < |r| && r[j].key == x;
      if j < k { assert m[j].key == x; } else { assert m[j + 1].key == x; }
    }
  }

  /** Streamer-side disconnect of a socket that streams nothing ends nothing: every stream id stays,
      the mirror is untouched, and the only outputs are `viewer-left` notices. */
  lemma DisconnectOfNonStreamer(b: Broker, caller: SocketId)
    requires Coherent(b)
    requires forall j :: 0 <= j < |b.streams| ==> b.streams[j].value.streamerId != caller
    ensures var r := StreamerSide.OnDisconnect(b, caller);
      && KeySet(r.state.streams) == KeySet(b.streams)
      && r.state.bridge == b.bridge
      && r.out == StreamerSide.LeftNotices(b.streams, caller)
  {
    var r := StreamerSide.OnDisconnect(b, caller);
    var k := StreamerSide.OwnedIndex(b.streams, caller);
    assert k == |b.streams|;
    assert b.streams[..k] == b.streams;
    SameKeysSameKeySet(b.streams, r.state.streams);
  }

  /** The disconnect of the streamer of the stream at position `k`, the first it streams, removes
      that stream id, and only it, from both maps. */
  lemma DisconnectDropsFirstOwned(b: Broker, caller: SocketId, k: nat)
    requires Coherent(b)
    requires k < |b.streams| && b.streams[k].value.streamerId == caller
    requires forall j :: 0 <= j < k ==> b.streams[j].value.streamerId != caller
    ensures var r := StreamerSide.OnDisconnect(b, caller).state;
      && KeySet(r.streams) == KeySet(b.streams) - {b.streams[k].key}
      && KeySet(r.bridge) == KeySet(b.bridge) - {b.streams[k].key}
  {
    var r := StreamerSide.OnDisconnect(b, caller).state;
    assert StreamerSide.OwnedIndex(b.streams, caller) == k;
    var id := b.streams[k].key;
    assert r.streams == StripAll(b.streams[..k], caller) + b.streams[k + 1..];
    assert r.bridge == Delete(b.bridge, id);
    KeptKeySet(b.streams, caller, k);
    CoherentAgrees(b, id);
    DeleteKeySet(b.bridge, id);
  }

  /** The streams the loop leaves behind have every key but the one it stopped at. */
  lemma KeptKeySet(es: Registry, caller: SocketId, k: nat)
    requires Valid(es) && k < |es|
    ensures KeySet(StripAll(es[..k], caller) + es[k + 1..]) == KeySet(es) - {es[k].key}
  {
    KeptPositions(es, caller, k);
    DropPositionKeySet(es, StripAll(es[..k], caller) + es[k + 1..], k);
  }

  /** Streamer-side disconnect in a coherent broker ends at most one stream: the first one, in
      insertion order, that the caller streams. It disappears from both maps and both rooms hear
      `stream-ended`, after the `viewer-left` notices for the streams visited before it; every other
      stream id stays in both maps, including later streams of the same caller. */
  lemma DisconnectEndsFirstOwnedStream(b: Broker, caller: SocketId, k: nat)
    requires Coherent(b)
    requires k < |b.streams| && b.streams[k].value.streamerId == caller
    requires forall j :: 0 <= j < k ==> b.streams[j].value.streamerId != caller
    ensures var r := StreamerSide.OnDisconnect(b, caller);
            var id := b.streams[k].key;
      && KeySet(r.state.streams) == KeySet(b.streams) - {id}
      && KeySet(r.state.bridge) == KeySet(b.bridge) - {id}
      && r.out == StreamerSide.LeftNotices(b.streams[..k], caller)
                  + [StreamerSide.EndedNotice(StreamerSide, id), StreamerSide.EndedNotice(ViewerSide, id)]
  {
    DisconnectDropsFirstOwned(b, caller, k);
    assert StreamerSide.OwnedIndex(b.streams, caller) == k;
    CoherentAgrees(b, b.streams[k].key);
    GetAtPosition(b.streams, k);
  }

  /** In a coherent broker `stream-data` reaches the viewer-facing room exactly when the stream is
      registered and its mirror entry has at least one viewer. */
  lemma StreamDataCrossesBridge(b: Broker, caller: SocketId, p: Packet)
    requires Coherent(b)
    ensures var r := StreamerSide.OnStreamData(b, caller, p);
      (exists o <- r.out :: o.Emit? && o.to.inst == ViewerSide)
        <==> Has(b.streams, p.streamId) && Get(b.bridge, p.streamId).value.viewers != {}
  {
    CoherentAgrees(b, p.streamId);
    var r := StreamerSide.OnStreamData(b, caller, p);
    if Has(b.streams, p.streamId) && Get(b.bridge, p.streamId).value.viewers != {} {
      assert r.out[1].Emit? && r.out[1].to.inst == ViewerSide;
    } else {
      assert forall o <- r.out :: o.Emit? && o.to.inst == StreamerSide;
    }
  }
}
