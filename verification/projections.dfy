/** The read-only HTTP projections `/api/streams` and `/api/stream/:id`. The streamer-facing app
    serves them from `activeStreams`, the viewer-facing app from the mirror; the code is the same. */
module Projections {
  import opened Wrappers
  import opened OrderedMap
  import opened Protocol
  import Bridge

  /** The JSON object describing one stream: `{ id, streamerId, viewerCount, streamData }`. */
  datatype Summary = Summary(id: StreamId, streamerId: SocketId, viewerCount: nat, streamData: StreamData)

  /** The 404 answer `{ error: 'Stream not found' }`. */
  datatype NotFound = StreamNotFound

  function Summarize(id: StreamId, s: Stream): Summary {
    Summary(id, s.streamerId, |s.viewers|, s.streamData)
  }

  /** `GET /api/streams`: every stream, in the map's iteration order. */
  function ListStreams(reg: Registry): (r: seq<Summary>)
    ensures |r| == |reg|
    ensures forall j :: 0 <= j < |reg| ==> r[j].id == reg[j].key && r[j].viewerCount == |reg[j].value.viewers|
  {
    if |reg| == 0 then [] else [Summarize(reg[0].key, reg[0].value)] + ListStreams(reg[1..])
  }

  /** `GET /api/stream/:id`: the stream's summary, or 404 when the id is not in the map. */
  function LookupStream(reg: Registry, id: StreamId): (r: Result<Summary, NotFound>)
    ensures r.Success? <==> Has(reg, id)
    ensures r.Success? ==> r.value.id == id && r.value.viewerCount == |Get(reg, id).value.viewers|
  {
    match Get(reg, id)
    case Some(s) => Success(Summarize(id, s))
    case None => Failure(StreamNotFound)
  }

  /** The map each app reads: `activeStreams` for the streamer-facing one, the mirror for the other. */
  function RegistryOf(b: Broker, inst: Instance): Registry {
    match inst
    case StreamerSide => b.streams
    case ViewerSide => b.bridge
  }

  /** Every list element is the summary of the entry at its position. */
  lemma {:induction false} ListStreamsAt(reg: Registry, j: nat)
    requires j < |reg|
    ensures ListStreams(reg)[j] == Summarize(reg[j].key, reg[j].value)
  {
    if j > 0 {
      ListStreamsAt(reg[1..], j - 1);
    }
  }

  /** Looking one id up answers exactly the element of the list with that id, and 404 when the list
      has none. */
  lemma LookupAgreesWithList(reg: Registry, id: StreamId, s: Summary)
    requires Valid(reg)
    ensures LookupStream(reg, id) == Success(s) <==> s in ListStreams(reg) && s.id == id
  {
    var l := ListStreams(reg);
    if LookupStream(reg, id) == Success(s) {
      var i := IndexOf(reg, id);
      ListStreamsAt(reg, i);
      assert l[i] == s;
    }
    if s in l && s.id == id {
      var j :| 0 <= j < |l| && l[j] == s;
      ListStreamsAt(reg, j);
      GetAtPosition(reg, j);
    }
  }

  /** In a coherent broker the two apps list the same streams in the same order with the same
      streamer and stream data; only the viewer counts may differ, since each instance counts its
      own viewers. */
  lemma BothAppsListSameStreams(b: Broker)
    requires Bridge.Coherent(b)
    ensures var a := ListStreams(RegistryOf(b, StreamerSide));
            var v := ListStreams(RegistryOf(b, ViewerSide));
      && |a| == |v|
      && forall j :: 0 <= j < |a| ==>
           a[j].id == v[j].id && a[j].streamerId == v[j].streamerId && a[j].streamData == v[j].streamData
  {
    forall j | 0 <= j < |b.streams|
      ensures ListStreams(b.streams)[j] == Summarize(b.streams[j].key, b.streams[j].value)
      ensures ListStreams(b.bridge)[j] == Summarize(b.bridge[j].key, b.bridge[j].value)
    {
      ListStreamsAt(b.streams, j);
      ListStreamsAt(b.bridge, j);
    }
  }
}
