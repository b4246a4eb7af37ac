# Dual-port WebRTC signalling relay with a GPS buffer, modelled in Dafny

`server.js` runs two Socket.IO instances side by side.

- The streamer-facing instance `io` is where a Raspberry Pi registers its camera stream (`streamer-join`). It exchanges WebRTC signalling (`offer`, `answer`, `ice-candidate` and their `viewer-*` variants) and pushes `stream-data`.
- The viewer-facing instance `viewerIo` lets browsers join a stream (`viewer-join`). It forwards their signalling to the streamer's socket on the streamer-facing instance.

Two insertion-ordered maps hold the streams:

- `activeStreams` belongs to the streamer side.
- `streamBridge.activeStreams` mirrors it for the viewer side.

Each map sends stream ids to `{ streamerId, streamData, viewers }`. Both apps serve read-only projections of their own map at `/api/streams` and `/api/stream/:id`.

A separate pair of HTTP apps keeps a GPS history:

- `POST /gps` validates and stores a fix.
- The store keeps the latest fix and a history of at most 1000 fixes, evicting the oldest.
- `GET /gps/latest` and `GET /gps/history?limit=` read it back.

The model is purely functional.

- A JavaScript `Map` is a sequence of key/value entries (`OrderedMap`). Re-setting a key keeps its position, a new key is appended, and deleting a key removes one position.
- Each socket handler is a function from the broker state, the calling socket and the event payload to a new state and a list of outputs. An output is either an emit or a room join.
- An emit records:
  - the instance it goes through;
  - whether it goes to the caller's own socket or to a room;
  - for a room, whether the caller is excluded (`socket.to(room)`) or not (`io.to(room)`);
  - the event name and the payload.
- `uuidv4()` and `new Date().toISOString()` are parameters. The fresh id is a field of the `streamer-join` request, and the timestamp is an argument of `AddData`.

Modules, one per file:

- `Wrappers`: `Option` and `Result`.
- `OrderedMap`: insertion-ordered maps, with their agreement with Dafny's `map`.
- `Protocol`: the broker state, requests, outputs and event names.
- `StreamerSide`: the handlers of `io`.
- `ViewerSide`: the handlers of `viewerIo`.
- `Bridge`: the two instances together, including the invariant that the mirror stays in step and what disconnect does.
- `Projections`: the HTTP stream listings.
- `GpsStore`: the GPS buffer and its routes.
- `Scenarios`: whole-system consequences, including an end-to-end relayed session.

Four behaviours of the code are easy to miss:

- Registering under an id that is already in use replaces the old stream in both maps. Only the new caller is told, so the old stream's viewers are not told the session ended (`Scenarios.CollisionOverwritesSilently`).
- Nothing keeps a streamer out of its own viewer set (`Scenarios.StreamerMayWatchOwnStream`).
- `viewer-answer` and `viewer-ice-candidate` on the streamer side pass on the `sender` the client wrote into the message instead of the caller's socket id (`StreamerSide.OnSignal`).
- A streamer-side disconnect ends at most one stream: the first the caller streams, in insertion order. Later streams of the same socket stay registered (`Bridge.DisconnectEndsFirstOwnedStream`).

## Model

| member | source | states |
|---|---|---|
| OrderedMap.IndexOf | server.js:23 | the position found holds the key, and no earlier position does; it is the map's length when the key is absent |
| OrderedMap.Set | server.js:74-85 | `Map.set`: the key then reads the new value and every other key reads as before; an existing key keeps its position and the map keeps its length; a new key is appended at the end; distinct keys stay distinct |
| OrderedMap.Delete | server.js:178 | `Map.delete`: an absent key leaves the map as it was; otherwise exactly one entry goes, the earlier entries keep their positions and the later ones move down by one |
| OrderedMap.GetAfterDelete | server.js:178 | after `delete` the key reads as absent, every other key reads as before, and distinct keys stay distinct |
| OrderedMap.SetIsMapUpdate | server.js:74-85 | the insertion-ordered `set` agrees with updating a mathematical map |
| OrderedMap.DeleteIsMapRemoval | server.js:178 | the insertion-ordered `delete` agrees with removing a key from a mathematical map |
| OrderedMap.HasIsMembership | server.js:94-95 | `Map.has` holds exactly when the key is in the map's key set, and exactly when `Map.get` finds a value |
| OrderedMap.GetAtPosition | server.js:95 | in a map with distinct keys, `Map.get` of the key at any position answers that position's value |
| OrderedMap.SameKeysSameIndex | server.js:23-28 | two maps with the same key sequence find every key at the same position |
| StreamerSide.EffectiveId | server.js:73 | the requested `streamData.streamId` when it is truthy, otherwise the fresh id |
| StreamerSide.OnStreamerJoin | server.js:72-90 | both maps then hold the caller as streamer of the effective id, with the posted stream data and no viewers; every other id is unchanged in both maps; the caller joins the room and is the only one told `streamer-ready` |
| StreamerSide.OnViewerJoin | server.js:93-106 | for a registered id: the caller is added to that stream's viewers and nothing else changes; the caller joins the room; the room minus the caller hears `viewer-joined`; the caller hears `viewer-ready`. For an unknown id: the state is unchanged and only the caller hears `stream-not-found`. The mirror is never touched |
| StreamerSide.OnSignal | server.js:109-149 | each signalling event causes exactly one emit, to the room named by `target` minus the caller, and changes no state; `offer`, `answer` and `ice-candidate` stamp the caller as sender; `viewer-answer` and `viewer-ice-candidate` pass on the client-written sender and reach the streamer as `answer` and `ice-candidate` |
| StreamerSide.OnStreamData | server.js:152-167 | state unchanged; nothing is sent for an unknown stream; otherwise the room minus the caller gets the packet, and a second copy goes to the viewer-side room exactly when the mirror lists the stream with at least one viewer |
| StreamerSide.OwnedIndex | server.js:174-175 | the position of the first stream in iteration order whose streamer is the caller: no earlier stream is the caller's |
| StreamerSide.LeftNoticesExactly | server.js:188-192 | the `viewer-left` notices from the disconnect loop go exactly to the rooms of the visited streams the caller was watching, and there are exactly as many notices as such streams |
| StreamerSide.LeftNoticesInOrder | server.js:174-192 | the notices follow iteration order: those for a run of streams are the notices for its first part followed by those for the rest |
| StreamerSide.EndOwnedStream | server.js:174-193 | the loop ends the stream at `OwnedIndex`, or none when the caller streams nothing, and keeps one entry fewer exactly when it ends one |
| StreamerSide.EndOwnedStreamClosedForm | server.js:174-193 | the loop leaves the visited streams without the caller among their viewers, followed by the untouched rest; it says `viewer-left` for the visited streams and then `stream-ended` for the stream it stopped at |
| StreamerSide.OnDisconnect | server.js:170-194 | the full handler: the map as the loop leaves it; the mirror loses the ended stream, or is untouched when none ended; the viewer-side room hears `stream-ended` only when the mirror held that stream |
| StreamerSide.Handle | server.js:68-195 | dispatch of a streamer-side event: signalling and stream data change no state; a viewer join keeps the mirror and the id order; a registration stores the caller's fresh stream under the effective id; a disconnect drops at most one entry |
| ViewerSide.OnJoin | server.js:306-317 | for a mirrored id: the caller is added to the mirror entry's viewers, joins the viewer-side room and hears `viewer-ready`, and the streamer is not told. Otherwise only the caller hears `stream-not-found`. `activeStreams` is never touched |
| ViewerSide.OnRelay | server.js:320-362 | for a mirrored stream, one emit to the streamer's socket room on the streamer-facing instance, stamped with the caller as sender and the streamer as target, under `offer`, `viewer-answer` or `viewer-ice-candidate`; nothing for an unknown stream; state unchanged |
| ViewerSide.OnDisconnect | server.js:365-374 | the caller leaves every mirrored stream's viewer set; the ids, their order and everything else are unchanged; nothing is emitted |
| ViewerSide.Handle | server.js:302-375 | no viewer-side event touches `activeStreams` or adds, removes or reorders a mirrored id |
| Bridge.CoherentAgrees | server.js:23-28 | while the maps are in step, an id is registered exactly when it is mirrored, at the same position, with the same streamer and stream data |
| Bridge.StreamerJoinKeepsCoherent | server.js:72-90 | registering a stream keeps the two maps in step |
| Bridge.ViewerJoinKeepsCoherent | server.js:93-106 | a streamer-side viewer join keeps the two maps in step |
| Bridge.StreamerDisconnectKeepsCoherent | server.js:170-194 | a streamer-side disconnect keeps the two maps in step |
| Bridge.RelayJoinKeepsCoherent | server.js:306-317 | a viewer-side join keeps the two maps in step |
| Bridge.ViewerDisconnectKeepsCoherent | server.js:365-374 | a viewer-side disconnect keeps the two maps in step |
| Bridge.ApplyKeepsCoherent | server.js:68-195 | every handler on either instance keeps the two maps in step |
| Bridge.RunKeepsCoherent | server.js:22-33 | from any state where the maps are in step (for example process start, `Bridge.InitialCoherent`), every sequence of events on either instance leaves them in step |
| Bridge.DisconnectOfNonStreamer | server.js:170-194 | disconnecting a socket that streams nothing removes no stream id, leaves the mirror alone, and only sends `viewer-left` notices |
| Bridge.DisconnectDropsFirstOwned | server.js:174-184 | disconnecting a streamer removes from both maps the id of the first stream it streams, and no other id |
| Bridge.DisconnectEndsFirstOwnedStream | server.js:170-194 | disconnect ends at most one stream, the first the caller streams: its id leaves both maps, every other id stays, and the outputs are the `viewer-left` notices for the earlier streams followed by `stream-ended` to the streamer-side and viewer-side rooms |
| Bridge.StreamDataCrossesBridge | server.js:152-167 | while the maps are in step, `stream-data` reaches the viewer-facing instance exactly when the stream is registered and its mirror entry has a viewer |
| Projections.ListStreams | server.js:198-206 | `GET /api/streams` lists one summary per stream in iteration order, with its id and viewer count |
| Projections.LookupStream | server.js:208-221 | `GET /api/stream/:id` answers a summary exactly when the id is registered (404 otherwise), with that id and the stream's viewer count |
| Projections.LookupAgreesWithList | server.js:198-221 | the single-stream lookup answers a summary exactly when that summary appears in the listing under the same id |
| Projections.BothAppsListSameStreams | server.js:276-299 | while the maps are in step, both apps list the same ids in the same order with the same streamer and stream data; only the viewer counts may differ |
| GpsStore.AddData | server.js:41-53 | the new sample becomes the latest and the newest history entry; under capacity it is appended; at capacity exactly the oldest entry is evicted; the history never grows past 1000 |
| GpsStore.HistoryIsSlidingWindow | server.js:36-53 | after any run of stores the history is the last 1000 samples ever stored, and the latest is the last one stored |
| GpsStore.CapacityNeverExceeded | server.js:39-53 | from process start the history never holds more than 1000 samples |
| GpsStore.GetDataHistory | server.js:62-64 | `slice(-limit)`: a positive limit gives the newest `limit` samples (all when fewer); 0 gives everything; a negative limit drops that many of the oldest samples |
| GpsStore.PostGps | server.js:392-404 | 400 exactly when `latitude` or `longitude` is falsy, with the store unchanged; otherwise the store is exactly what `addData` makes of it: the body is the latest sample and the newest history entry, and the oldest entry is evicted at capacity |
| GpsStore.LatestRoute | server.js:445-459 | `GET /gps/latest` answers the latest sample, or 404 exactly when there is none |
| GpsStore.HistoryLimit | server.js:472 | the route's limit, `parseInt` falling back to 100: a non-zero parsed limit is used as is; a missing, unparsable or zero limit becomes 100 |
| GpsStore.HistoryRoute | server.js:470-479 | `GET /gps/history` reports `count` equal to the number of samples returned, never more than are stored; the newest 100 when the limit is absent or zero, the newest `limit` when it is positive, and the history without its `-limit` oldest samples when it is negative |
| Scenarios.CollisionOverwritesSilently | server.js:72-90 | re-registering a used id makes the new caller its streamer in both maps with no viewers, keeps the id order, and tells only the new caller |
| Scenarios.StreamerMayWatchOwnStream | server.js:93-106 | a streamer that joins its own stream as a viewer is added to its viewer set |
| Scenarios.RelayedSessionLifecycle | server.js:72-374 | register, viewer-side join, a relayed answer with a forged sender, streamer disconnect, late join: the exact outputs in order. The answer reaches the streamer stamped with the real viewer; both rooms hear `stream-ended`; both maps end empty; the late viewer hears `stream-not-found` |

## Left out

- Express and Socket.IO wiring: the static pages, CORS, `listen` and the port constants, and the `/health` routes. These are configuration and I/O with no state.
- Socket.IO delivery: which sockets receive an emit, and room membership once a socket has disconnected. The model records each emit's target (socket or room, sender excluded or not) and each `join` as an output rather than simulating delivery.
- `uuidv4()` and the clock are parameters, not computed values.
- Console logging, and the `try`/`catch` paths that answer 500. No modelled operation can throw on the inputs the model admits.
- `streamBridge.relayData` is a stub that only logs, and nothing calls it.
- The `clients` map is declared and never used.
- `GET /gps/status` only reads what `LatestRoute` and the history length already expose, plus constants and the clock.
- Stream ids, socket ids and signalling payloads are strings and opaque blobs. The code accepts any JSON value there, including non-string ids and a `null` `streamData`, which makes `streamer-join` throw inside the handler. Those inputs are not modelled.
- GpsStore.Reading: latitude and longitude carry only their truthiness-relevant JavaScript value (`Number` as a real, `NaN`, text, and so on). Floating-point precision is not modelled. The rest of the body is an opaque string, so a `timestamp` field in the posted body, which the spread places before the server's own, is not distinguished.
- GpsStore.HistoryLimit: `parseInt` itself is not modelled. The route takes its result as an optional integer, with `None` for `NaN`.
- Bridge.Coherent compares streamer and stream data but not viewers, because each instance keeps its own viewer set.

