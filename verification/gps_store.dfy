/** The bounded GPS history kept by `gpsDataStore` (server.js lines 36-65) and the validation of
    `POST /gps` (lines 392-404). The store keeps the latest sample and a history of at most
    `MaxHistorySize` samples, evicting the oldest. */
module GpsStore {
  import opened Wrappers

  /** A JavaScript value, with just enough structure to decide truthiness. */
  datatype JsValue =
    | Undefined
    | Null
    | Boolean(b: bool)
    | Number(n: real)
    | NaN
    | Text(s: string)
    | Object(json: string)

  /** JavaScript truthiness: `undefined`, `null`, `false`, `0`, `NaN` and `""` are falsy. */
  predicate Truthy(v: JsValue) {
    match v
    case Undefined => false
    case Null => false
    case Boolean(b) => b
    case Number(n) => n != 0.0
    case NaN => false
    case Text(s) => s != ""
    case Object(_) => true
  }

  /** A posted GPS body: its `latitude` and `longitude` fields and the rest of the object. */
  datatype Reading = Reading(latitude: JsValue, longitude: JsValue, rest: string)

  /** `{ ...gpsData, timestamp }`: the reading stamped with the time it was stored. */
  datatype Sample = Sample(reading: Reading, timestamp: string)

  /** `latestData` (initially `null`) and `dataHistory`, oldest first. */
  datatype Store = Store(latest: Option<Sample>, history: seq<Sample>)

  /** `maxHistorySize`. */
  const MaxHistorySize: nat := 1000

  /** The store when the process starts. */
  const Empty: Store := Store(None, [])

  /** The last `n` elements of `a`, or all of `a` when it is shorter. */
  function Last<T>(a: seq<T>, n: nat): (r: seq<T>)
    ensures |r| == if |a| <= n then |a| else n
  {
    if |a| <= n then a else a[|a| - n..]
  }

  /** `addData`: stamp the reading with `now`, make it the latest sample, append it to the
      history, and evict the oldest sample when the history has grown past its capacity. */
  function AddData(st: Store, reading: Reading, now: string): (r: Store)
    ensures r.latest == Some(Sample(reading, now))
    ensures |r.history| > 0 && r.history[|r.history| - 1] == Sample(reading, now)
    ensures |st.history| <= MaxHistorySize ==> |r.history| <= MaxHistorySize
    ensures |st.history| < MaxHistorySize ==> r.history == st.history + [Sample(reading, now)]
    ensures |st.history| >= MaxHistorySize ==>
              |r.history| == |st.history| && r.history[..|r.history| - 1] == st.history[1..]
  {
    var s := Sample(reading, now);
    var h := st.history + [s];
    assert |h| == |st.history| + 1 && h[|h| - 1] == s;
    if |h| > MaxHistorySize then
      assert h[1..][..|h| - 2] == st.history[1..];
      assert h[1..][|h| - 2] == s;
      Store(Some(s), h[1..])
    else
      Store(Some(s), h)
  }

  /** `Array.prototype.slice(start)`: a negative start counts from the end, and both kinds are
      clamped to the array. */
  function SliceFrom<T>(a: seq<T>, start: int): seq<T> {
    var from := if start < 0 then (if |a| + start < 0 then 0 else |a| + start)
                else (if start > |a| then |a| else start);
    a[from..]
  }

  /** `getDataHistory(limit)`, which is `dataHistory.slice(-limit)`. A positive limit gives the
      last `limit` samples (all of them when there are fewer); a limit of 0 gives the whole history,
      since `-0` is `0`; a negative limit drops that many of the oldest samples. */
  function GetDataHistory(st: Store, limit: int): (r: seq<Sample>)
    ensures limit >= 1 ==> r == Last(st.history, limit)
    ensures limit == 0 ==> r == st.history
    ensures limit < 0 ==> |r| == (if -limit >= |st.history| then 0 else |st.history| + limit)
    ensures limit < 0 && -limit < |st.history| ==> r == st.history[-limit..]
  {
    SliceFrom(st.history, -limit)
  }

  /** The HTTP status of `POST /gps`, leaving out the 500 path. */
  datatype PostStatus = Ok200 | BadRequest400

  /** `POST /gps`: reject with 400 and leave the store alone when `latitude` or `longitude` is
      falsy; otherwise store the reading. */
  function PostGps(st: Store, body: Reading, now: string): (r: (PostStatus, Store))
    ensures r.0 == BadRequest400 <==> !Truthy(body.latitude) || !Truthy(body.longitude)
    ensures r.0 == BadRequest400 ==> r.1 == st
    ensures r.0 == Ok200 ==> r.1.latest == Some(Sample(body, now))
    ensures r.0 == Ok200 ==> r.1 == AddData(st, body, now)
  {
    if !Truthy(body.latitude) || !Truthy(body.longitude) then (BadRequest400, st)
    else (Ok200, AddData(st, body, now))
  }

  /** The 404 answer of `GET /gps/latest` before any sample has been stored. */
  datatype NoData = NoGpsData

  /** `GET /gps/latest`: the latest sample, or 404 while there is none. */
  function LatestRoute(st: Store): (r: Result<Sample, NoData>)
    ensures r.Success? <==> st.latest.Some?
    ensures r.Success? ==> Some(r.value) == st.latest
  {
    match st.latest
    case Some(s) => Success(s)
    case None => Failure(NoGpsData)
  }

  /** `parseInt(req.query.limit) || 100`, with `None` standing for `NaN`: an unparsable or zero
      limit falls back to 100, so the limit handed to `getDataHistory` is never 0. */
  function HistoryLimit(parsed: Option<int>): (limit: int)
    ensures limit != 0
    ensures parsed.Some? && parsed.value != 0 ==> limit == parsed.value
    ensures parsed.None? || parsed.value == 0 ==> limit == 100
  {
    match parsed
    case Some(n) => if n != 0 then n else 100
    case None => 100
  }

  /** `GET /gps/history`: the history under the effective limit, with its length as `count`. */
  function HistoryRoute(st: Store, parsed: Option<int>): (r: (nat, seq<Sample>))
    ensures r.0 == |r.1|
    ensures parsed.None? ==> r.1 == Last(st.history, 100)
    ensures parsed.Some? && parsed.value > 0 ==> r.1 == Last(st.history, parsed.value)
    ensures parsed.Some? && parsed.value == 0 ==> r.1 == Last(st.history, 100)
    ensures parsed.Some? && parsed.value < 0 ==> r.1 == GetDataHistory(st, parsed.value)
    ensures |r.1| <= |st.history|
  {
    var h := GetDataHistory(st, HistoryLimit(parsed));
    (|h|, h)
  }

  /** A successful `POST /gps` is what `GET /gps/latest` answers next, and it is the newest entry of
      the history `GET /gps/history` returns for any limit that is absent, zero or positive. (A
      negative limit drops that many of the oldest samples and may leave nothing.) */
  lemma PostThenRead(st: Store, body: Reading, now: string, parsed: Option<int>)
    requires Truthy(body.latitude) && Truthy(body.longitude)
    ensures var (status, st') := PostGps(st, body, now);
            var h := HistoryRoute(st', parsed).1;
      && status == Ok200
      && LatestRoute(st') == Success(Sample(body, now))
      && (parsed.None? || parsed.value >= 0 ==> |h| > 0 && h[|h| - 1] == Sample(body, now))
  {
  }

  /** Store a run of samples one after another. */
  function AddAll(st: Store, samples: seq<Sample>): Store
    decreases |samples|
  {
    if |samples| == 0 then st
    else AddAll(AddData(st, samples[0].reading, samples[0].timestamp), samples[1..])
  }

  /** One store from a history within capacity keeps exactly the last `MaxHistorySize` samples. */
  lemma AddDataIsWindow(st: Store, s: Sample)
    requires |st.history| <= MaxHistorySize
    ensures AddData(st, s.reading, s.timestamp).history == Last(st.history + [s], MaxHistorySize)
  {
  }

  /** Starting from a store within capacity, the history after any run of stores is the last
      `MaxHistorySize` samples of the old history followed by the new ones, and the latest sample is
      the last one stored. */
  lemma {:induction false} HistoryIsSlidingWindow(st: Store, samples: seq<Sample>)
    requires |st.history| <= MaxHistorySize
    ensures AddAll(st, samples).history == Last(st.history + samples, MaxHistorySize)
    ensures |samples| > 0 ==> AddAll(st, samples).latest == Some(samples[|samples| - 1])
    ensures |samples| == 0 ==> AddAll(st, samples).latest == st.latest
    decreases |samples|
  {
    if |samples| > 0 {
      var s := samples[0];
      var st' := AddData(st, s.reading, s.timestamp);
      AddDataIsWindow(st, s);
      HistoryIsSlidingWindow(st', samples[1..]);
      // Last(Last(h + [s], N) + rest, N) == Last(h + [s] + rest, N).
      LastOfConcat(st.history + [s], samples[1..], MaxHistorySize);
      assert st.history + [s] + samples[1..] == st.history + samples;
    }
  }

  /** Windowing before appending a run changes nothing once the run is windowed again. */
  lemma LastOfConcat<T>(a: seq<T>, xs: seq<T>, n: nat)
    requires n > 0
    ensures Last(Last(a, n) + xs, n) == Last(a + xs, n)
  {
    if |a| > n {
      assert a[|a| - n..] + xs == (a + xs)[|a| - n..];
    }
  }

  /** From process start, the history never holds more than `MaxHistorySize` samples. */
  lemma CapacityNeverExceeded(samples: seq<Sample>)
    ensures |AddAll(Empty, samples).history| <= MaxHistorySize
  {
    HistoryIsSlidingWindow(Empty, samples);
  }
}
