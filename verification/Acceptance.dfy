/**
 The acceptance proof of an L2 component release (`validate_acceptance` in
 scripts/deploy-l2-component.py): the validator, the specification it decides, and what an
 accepted proof implies.
 */
module Acceptance {
  import opened Basics
  import opened SymbolBindings
  import opened AcceptanceStreams

  datatype Send = Send(binding: Binding, requestId: int, start: real, complete: real)

  datatype Windows = Windows(early: int, mid: int, late: int) {
    predicate AtLeast(n: int) { early >= n && mid >= n && late >= n }
  }

  datatype Cache = Cache(firstSequence: int, lastSequence: int, batchCount: int, seedBatches: int, exportSha: string,
                         integritySha: string)

  datatype Consumer = Consumer(firstSequence: int, lastSequence: int, batchCount: int, sha: string, windows: Windows) {
    predicate Saw(c: Cache) {
      firstSequence == 1 && lastSequence == c.lastSequence && batchCount == c.batchCount
    }
  }

  datatype Http = Http(successful: int, failed: int, extraSends: int, windows: Windows, consumers: seq<Consumer>,
                       sha: string)

  datatype Cleanup = Cleanup(workerAlive: bool, httpWorkerAlive: bool, socketsClosed: bool, sha: string)

  datatype WebSocket = WebSocket(connections: int, failedConnections: int, failedMessages: int, extraSends: int,
    successful: int, maxLag: real, sha: string, clientsClosed: bool, workersAlive: seq<bool>, consumers: seq<Consumer>)

  datatype Resources = Resources(sampleInterval: int, settle: int, cpuWindow: int, sha: string,
    httpP95: real, httpP99: real, maxHttp: real, maxLag: real, maxRss: real, maxCpu: real, maxCache: real,
    minHostAvailable: real, minDiskFree: real)

  datatype Proof = Proof(
    schema: string, sourceCommit: string, sourceTree: string,
    verified: seq<string>, attempted: seq<string>, highest: int, maximum: int,
    duration: int, elapsed: real, connections: int, reconnects: int,
    blockingError: bool, partialSend: bool, classification: string,
    ledger: seq<Send>, upstreamSends: int, sendAttempts: int, minSpacing: real,
    cache: Cache, http: Http, cleanup: Cleanup, websocket: WebSocket, resources: Resources,
    collectorStarted: int, windowStart: int, windowEnd: int,
    streams: seq<Stream>)

  datatype Code =
    | InvalidSymbols | GateCode | SendLedger | CacheHttp | ConsumersCode | WebsocketCode | WebsocketConsumers
    | ResourcesCode | CommonWindow | StreamsCode | BindingCode | StreamCode(error: StreamError)

  datatype Summary = Summary(streams: nat, maxSymbols: int, highest: int, verified: seq<string>, initial: seq<string>,
                             cacheBatches: int)

  const GIB: real := 1073741824.0

  predicate Hex(value: string, size: nat) {
    |value| == size && forall c :: c in value ==> '0' <= c <= '9' || 'a' <= c <= 'f'
  }

  // ---- The flat gates ----

  predicate Gate(p: Proof, tree: string) {
    var plan := 3 * |p.attempted|;
    && p.schema == "rquant-l2-acceptance-v3" && Hex(p.sourceCommit, 40)
    && p.sourceTree == tree && Hex(tree, 40)
    && p.highest in {20, 40, 80, 100} && |p.verified| == p.highest
    && p.highest <= |p.attempted| && p.attempted[..p.highest] == p.verified
    && 20 <= p.maximum <= p.highest
    && p.duration == 1200 && 0.0 < p.elapsed <= 1200.0
    && p.connections == 1 && p.reconnects == 0
    && !p.blockingError
    && p.classification in {"completed", "insufficient_events", "local_capacity_limit", "local_resource_limit"}
    && (p.partialSend ==> p.classification in {"local_capacity_limit", "local_resource_limit"})
    && 3 * p.highest <= |p.ledger| <= plan
    && p.upstreamSends == 1 + |p.ledger|
    && p.sendAttempts == p.upstreamSends + (if p.partialSend then 1 else 0)
    && p.sendAttempts <= 1 + plan
    && (p.classification == "completed" ==> |p.ledger| == plan && p.highest == |p.attempted| && !p.partialSend)
    && 1.0 <= p.minSpacing
  }

  predicate CacheHttpOk(p: Proof) {
    && p.cache.firstSequence == 1 && p.cache.lastSequence == p.cache.batchCount
    && 3 * p.highest <= p.cache.seedBatches <= |p.ledger| && p.cache.seedBatches <= p.cache.batchCount
    && p.http.successful >= 6 && p.http.failed == 0 && p.http.extraSends == 0 && p.http.windows.AtLeast(2)
    && !p.cleanup.workerAlive && !p.cleanup.httpWorkerAlive && p.cleanup.socketsClosed
    && Hex(p.cache.exportSha, 64) && Hex(p.cache.integritySha, 64) && Hex(p.http.sha, 64) && Hex(p.cleanup.sha, 64)
  }

  predicate ConsumersOk(p: Proof) {
    |p.http.consumers| == 2 &&
    forall c :: c in p.http.consumers ==> c.Saw(p.cache) && Hex(c.sha, 64) && c.sha == p.cache.exportSha
  }

  predicate WebsocketOk(p: Proof) {
    var ws := p.websocket;
    && ws.connections == 2 && ws.failedConnections == 0 && ws.failedMessages == 0 && ws.extraSends == 0
    && ws.successful >= 6 && 0.0 <= ws.maxLag <= 5.0 && Hex(ws.sha, 64) && ws.clientsClosed
    && |ws.workersAlive| == 2 && true !in ws.workersAlive
  }

  predicate WebsocketConsumersOk(p: Proof) {
    |p.websocket.consumers| == 2 &&
    forall c :: c in p.websocket.consumers ==> c.Saw(p.cache) && c.sha == p.cache.exportSha && c.windows.AtLeast(1)
  }

  predicate ResourcesOk(r: Resources) {
    && r.sampleInterval == 1 && r.settle == 10 && r.cpuWindow == 30 && Hex(r.sha, 64)
    && 0.0 <= r.httpP95 <= 1.0 && 0.0 <= r.httpP99 <= 2.0 && 0.0 <= r.maxHttp <= 5.0 && 0.0 <= r.maxLag <= 5.0
    && 0.0 <= r.maxRss <= GIB && 0.0 <= r.maxCpu <= 0.8 && 0.0 <= r.maxCache < 4.0 * GIB
    && 0.2 <= r.minHostAvailable <= 1.0 && 5.0 * GIB <= r.minDiskFree
  }

  function FrameOf(p: Proof): Frame {
    Frame(p.collectorStarted, p.windowStart, p.windowEnd, p.elapsed, p.cache.lastSequence)
  }

  predicate WindowOk(p: Proof) {
    && p.collectorStarted <= p.windowStart
    && p.windowEnd - p.windowStart >= 90 * MICROS
    && WithinElapsed(FrameOf(p), p.windowEnd)
  }

  // ---- The send ledger ----

  /** Requests follow the plan, are numbered from three, and are a second apart. */
  ghost predicate LedgerOk(ledger: seq<Send>, plan: seq<Binding>, elapsed: real)
    requires |ledger| <= |plan|
  {
    && (forall i :: 0 <= i < |ledger| ==>
          && ledger[i].binding == plan[i] && ledger[i].requestId == i + 3
          && 0.0 <= ledger[i].start <= ledger[i].complete <= elapsed)
    && (forall i :: 0 < i < |ledger| ==> Spaced(ledger, i))
  }

  predicate Spaced(ledger: seq<Send>, i: nat)
    requires 0 < i < |ledger|
  {
    ledger[i].start - ledger[i - 1].complete >= 0.999999
  }

  method ValidateLedger(ledger: seq<Send>, plan: seq<Binding>, elapsed: real) returns (ok: bool)
    requires |ledger| <= |plan|
    ensures ok <==> LedgerOk(ledger, plan, elapsed)
  {
    var previousComplete: Option<real> := None;
    for i := 0 to |ledger|
      invariant LedgerOk(ledger[..i], plan, elapsed)
      invariant previousComplete == if i == 0 then None else Some(ledger[i - 1].complete)
    {
      var send := ledger[i];
      if send.binding != plan[i] || send.requestId != i + 3 || !(0.0 <= send.start <= send.complete <= elapsed)
         || (previousComplete.Some? && send.start - previousComplete.value < 0.999999) {
        assert i > 0 && LedgerOk(ledger, plan, elapsed) ==> Spaced(ledger, i);
        return false;
      }
      LedgerGrows(ledger, plan, elapsed, i);
      previousComplete := Some(send.complete);
    }
    assert ledger[..|ledger|] == ledger;
    return true;
  }

  lemma LedgerGrows(ledger: seq<Send>, plan: seq<Binding>, elapsed: real, i: nat)
    requires i < |ledger| <= |plan| && LedgerOk(ledger[..i], plan, elapsed)
    requires ledger[i].binding == plan[i] && ledger[i].requestId == i + 3
    requires 0.0 <= ledger[i].start <= ledger[i].complete <= elapsed && (i > 0 ==> Spaced(ledger, i))
    ensures LedgerOk(ledger[..i + 1], plan, elapsed)
  {
    var longer := ledger[..i + 1];
    forall j | 0 < j < |longer|
      ensures Spaced(longer, j)
    {
      if j < i {
        assert Spaced(ledger[..i], j);
      }
    }
  }

  // ---- The streams ----

  /** One stream per expected binding, all of one epoch, no sequence used twice. */
  ghost predicate StreamsOk(streams: seq<Stream>, expected: set<Binding>, f: Frame) {
    && |streams| == |expected| && StreamsFit(streams, Qualifies(expected, f))
    && forall j, k :: 0 <= j < |streams| && 0 <= k < |streams| ==> streams[j].epoch == streams[k].epoch
  }

  ghost function Qualifies(expected: set<Binding>, f: Frame): Stream -> bool {
    (st: Stream) => st.binding in expected && StreamOk(st, f)
  }

  /** Each stream passes on its own, and no two share a binding or a sequence. */
  ghost predicate StreamsFit(streams: seq<Stream>, ok: Stream -> bool) {
    && (forall k :: 0 <= k < |streams| ==> ok(streams[k]))
    && (forall j, k :: 0 <= j < k < |streams| ==> Compatible(streams[j], streams[k]))
  }

  ghost predicate Compatible(a: Stream, b: Stream) {
    a.binding != b.binding && Sequences(a) !! Sequences(b)
  }

  ghost function AllSequences(streams: seq<Stream>): set<int> {
    if |streams| == 0 then {} else AllSequences(streams[..|streams| - 1]) + Sequences(streams[|streams| - 1])
  }

  lemma {:induction false} AllSequencesAre(streams: seq<Stream>, q: int)
    ensures q in AllSequences(streams) <==> exists k :: 0 <= k < |streams| && q in Sequences(streams[k])
  {
    if |streams| > 0 {
      AllSequencesAre(streams[..|streams| - 1], q);
    }
  }

  lemma DisjointFromAll(streams: seq<Stream>, k: nat)
    requires k < |streams|
    ensures Sequences(streams[k]) !! AllSequences(streams[..k]) <==>
            forall j :: 0 <= j < k ==> Sequences(streams[j]) !! Sequences(streams[k])
  {
    forall q
      ensures q in AllSequences(streams[..k]) <==> exists j :: 0 <= j < k && q in Sequences(streams[j])
    {
      AllSequencesAre(streams[..k], q);
    }
    if !(Sequences(streams[k]) !! AllSequences(streams[..k])) {
      var q :| q in Sequences(streams[k]) && q in AllSequences(streams[..k]);
      var j :| 0 <= j < k && q in Sequences(streams[j]);
      assert !(Sequences(streams[j]) !! Sequences(streams[k]));
    }
    forall j | 0 <= j < k && !(Sequences(streams[j]) !! Sequences(streams[k]))
      ensures !(Sequences(streams[k]) !! AllSequences(streams[..k]))
    {
      var q :| q in Sequences(streams[j]) && q in Sequences(streams[k]);
      assert q in AllSequences(streams[..k]);
    }
  }

  ghost function BindingsOf(streams: seq<Stream>): set<Binding> {
    set k | 0 <= k < |streams| :: streams[k].binding
  }

  ghost function EpochsOf(streams: seq<Stream>): set<string> {
    set k | 0 <= k < |streams| :: streams[k].epoch
  }

  /** The next stream fits exactly when it passes on its own and meets none before it. */
  lemma FitGrows(streams: seq<Stream>, ok: Stream -> bool, k: nat)
    requires k < |streams| && StreamsFit(streams[..k], ok)
    ensures StreamsFit(streams[..k + 1], ok) <==>
            && ok(streams[k]) && streams[k].binding !in BindingsOf(streams[..k])
            && Sequences(streams[k]) !! AllSequences(streams[..k])
  {
    DisjointFromAll(streams, k);
    PairsGrow(streams, ok, k);
    assert streams[k].binding !in BindingsOf(streams[..k])
      <==> forall j :: 0 <= j < k ==> streams[j].binding != streams[k].binding;
  }

  lemma PairsGrow(streams: seq<Stream>, ok: Stream -> bool, k: nat)
    requires k < |streams| && StreamsFit(streams[..k], ok)
    ensures StreamsFit(streams[..k + 1], ok)
       <==> ok(streams[k]) && forall j :: 0 <= j < k ==> Compatible(streams[j], streams[k])
  {
    var before, longer := streams[..k], streams[..k + 1];
    assert forall j :: 0 <= j < k ==> longer[j] == before[j] == streams[j];
    assert longer[k] == streams[k];
    forall j, i | 0 <= j < i < k
      ensures Compatible(longer[j], longer[i])
    {
      assert Compatible(before[j], before[i]);
    }
    if StreamsFit(longer, ok) {
      assert forall j :: 0 <= j < k ==> Compatible(longer[j], longer[k]);
    }
  }

  lemma FitOfPrefix(streams: seq<Stream>, ok: Stream -> bool, k: nat)
    requires k <= |streams| && StreamsFit(streams, ok)
    ensures StreamsFit(streams[..k], ok)
  {
    var prefix := streams[..k];
    assert forall j :: 0 <= j < k ==> prefix[j] == streams[j];
    forall j, i | 0 <= j < i < k
      ensures Compatible(prefix[j], prefix[i])
    {
      assert Compatible(streams[j], streams[i]);
    }
  }

  /** Fitting streams have as many bindings as there are streams. */
  lemma {:induction false} FitCount(streams: seq<Stream>, ok: Stream -> bool)
    requires StreamsFit(streams, ok)
    ensures |BindingsOf(streams)| == |streams|
  {
    if |streams| > 0 {
      var n := |streams| - 1;
      FitOfPrefix(streams, ok, n);
      FitCount(streams[..n], ok);
      assert streams[..n + 1] == streams;
      FitGrows(streams, ok, n);
      BindingsGrow(streams, n);
    }
  }

  lemma BindingsGrow(streams: seq<Stream>, k: nat)
    requires k < |streams|
    ensures BindingsOf(streams[..k + 1]) == BindingsOf(streams[..k]) + {streams[k].binding}
    ensures EpochsOf(streams[..k + 1]) == EpochsOf(streams[..k]) + {streams[k].epoch}
    ensures AllSequences(streams[..k + 1]) == AllSequences(streams[..k]) + Sequences(streams[k])
  {
    var before, longer := streams[..k], streams[..k + 1];
    assert longer[..k] == before && longer[k] == streams[k];
    assert forall j :: 0 <= j < k ==> longer[j] == before[j];
  }

  lemma OneEpoch(streams: seq<Stream>)
    requires |streams| > 0
    ensures |EpochsOf(streams)| == 1 <==>
            forall j, k :: 0 <= j < |streams| && 0 <= k < |streams| ==> streams[j].epoch == streams[k].epoch
  {
    var e := streams[0].epoch;
    assert e in EpochsOf(streams);
    assert (forall k :: 0 <= k < |streams| ==> streams[k].epoch == e) <==> EpochsOf(streams) == {e} by {
      assert forall k :: 0 <= k < |streams| ==> streams[k].epoch in EpochsOf(streams);
    }
    if |EpochsOf(streams)| == 1 {
      FullSubset({e}, EpochsOf(streams));
    }
  }

  method ValidateStreams(streams: seq<Stream>, expected: set<Binding>, f: Frame) returns (r: Result<set<int>, Code>)
    requires |expected| > 0
    ensures r.Ok? <==> StreamsOk(streams, expected, f)
  {
    if |streams| != |expected| {
      return Err(StreamsCode);
    }
    var identities: set<Binding>, epochs: set<string>, sequences: set<int> := {}, {}, {};
    ghost var ok := Qualifies(expected, f);
    for k := 0 to |streams|
      invariant identities == BindingsOf(streams[..k]) && epochs == EpochsOf(streams[..k])
      invariant sequences == AllSequences(streams[..k]) && identities <= expected
      invariant StreamsFit(streams[..k], ok)
    {
      FitGrows(streams, ok, k);
      BindingsGrow(streams, k);
      if StreamsFit(streams, ok) {
        FitOfPrefix(streams, ok, k + 1);
      }
      var st := streams[k];
      if st.binding !in expected || st.binding in identities {
        return Err(BindingCode);
      }
      var checked := ValidateStream(st, f, sequences);
      if checked.Err? {
        return Err(StreamCode(checked.error));
      }
      identities, epochs, sequences := identities + {st.binding}, epochs + {st.epoch}, checked.value;
    }
    assert streams[..|streams|] == streams;
    FitCount(streams, ok);
    FullSubset(identities, expected);
    OneEpoch(streams);
    if identities != expected || |epochs| != 1 {
      return Err(BindingCode);
    }
    r := Ok(sequences);
  }

  // ---- The whole proof ----

  ghost predicate Accepted(p: Proof, tree: string) {
    && ValidSymbols(p.attempted) && ValidSymbols(p.verified)
    && Gate(p, tree)
    && LedgerOk(p.ledger, Bindings(p.attempted), p.elapsed)
    && CacheHttpOk(p) && ConsumersOk(p) && WebsocketOk(p) && WebsocketConsumersOk(p) && ResourcesOk(p.resources)
    && WindowOk(p)
    && StreamsOk(p.streams, SetOf(Bindings(p.verified)), FrameOf(p))
  }

  /** `validate_acceptance` accepts exactly the proofs that meet the specification. */
  method ValidateAcceptance(p: Proof, tree: string) returns (r: Result<Summary, Code>)
    ensures r.Ok? <==> Accepted(p, tree)
    ensures r.Ok? ==>
              r.value == Summary(3 * p.highest, p.maximum, p.highest, p.verified, p.verified[..20], p.cache.batchCount)
  {
    if !ValidSymbols(p.attempted) || !ValidSymbols(p.verified) {
      return Err(InvalidSymbols);
    }
    var plan, expected := Bindings(p.attempted), SetOf(Bindings(p.verified));
    BindingsDistinct(p.verified);
    DistinctSize(Bindings(p.verified));
    if !Gate(p, tree) {
      return Err(GateCode);
    }
    var paced := ValidateLedger(p.ledger, plan, p.elapsed);
    if !paced {
      return Err(SendLedger);
    }
    if !CacheHttpOk(p) {
      return Err(CacheHttp);
    }
    if !ConsumersOk(p) {
      return Err(ConsumersCode);
    }
    if !WebsocketOk(p) {
      return Err(WebsocketCode);
    }
    if !WebsocketConsumersOk(p) {
      return Err(WebsocketConsumers);
    }
    if !ResourcesOk(p.resources) {
      return Err(ResourcesCode);
    }
    if !WindowOk(p) {
      return Err(CommonWindow);
    }
    var streams := ValidateStreams(p.streams, expected, FrameOf(p));
    if streams.Err? {
      return Err(streams.error);
    }
    r := Ok(Summary(|expected|, p.maximum, p.highest, p.verified, p.verified[..20], p.cache.batchCount));
  }
}
