/** The live-throughput store (web/src/stores/liveStats.ts). Devices are kept in
    insertion order, as the record's values iterate; rates are reals. */
module LiveStats {
  import opened Common

  const HISTORY_CAP := 1800

  datatype Device = Device(
    rx: real, tx: real, rxHistory: seq<real>, txHistory: seq<real>,
    lastTs: int, lastSeenTs: int, lifeRx: real, lifeTx: real,
    peakRx: real, peakTx: real, totalRx: real, totalTx: real)

  const EMPTY_DEVICE := Device(0.0, 0.0, [], [], 0, 0, 0.0, 0.0, 0.0, 0.0, 0.0, 0.0)

  datatype Aggregate = Aggregate(rxHistory: seq<real>, txHistory: seq<real>, rx: real, tx: real, lastBucket: int)

  const EMPTY_AGGREGATE := Aggregate([], [], 0.0, 0.0, 0)

  datatype Entry = Entry(id: string, device: Device)

  datatype Store = Store(devices: seq<Entry>, aggregate: Aggregate)

  const EMPTY_STORE := Store([], EMPTY_AGGREGATE)

  datatype Point = Point(ts: int, rx: real, tx: real)

  function MaxReal(a: real, b: real): real {
    if a < b then b else a
  }

  /** `arr.slice(-n)`. */
  function Last(s: seq<real>, n: nat): seq<real> {
    if |s| <= n then s else s[|s| - n..]
  }

  /** `pushCapped`. */
  function PushCapped(s: seq<real>, next: real): seq<real> {
    if |s| < HISTORY_CAP then s + [next] else s[|s| - HISTORY_CAP + 1..] + [next]
  }

  /** `replaceLastCapped`. */
  function ReplaceLastCapped(s: seq<real>, next: real): seq<real> {
    if s == [] then [next] else Last(s[|s| - 1 := next], HISTORY_CAP)
  }

  /** Capping as one goes is the same as capping the whole. */
  lemma {:induction false} PushIsLast(all: seq<real>, next: real)
    ensures PushCapped(Last(all, HISTORY_CAP), next) == Last(all + [next], HISTORY_CAP)
  {
  }

  lemma {:induction false} ReplaceIsLast(all: seq<real>, next: real)
    requires all != []
    ensures ReplaceLastCapped(Last(all, HISTORY_CAP), next) == Last(all[|all| - 1 := next], HISTORY_CAP)
  {
  }

  // ------------------------------------------------------------------ devices

  function Find(devices: seq<Entry>, id: string): Option<Device> {
    if devices == [] then None
    else if devices[0].id == id then Some(devices[0].device)
    else Find(devices[1..], id)
  }

  /** `{ ...devices, [id]: device }`: in place if present, else at the end. */
  function Put(devices: seq<Entry>, id: string, device: Device): seq<Entry> {
    if devices == [] then [Entry(id, device)]
    else if devices[0].id == id then [Entry(id, device)] + devices[1..]
    else [devices[0]] + Put(devices[1..], id, device)
  }

  function SumRx(devices: seq<Entry>): real {
    if devices == [] then 0.0 else devices[0].device.rx + SumRx(devices[1..])
  }

  function SumTx(devices: seq<Entry>): real {
    if devices == [] then 0.0 else devices[0].device.tx + SumTx(devices[1..])
  }

  function Current(devices: seq<Entry>, id: string): Device {
    var d := Find(devices, id);
    if d.Some? then d.value else EMPTY_DEVICE
  }

  function Bucket(ts: int): int {
    ts / 1000
  }

  // ------------------------------------------------------------------ actions

  datatype Delta = Delta(id: string, rx: real, tx: real, at: int, lifeRx: real, lifeTx: real)

  function DeviceAfter(cur: Device, d: Delta): Device {
    Device(d.rx, d.tx, PushCapped(cur.rxHistory, d.rx), PushCapped(cur.txHistory, d.tx), d.at,
           if d.rx > 0.0 || d.tx > 0.0 then d.at else cur.lastSeenTs,
           MaxReal(cur.lifeRx, d.lifeRx), MaxReal(cur.lifeTx, d.lifeTx),
           MaxReal(cur.peakRx, d.rx), MaxReal(cur.peakTx, d.tx),
           cur.totalRx + d.rx, cur.totalTx + d.tx)
  }

  /** `applyDelta`. */
  function ApplyDelta(s: Store, d: Delta): Store {
    var devices := Put(s.devices, d.id, DeviceAfter(Current(s.devices, d.id), d));
    var rx, tx := SumRx(devices), SumTx(devices);
    var isNew := Bucket(d.at) > s.aggregate.lastBucket;
    Store(devices, Aggregate(
      if isNew then PushCapped(s.aggregate.rxHistory, rx) else ReplaceLastCapped(s.aggregate.rxHistory, rx),
      if isNew then PushCapped(s.aggregate.txHistory, tx) else ReplaceLastCapped(s.aggregate.txHistory, tx),
      rx, tx, Bucket(d.at)))
  }

  function RxOf(points: seq<Point>): seq<real> {
    seq(|points|, i requires 0 <= i < |points| => points[i].rx)
  }

  function TxOf(points: seq<Point>): seq<real> {
    seq(|points|, i requires 0 <= i < |points| => points[i].tx)
  }

  function MaxOf(start: real, s: seq<real>): (m: real)
    ensures start <= m && forall i :: 0 <= i < |s| ==> s[i] <= m
  {
    if s == [] then start else MaxReal(s[|s| - 1], MaxOf(start, s[..|s| - 1]))
  }

  function Hydrated(cur: Device, points: seq<Point>): Device {
    var lastHist := if points != [] then points[|points| - 1].ts else 0;
    var keepLive := (if cur.lastTs > lastHist then cur.lastTs else 0) > 0 && |cur.rxHistory| > 0;
    var rxHistory := Last(RxOf(points) + (if keepLive then [cur.rx] else []), HISTORY_CAP);
    var txHistory := Last(TxOf(points) + (if keepLive then [cur.tx] else []), HISTORY_CAP);
    cur.(rxHistory := rxHistory, txHistory := txHistory, lastTs := Max(cur.lastTs, lastHist),
         peakRx := MaxOf(cur.peakRx, rxHistory), peakTx := MaxOf(cur.peakTx, txHistory))
  }

  /** `m` is the greatest of `floor` and the values of `s`. */
  ghost predicate IsMaxOf(m: real, floor: real, s: seq<real>) {
    floor <= m && (forall i :: 0 <= i < |s| ==> s[i] <= m) && (m == floor || exists i :: 0 <= i < |s| && s[i] == m)
  }

  lemma {:induction false} MaxOfIsMax(start: real, s: seq<real>)
    ensures IsMaxOf(MaxOf(start, s), start, s)
  {
    if s != [] {
      MaxOfIsMax(start, s[..|s| - 1]);
      assert MaxOf(start, s) == s[|s| - 1] || MaxOf(start, s) == MaxOf(start, s[..|s| - 1]);
    }
  }

  /** A live frame that is newer than everything in `points`. */
  predicate LiveIsNewer(cur: Device, points: seq<Point>) {
    cur.rxHistory != [] && cur.lastTs > 0 && (points != [] ==> cur.lastTs > points[|points| - 1].ts)
  }

  /** The history `h`, newest entry first: the live rate if there is a newer one, and then
      the points from the last one backwards, as many as fit. */
  predicate Seeds(h: seq<real>, live: Option<real>, rates: seq<real>) {
    var extra := if live.Some? then 1 else 0;
    && |h| == Capped(|rates| + extra)
    && (live.Some? ==> Back(h, 0) == live.value)
    && forall k :: extra <= k < |h| ==> Back(h, k) == rates[|rates| - 1 - (k - extra)]
  }

  lemma {:induction false} LastSeeds(live: Option<real>, rates: seq<real>)
    ensures Seeds(Last(rates + (if live.Some? then [live.value] else []), HISTORY_CAP), live, rates)
  {
  }

  /** What hydrating makes of a device, from the points alone: seeded histories, peaks over
      them, the later of the two timestamps, and nothing else changed. */
  ghost predicate Seeded(cur: Device, points: seq<Point>, d: Device) {
    var newer := LiveIsNewer(cur, points);
    && |d.rxHistory| == |d.txHistory|
    && Seeds(d.rxHistory, if newer then Some(cur.rx) else None, seq(|points|, i requires 0 <= i < |points| => points[i].rx))
    && Seeds(d.txHistory, if newer then Some(cur.tx) else None, seq(|points|, i requires 0 <= i < |points| => points[i].tx))
    && IsMaxOf(d.peakRx, cur.peakRx, d.rxHistory) && IsMaxOf(d.peakTx, cur.peakTx, d.txHistory)
    && cur.lastTs <= d.lastTs && (points != [] ==> points[|points| - 1].ts <= d.lastTs)
    && (d.lastTs == cur.lastTs || d.lastTs == if points == [] then 0 else points[|points| - 1].ts)
    && d.rx == cur.rx && d.tx == cur.tx && d.lastSeenTs == cur.lastSeenTs
    && d.lifeRx == cur.lifeRx && d.lifeTx == cur.lifeTx && d.totalRx == cur.totalRx && d.totalTx == cur.totalTx
  }

  lemma {:induction false} HydratedIsSeeded(cur: Device, points: seq<Point>)
    ensures Seeded(cur, points, Hydrated(cur, points))
  {
    var newer := LiveIsNewer(cur, points);
    LastSeeds(if newer then Some(cur.rx) else None, RxOf(points));
    LastSeeds(if newer then Some(cur.tx) else None, TxOf(points));
    var d := Hydrated(cur, points);
    MaxOfIsMax(cur.peakRx, d.rxHistory);
    MaxOfIsMax(cur.peakTx, d.txHistory);
  }

  function LongestRx(devices: seq<Entry>): nat {
    if devices == [] then 0 else Max(|devices[0].device.rxHistory|, LongestRx(devices[1..]))
  }

  function LatestTs(devices: seq<Entry>): int {
    if devices == [] then 0 else Max(devices[0].device.lastTs, LatestTs(devices[1..]))
  }

  /** The value of a history at distance `back` from its newest entry, or zero before it began. */
  function Back(h: seq<real>, back: nat): real {
    if back < |h| then h[|h| - 1 - back] else 0.0
  }

  function SumBackRx(devices: seq<Entry>, back: nat): real {
    if devices == [] then 0.0 else Back(devices[0].device.rxHistory, back) + SumBackRx(devices[1..], back)
  }

  function SumBackTx(devices: seq<Entry>, back: nat): real {
    if devices == [] then 0.0 else Back(devices[0].device.txHistory, back) + SumBackTx(devices[1..], back)
  }

  function Capped(n: nat): nat {
    if n < HISTORY_CAP then n else HISTORY_CAP
  }

  /** The aggregate rebuilt from device histories, aligned at their newest entries. */
  function AggregateOf(devices: seq<Entry>): Aggregate {
    if devices == [] then EMPTY_AGGREGATE
    else
      var n := Capped(LongestRx(devices));
      Aggregate(seq(n, i requires 0 <= i < n => SumBackRx(devices, n - 1 - i)),
                seq(n, i requires 0 <= i < n => SumBackTx(devices, n - 1 - i)),
                SumRx(devices), SumTx(devices), Bucket(LatestTs(devices)))
  }

  predicate SameLengths(devices: seq<Entry>) {
    forall i :: 0 <= i < |devices| ==> |devices[i].device.rxHistory| == |devices[i].device.txHistory|
  }

  /** Adding one device's history into the accumulators, right-aligned: the inner loop. */
  method AddAligned(acc: array<real>, h: seq<real>)
    requires |h| <= acc.Length
    modifies acc
    ensures forall i :: 0 <= i < acc.Length ==> acc[i] == old(acc[i]) + Back(h, acc.Length - 1 - i)
  {
    var offset := acc.Length - |h|;
    for n := 0 to |h|
      invariant forall i :: 0 <= i < acc.Length && (i < offset || i >= offset + n) ==> acc[i] == old(acc[i])
      invariant forall i :: offset <= i < offset + n ==> acc[i] == old(acc[i]) + h[i - offset]
    {
      acc[offset + n] := acc[offset + n] + h[n];
    }
  }

  /** `buildAggregateFromDevices`: each frame is the sum of all device histories aligned
      at their newest entries. */
  method BuildAggregate(devices: seq<Entry>) returns (a: Aggregate)
    requires SameLengths(devices)
    ensures a == AggregateOf(devices)
  {
    if devices == [] { return EMPTY_AGGREGATE; }
    var n := LongestRx(devices);
    LongestBounds(devices);
    var rx := new real[n](_ => 0.0);
    var tx := new real[n](_ => 0.0);
    var rxSum, txSum := 0.0, 0.0;
    for i := 0 to |devices|
      invariant forall k :: 0 <= k < n ==> rx[k] == SumBackRx(devices[..i], n - 1 - k)
      invariant forall k :: 0 <= k < n ==> tx[k] == SumBackTx(devices[..i], n - 1 - k)
      invariant rxSum == SumRx(devices[..i]) && txSum == SumTx(devices[..i])
    {
      AddAligned(rx, devices[i].device.rxHistory);
      AddAligned(tx, devices[i].device.txHistory);
      rxSum := rxSum + devices[i].device.rx;
      txSum := txSum + devices[i].device.tx;
      SumsSnoc(devices, i, n);
    }
    assert devices[..|devices|] == devices;
    CappedSums(devices, rx[..], tx[..]);
    a := Aggregate(Last(rx[..], HISTORY_CAP), Last(tx[..], HISTORY_CAP), rxSum, txSum, Bucket(LatestTs(devices)));
  }

  /** Capping the summed histories gives the aggregate's. */
  lemma {:induction false} CappedSums(devices: seq<Entry>, rx: seq<real>, tx: seq<real>)
    requires devices != [] && |rx| == |tx| == LongestRx(devices)
    requires forall k :: 0 <= k < |rx| ==> rx[k] == SumBackRx(devices, |rx| - 1 - k)
    requires forall k :: 0 <= k < |tx| ==> tx[k] == SumBackTx(devices, |tx| - 1 - k)
    ensures Last(rx, HISTORY_CAP) == AggregateOf(devices).rxHistory
    ensures Last(tx, HISTORY_CAP) == AggregateOf(devices).txHistory
  {
    var a := AggregateOf(devices);
    var n := Capped(|rx|);
    assert |a.rxHistory| == n && |a.txHistory| == n;
    forall i | 0 <= i < n ensures Last(rx, HISTORY_CAP)[i] == a.rxHistory[i] {
      assert Last(rx, HISTORY_CAP)[i] == rx[|rx| - n + i];
    }
    forall i | 0 <= i < n ensures Last(tx, HISTORY_CAP)[i] == a.txHistory[i] {
      assert Last(tx, HISTORY_CAP)[i] == tx[|tx| - n + i];
    }
  }

  /** What the rebuilt aggregate is, from the device histories: as long as the longest, as
      far as that fits, each entry the sum of the entries the same distance back, rates
      summed, and the second of the latest timestamp. */
  ghost predicate Coalesces(devices: seq<Entry>, a: Aggregate) {
    && |a.rxHistory| == |a.txHistory|
    && (forall k :: 0 <= k < |a.rxHistory| ==>
          Back(a.rxHistory, k) == SumBackRx(devices, k) && Back(a.txHistory, k) == SumBackTx(devices, k))
    && (forall i :: 0 <= i < |devices| ==> Capped(|devices[i].device.rxHistory|) <= |a.rxHistory|)
    && (|a.rxHistory| == 0 || exists i :: 0 <= i < |devices| && |a.rxHistory| == Capped(|devices[i].device.rxHistory|))
    && a.rx == SumRx(devices) && a.tx == SumTx(devices)
    && (forall i :: 0 <= i < |devices| ==> Bucket(devices[i].device.lastTs) <= a.lastBucket)
    && (a.lastBucket == 0 || exists i :: 0 <= i < |devices| && a.lastBucket == Bucket(devices[i].device.lastTs))
  }

  lemma {:induction false} AggregateCoalesces(devices: seq<Entry>)
    ensures Coalesces(devices, AggregateOf(devices))
  {
    LongestBounds(devices);
    LongestIsSome(devices);
    LatestIsSome(devices);
    SumsAtEachDistance(devices);
  }

  lemma {:induction false} SumsAtEachDistance(devices: seq<Entry>)
    ensures var a := AggregateOf(devices);
            && |a.rxHistory| == |a.txHistory| == Capped(LongestRx(devices))
            && forall k :: 0 <= k < |a.rxHistory| ==>
                 Back(a.rxHistory, k) == SumBackRx(devices, k) && Back(a.txHistory, k) == SumBackTx(devices, k)
  {
  }

  lemma {:induction false} LongestIsSome(devices: seq<Entry>)
    ensures LongestRx(devices) == 0 || exists i :: 0 <= i < |devices| && |devices[i].device.rxHistory| == LongestRx(devices)
  {
    if devices != [] {
      LongestIsSome(devices[1..]);
      if i :| 0 <= i < |devices[1..]| && |devices[1..][i].device.rxHistory| == LongestRx(devices[1..]) {
        assert devices[i + 1] == devices[1..][i];
      }
    }
  }

  lemma {:induction false} LatestIsSome(devices: seq<Entry>)
    ensures forall i :: 0 <= i < |devices| ==> devices[i].device.lastTs <= LatestTs(devices)
    ensures LatestTs(devices) == 0 || exists i :: 0 <= i < |devices| && devices[i].device.lastTs == LatestTs(devices)
  {
    if devices != [] {
      LatestIsSome(devices[1..]);
      assert forall i :: 1 <= i < |devices| ==> devices[i] == devices[1..][i - 1];
      if i :| 0 <= i < |devices[1..]| && devices[1..][i].device.lastTs == LatestTs(devices[1..]) {
        assert devices[i + 1] == devices[1..][i];
      }
    }
  }

  lemma {:induction false} LongestBounds(devices: seq<Entry>)
    ensures forall i :: 0 <= i < |devices| ==> |devices[i].device.rxHistory| <= LongestRx(devices)
  {
    if devices != [] { LongestBounds(devices[1..]); }
  }

  lemma {:induction false} SumsSnoc(devices: seq<Entry>, i: nat, n: nat)
    requires i < |devices|
    ensures SumRx(devices[..i + 1]) == SumRx(devices[..i]) + devices[i].device.rx
    ensures SumTx(devices[..i + 1]) == SumTx(devices[..i]) + devices[i].device.tx
    ensures forall k :: 0 <= k < n ==> SumBackRx(devices[..i + 1], k) == SumBackRx(devices[..i], k) + Back(devices[i].device.rxHistory, k)
    ensures forall k :: 0 <= k < n ==> SumBackTx(devices[..i + 1], k) == SumBackTx(devices[..i], k) + Back(devices[i].device.txHistory, k)
  {
    assert devices[..i + 1] == devices[..i] + [devices[i]];
    SumAppend(devices[..i], devices[i]);
    forall k | 0 <= k < n
      ensures SumBackRx(devices[..i + 1], k) == SumBackRx(devices[..i], k) + Back(devices[i].device.rxHistory, k)
      ensures SumBackTx(devices[..i + 1], k) == SumBackTx(devices[..i], k) + Back(devices[i].device.txHistory, k)
    {
      SumBackAppend(devices[..i], devices[i], k);
    }
  }

  lemma {:induction false} SumAppend(devices: seq<Entry>, e: Entry)
    ensures SumRx(devices + [e]) == SumRx(devices) + e.device.rx
    ensures SumTx(devices + [e]) == SumTx(devices) + e.device.tx
  {
    if devices == [] {
      assert devices + [e] == [e];
    } else {
      SumAppend(devices[1..], e);
      assert (devices + [e])[1..] == devices[1..] + [e];
    }
  }

  lemma {:induction false} SumBackAppend(devices: seq<Entry>, e: Entry, k: nat)
    ensures SumBackRx(devices + [e], k) == SumBackRx(devices, k) + Back(e.device.rxHistory, k)
    ensures SumBackTx(devices + [e], k) == SumBackTx(devices, k) + Back(e.device.txHistory, k)
  {
    if devices == [] {
      assert devices + [e] == [e];
    } else {
      SumBackAppend(devices[1..], e, k);
      assert (devices + [e])[1..] == devices[1..] + [e];
    }
  }

  /** `hydrateDevice`. */
  function Hydrate(s: Store, id: string, points: seq<Point>): Store {
    var devices := Put(s.devices, id, Hydrated(Current(s.devices, id), points));
    Store(devices, AggregateOf(devices))
  }

  // --------------------------------------------------------- the whole-run invariant

  datatype Action = DeltaArrives(delta: Delta) | HistoryArrives(id: string, points: seq<Point>)

  function Do(s: Store, a: Action): Store {
    match a
    case DeltaArrives(d) => ApplyDelta(s, d)
    case HistoryArrives(id, points) => Hydrate(s, id, points)
  }

  function Run(actions: seq<Action>): Store {
    if actions == [] then EMPTY_STORE else Do(Run(actions[..|actions| - 1]), actions[|actions| - 1])
  }

  predicate Bounds(h: seq<real>, peak: real) {
    forall i :: 0 <= i < |h| ==> h[i] <= peak
  }

  predicate DeviceOk(d: Device) {
    && |d.rxHistory| == |d.txHistory| <= HISTORY_CAP
    && Bounds(d.rxHistory, d.peakRx) && Bounds(d.txHistory, d.peakTx)
  }

  predicate DevicesOk(devices: seq<Entry>) {
    forall i :: 0 <= i < |devices| ==> DeviceOk(devices[i].device)
  }

  predicate StoreOk(s: Store) {
    && DevicesOk(s.devices)
    && |s.aggregate.rxHistory| == |s.aggregate.txHistory| <= HISTORY_CAP
    && s.aggregate.rx == SumRx(s.devices) && s.aggregate.tx == SumTx(s.devices)
  }

  lemma {:induction false} PutKeepsDevices(devices: seq<Entry>, id: string, d: Device)
    requires DevicesOk(devices) && DeviceOk(d)
    ensures DevicesOk(Put(devices, id, d))
  {
    if devices != [] && devices[0].id != id { PutKeepsDevices(devices[1..], id, d); }
  }

  lemma {:induction false} CurrentIsOk(devices: seq<Entry>, id: string)
    requires DevicesOk(devices)
    ensures DeviceOk(Current(devices, id))
  {
    if devices != [] && devices[0].id != id { CurrentIsOk(devices[1..], id); }
  }

  lemma {:induction false} DeltaKeepsDevice(cur: Device, d: Delta)
    requires DeviceOk(cur)
    ensures DeviceOk(DeviceAfter(cur, d))
  {
  }

  lemma {:induction false} StepKeepsStore(s: Store, a: Action)
    requires StoreOk(s)
    ensures StoreOk(Do(s, a))
  {
    match a
    case DeltaArrives(d) =>
      CurrentIsOk(s.devices, d.id);
      DeltaKeepsDevice(Current(s.devices, d.id), d);
      PutKeepsDevices(s.devices, d.id, DeviceAfter(Current(s.devices, d.id), d));
    case HistoryArrives(id, points) =>
      CurrentIsOk(s.devices, id);
      PutKeepsDevices(s.devices, id, Hydrated(Current(s.devices, id), points));
  }

  /** After any run of deltas and hydrations: receive and transmit histories have equal
      length within the cap, peaks bound every history entry, and the aggregate rate is
      the sum of the device rates. */
  lemma {:induction false} EveryRun(actions: seq<Action>)
    ensures StoreOk(Run(actions))
  {
    if actions != [] {
      EveryRun(actions[..|actions| - 1]);
      StepKeepsStore(Run(actions[..|actions| - 1]), actions[|actions| - 1]);
    }
  }

  lemma {:induction false} PutCurrent(devices: seq<Entry>, id: string, d: Device)
    ensures Current(Put(devices, id, d), id) == d
    ensures forall other :: other != id ==> Current(Put(devices, id, d), other) == Current(devices, other)
  {
    PutFind(devices, id, d, id);
    forall other | other != id ensures Current(Put(devices, id, d), other) == Current(devices, other) {
      PutFind(devices, id, d, other);
    }
  }

  /** The shared store. Its actions replace the state they find. */
  class LiveStatsStore {
    var state: Store

    constructor ()
      ensures state == EMPTY_STORE && Valid()
    {
      state := EMPTY_STORE;
    }

    ghost predicate Valid()
      reads this
    {
      StoreOk(state)
    }

    method ApplyDelta(d: Delta)
      requires Valid()
      modifies this
      ensures Valid() && state == Do(old(state), DeltaArrives(d))
      ensures forall other :: other != d.id ==> Current(state.devices, other) == Current(old(state).devices, other)
    {
      PutCurrent(state.devices, d.id, DeviceAfter(Current(state.devices, d.id), d));
      var before := state;
      StepKeepsStore(before, DeltaArrives(d));
      var devices := Put(before.devices, d.id, DeviceAfter(Current(before.devices, d.id), d));
      var rx, tx := 0.0, 0.0;
      for i := 0 to |devices|
        invariant rx == SumRx(devices[..i]) && tx == SumTx(devices[..i])
      {
        rx, tx := rx + devices[i].device.rx, tx + devices[i].device.tx;
        SumsSnoc(devices, i, 0);
      }
      assert devices[..|devices|] == devices;
      var a := before.aggregate;
      var bucket := Bucket(d.at);
      if bucket > a.lastBucket {
        a := Aggregate(PushCapped(a.rxHistory, rx), PushCapped(a.txHistory, tx), rx, tx, bucket);
      } else {
        a := Aggregate(ReplaceLastCapped(a.rxHistory, rx), ReplaceLastCapped(a.txHistory, tx), rx, tx, bucket);
      }
      state := Store(devices, a);
    }

    method HydrateDevice(id: string, points: seq<Point>)
      requires Valid()
      modifies this
      ensures Valid() && state == Do(old(state), HistoryArrives(id, points))
      ensures Seeded(Current(old(state).devices, id), points, Current(state.devices, id))
      ensures forall other :: other != id ==> Current(state.devices, other) == Current(old(state).devices, other)
      ensures Coalesces(state.devices, state.aggregate)
    {
      HydratedIsSeeded(Current(state.devices, id), points);
      PutCurrent(state.devices, id, Hydrated(Current(state.devices, id), points));
      StepKeepsStore(state, HistoryArrives(id, points));
      var devices := Put(state.devices, id, Hydrated(Current(state.devices, id), points));
      assert devices == Do(state, HistoryArrives(id, points)).devices && DevicesOk(devices);
      assert forall i :: 0 <= i < |devices| ==> DeviceOk(devices[i].device);
      var aggregate := BuildAggregate(devices);
      AggregateCoalesces(devices);
      state := Store(devices, aggregate);
    }
  }

  // --------------------------------------------------------- one frame per second

  datatype Direction = Rx | Tx

  function Rate(d: Delta, dir: Direction): real {
    if dir.Rx? then d.rx else d.tx
  }

  function DeviceRate(d: Device, dir: Direction): real {
    if dir.Rx? then d.rx else d.tx
  }

  function Sum(devices: seq<Entry>, dir: Direction): real {
    if dir.Rx? then SumRx(devices) else SumTx(devices)
  }

  function History(a: Aggregate, dir: Direction): seq<real> {
    if dir.Rx? then a.rxHistory else a.txHistory
  }

  predicate Mentions(ds: seq<Delta>, id: string) {
    exists i :: 0 <= i < |ds| && ds[i].id == id
  }

  /** The reference: the sum, over devices heard of, of each device's latest rate. */
  function Total(ds: seq<Delta>, dir: Direction): real {
    if ds == [] then 0.0
    else (if Mentions(ds[1..], ds[0].id) then 0.0 else Rate(ds[0], dir)) + Total(ds[1..], dir)
  }

  function Latest(ds: seq<Delta>, id: string, dir: Direction): real {
    if ds == [] then 0.0
    else if ds[|ds| - 1].id == id then Rate(ds[|ds| - 1], dir)
    else Latest(ds[..|ds| - 1], id, dir)
  }

  /** Delta `i` is the last one before the clock moves on to a later second. */
  predicate EndsSecond(ds: seq<Delta>, i: nat)
    requires i < |ds|
  {
    i == |ds| - 1 || Bucket(ds[i + 1].at) > Bucket(ds[i].at)
  }

  /** The reference history: at the end of each second, the total at that moment. */
  function Frames(ds: seq<Delta>, k: nat, dir: Direction): seq<real>
    requires k <= |ds|
  {
    if k == 0 then []
    else Frames(ds, k - 1, dir) + if EndsSecond(ds, k - 1) then [Total(ds[..k], dir)] else []
  }

  function DeltaRun(ds: seq<Delta>): Store {
    if ds == [] then EMPTY_STORE else ApplyDelta(DeltaRun(ds[..|ds| - 1]), ds[|ds| - 1])
  }

  lemma {:induction false} PutSum(devices: seq<Entry>, id: string, d: Device, dir: Direction)
    ensures Sum(Put(devices, id, d), dir) == Sum(devices, dir) - DeviceRate(Current(devices, id), dir) + DeviceRate(d, dir)
  {
    if devices == [] {
      assert Put(devices, id, d)[1..] == [];
    } else if devices[0].id == id {
      assert Put(devices, id, d)[1..] == devices[1..];
    } else {
      PutSum(devices[1..], id, d, dir);
      assert Put(devices, id, d)[1..] == Put(devices[1..], id, d);
    }
  }

  lemma {:induction false} PutFind(devices: seq<Entry>, id: string, d: Device, other: string)
    ensures Find(Put(devices, id, d), other) == if other == id then Some(d) else Find(devices, other)
  {
    if devices == [] {
      assert Put(devices, id, d)[1..] == [];
    } else if devices[0].id == id {
      assert Put(devices, id, d)[1..] == devices[1..];
    } else {
      PutFind(devices[1..], id, d, other);
      assert Put(devices, id, d)[1..] == Put(devices[1..], id, d);
    }
  }

  lemma {:induction false} TotalAppend(ds: seq<Delta>, d: Delta, dir: Direction)
    ensures Total(ds + [d], dir) == Total(ds, dir) - Latest(ds, d.id, dir) + Rate(d, dir)
  {
    if ds == [] {
      assert ds + [d] == [d];
    } else {
      var tail := ds[1..];
      TotalAppend(tail, d, dir);
      assert (ds + [d])[1..] == tail + [d];
      MentionsAppend(tail, d, ds[0].id);
      LatestCons(ds, d.id, dir);
    }
  }

  lemma {:induction false} MentionsAppend(ds: seq<Delta>, d: Delta, id: string)
    ensures Mentions(ds + [d], id) <==> Mentions(ds, id) || d.id == id
  {
    if Mentions(ds, id) {
      var i :| 0 <= i < |ds| && ds[i].id == id;
      assert (ds + [d])[i].id == id;
    }
    if d.id == id { assert (ds + [d])[|ds|].id == id; }
  }

  lemma {:induction false} LatestCons(ds: seq<Delta>, id: string, dir: Direction)
    requires ds != []
    ensures Latest(ds, id, dir) ==
            if Mentions(ds[1..], id) then Latest(ds[1..], id, dir)
            else if ds[0].id == id then Rate(ds[0], dir) else 0.0
    ensures !Mentions(ds[1..], id) ==> Latest(ds[1..], id, dir) == 0.0
  {
    var n := |ds| - 1;
    if n > 0 {
      LatestCons(ds[..n], id, dir);
      assert ds[1..][..n - 1] == ds[..n][1..];
      assert ds[1..] == ds[..n][1..] + [ds[n]];
      MentionsAppend(ds[..n][1..], ds[n], id);
    } else {
      assert ds[1..] == [] && ds[..n] == [];
    }
  }

  lemma {:induction false} StoreHoldsLatest(ds: seq<Delta>, id: string, dir: Direction)
    ensures DeviceRate(Current(DeltaRun(ds).devices, id), dir) == Latest(ds, id, dir)
  {
    if ds != [] {
      var before, d := DeltaRun(ds[..|ds| - 1]), ds[|ds| - 1];
      StoreHoldsLatest(ds[..|ds| - 1], id, dir);
      PutFind(before.devices, d.id, DeviceAfter(Current(before.devices, d.id), d), id);
    }
  }

  lemma {:induction false} SumIsTotal(ds: seq<Delta>, dir: Direction)
    ensures Sum(DeltaRun(ds).devices, dir) == Total(ds, dir)
  {
    if ds != [] {
      var front, d := ds[..|ds| - 1], ds[|ds| - 1];
      Snoc(ds);
      SumIsTotal(front, dir);
      DeltaKeepsTotal(front, d, dir);
    }
  }

  lemma {:induction false} Snoc(ds: seq<Delta>)
    requires ds != []
    ensures ds == ds[..|ds| - 1] + [ds[|ds| - 1]]
  {
  }

  lemma {:induction false} DeltaKeepsTotal(ds: seq<Delta>, d: Delta, dir: Direction)
    requires Sum(DeltaRun(ds).devices, dir) == Total(ds, dir)
    ensures Sum(DeltaRun(ds + [d]).devices, dir) == Total(ds + [d], dir)
  {
    assert (ds + [d])[..|ds|] == ds;
    var before, rate := DeltaRun(ds), Rate(d, dir);
    assert DeltaRun(ds + [d]) == ApplyDelta(before, d);
    var sum, share := Sum(before.devices, dir), DeviceRate(Current(before.devices, d.id), dir);
    assert Sum(DeltaRun(ds + [d]).devices, dir) == sum - share + rate by { DeltaSum(before, d, dir); }
    assert Total(ds + [d], dir) == sum - share + rate by {
      StoreHoldsLatest(ds, d.id, dir);
      TotalAppend(ds, d, dir);
    }
  }

  /** A delta replaces its device's share of the sum. */
  lemma {:induction false} DeltaSum(s: Store, d: Delta, dir: Direction)
    ensures Sum(ApplyDelta(s, d).devices, dir)
         == Sum(s.devices, dir) - DeviceRate(Current(s.devices, d.id), dir) + Rate(d, dir)
  {
    PutSum(s.devices, d.id, DeviceAfter(Current(s.devices, d.id), d), dir);
  }

  lemma {:induction false} FramesPrefix(ds: seq<Delta>, k: nat, dir: Direction)
    requires ds != [] && k < |ds| - 1
    ensures Frames(ds, k, dir) == Frames(ds[..|ds| - 1], k, dir)
  {
    if k > 0 {
      FramesPrefix(ds, k - 1, dir);
      assert ds[..k] == ds[..|ds| - 1][..k];
    }
  }

  /** How one more delta changes the reference: a new frame if the clock moved on to a
      later second, a corrected last frame otherwise. */
  lemma {:induction false} FramesStep(ds: seq<Delta>, dir: Direction)
    requires |ds| > 1
    ensures var n := |ds| - 1;
            var was, now := Frames(ds[..n], n, dir), Frames(ds, n + 1, dir);
            && was != []
            && now == if Bucket(ds[n].at) > Bucket(ds[n - 1].at) then was + [Total(ds, dir)]
                      else was[|was| - 1 := Total(ds, dir)]
  {
    var n := |ds| - 1;
    FramesPrefix(ds, n - 1, dir);
    LastFrame(ds[..n], dir);
    LastFrame(ds, dir);
    BeforeLastFrame(ds, dir);
  }

  lemma {:induction false} LastFrame(ds: seq<Delta>, dir: Direction)
    requires ds != []
    ensures Frames(ds, |ds|, dir) == Frames(ds, |ds| - 1, dir) + [Total(ds, dir)]
  {
    assert ds[..|ds|] == ds;
  }

  lemma {:induction false} BeforeLastFrame(ds: seq<Delta>, dir: Direction)
    requires |ds| > 1
    ensures var n := |ds| - 1;
            Frames(ds, n, dir) == Frames(ds, n - 1, dir) +
              if Bucket(ds[n].at) > Bucket(ds[n - 1].at) then [Total(ds[..n], dir)] else []
  {
  }

  lemma {:induction false} HistoryStep(s: Store, d: Delta, dir: Direction)
    ensures var t := ApplyDelta(s, d);
            && t.aggregate.lastBucket == Bucket(d.at)
            && History(t.aggregate, dir) ==
               if Bucket(d.at) > s.aggregate.lastBucket
               then PushCapped(History(s.aggregate, dir), Sum(t.devices, dir))
               else ReplaceLastCapped(History(s.aggregate, dir), Sum(t.devices, dir))
  {
  }

  /** From an empty store, for every run of deltas whatever their timestamps: the
      aggregate history is the last 1800 frames of the reference, one at the end of each
      second the clock moved on from, each the sum of last-known rates at that moment. */
  lemma {:induction false} HistoryIsFrames(ds: seq<Delta>, dir: Direction)
    requires ds != []
    ensures History(DeltaRun(ds).aggregate, dir) == Last(Frames(ds, |ds|, dir), HISTORY_CAP)
    ensures DeltaRun(ds).aggregate.lastBucket == Bucket(ds[|ds| - 1].at)
  {
    var n := |ds| - 1;
    var front := ds[..n];
    var total := Total(ds, dir);
    SumIsTotal(ds, dir);
    HistoryStep(DeltaRun(front), ds[n], dir);
    if n == 0 {
      assert ds[..1] == ds && Frames(ds, 0, dir) == [];
      assert Frames(ds, 1, dir) == [total];
    } else {
      HistoryIsFrames(front, dir);
      FramesStep(ds, dir);
      var was := Frames(front, n, dir);
      if Bucket(ds[n].at) > Bucket(ds[n - 1].at) {
        PushIsLast(was, total);
      } else {
        ReplaceIsLast(was, total);
      }
    }
  }

  /** The clock never goes back to an earlier second. */
  predicate SecondsNeverDecrease(ds: seq<Delta>) {
    forall i, j :: 0 <= i < j < |ds| ==> Bucket(ds[i].at) <= Bucket(ds[j].at)
  }

  /** Everything up to delta `i` is everything up to the end of its second. */
  predicate ClosesSecond(ds: seq<Delta>, i: nat)
    requires i < |ds|
  {
    forall j :: 0 <= j < |ds| ==> (Bucket(ds[j].at) <= Bucket(ds[i].at) <==> j <= i)
  }

  /** When timestamps do not go back, a delta ends its second exactly when no later delta
      falls into that second, and everything up to it is everything up to that second's
      end: one frame per distinct second, each the state at that second's end. */
  lemma {:induction false} OrderedFramesAreSeconds(ds: seq<Delta>, i: nat)
    requires SecondsNeverDecrease(ds) && i < |ds|
    ensures EndsSecond(ds, i) <==> forall j :: i < j < |ds| ==> Bucket(ds[j].at) != Bucket(ds[i].at)
    ensures EndsSecond(ds, i) ==> ClosesSecond(ds, i)
  {
    if EndsSecond(ds, i) && i + 1 < |ds| {
      forall j | i < j < |ds| ensures Bucket(ds[j].at) > Bucket(ds[i].at) {
        assert j == i + 1 || Bucket(ds[i + 1].at) <= Bucket(ds[j].at);
      }
    }
    forall j | 0 <= j <= i ensures Bucket(ds[j].at) <= Bucket(ds[i].at) {
      assert j == i || Bucket(ds[j].at) <= Bucket(ds[i].at);
    }
    if !EndsSecond(ds, i) {
      assert Bucket(ds[i].at) <= Bucket(ds[i + 1].at);
    }
  }

  /** The next frame from delta `k` on belongs to no later second than `k`'s. */
  lemma {:induction false} NextEnd(ds: seq<Delta>, k: nat) returns (e: nat)
    requires k < |ds|
    ensures k <= e < |ds| && EndsSecond(ds, e) && Bucket(ds[e].at) <= Bucket(ds[k].at)
    decreases |ds| - k
  {
    if EndsSecond(ds, k) { e := k; } else { e := NextEnd(ds, k + 1); }
  }

  /** Exactly when the history is one frame per second: every frame is the state at its
      second's end if and only if the seconds of the deltas never decrease. */
  lemma {:induction false} FramesCloseSecondsIff(ds: seq<Delta>)
    ensures (forall i :: 0 <= i < |ds| && EndsSecond(ds, i) ==> ClosesSecond(ds, i)) <==> SecondsNeverDecrease(ds)
  {
    if SecondsNeverDecrease(ds) {
      forall i | 0 <= i < |ds| && EndsSecond(ds, i) ensures ClosesSecond(ds, i) {
        OrderedFramesAreSeconds(ds, i);
      }
    }
    if forall i :: 0 <= i < |ds| && EndsSecond(ds, i) ==> ClosesSecond(ds, i) {
      forall i, j | 0 <= i < j < |ds| ensures Bucket(ds[i].at) <= Bucket(ds[j].at) {
        var e := NextEnd(ds, j);
        assert ClosesSecond(ds, e);
      }
    }
  }

  function LateDeltas(a: string): seq<Delta> {
    [Delta(a, 1.0, 0.0, 5000, 0.0, 0.0), Delta(a, 2.0, 0.0, 6000, 0.0, 0.0),
     Delta(a, 3.0, 0.0, 5000, 0.0, 0.0), Delta(a, 4.0, 0.0, 6000, 0.0, 0.0)]
  }

  /** A run that breaks it: seconds 5, 6, 5, 6. The bucket marker moves back, deltas 0 and
      2 both end second 5, and the history holds three frames for two seconds. */
  lemma {:induction false} LateDeltaRepeatsASecond(a: string)
    ensures var ds := LateDeltas(a);
            && EndsSecond(ds, 0) && EndsSecond(ds, 2) && Bucket(ds[0].at) == 5 == Bucket(ds[2].at)
            && (forall i :: 0 <= i < |ds| ==> Bucket(ds[i].at) == 5 || Bucket(ds[i].at) == 6)
            && DeltaRun(ds).aggregate.rxHistory == [1.0, 3.0, 4.0]
  {
    var ds := LateDeltas(a);
    HistoryIsFrames(ds, Rx);
    SawtoothFrames(ds, Rx);
    OneDeviceTotal(ds[..1], Rx);
    OneDeviceTotal(ds[..3], Rx);
    OneDeviceTotal(ds, Rx);
  }

  lemma {:induction false} SawtoothFrames(ds: seq<Delta>, dir: Direction)
    requires |ds| == 4 && EndsSecond(ds, 0) && !EndsSecond(ds, 1) && EndsSecond(ds, 2)
    ensures Frames(ds, |ds|, dir) == [Total(ds[..1], dir), Total(ds[..3], dir), Total(ds, dir)]
  {
    var n := |ds|;
    assert ds[..n] == ds && Frames(ds, n - 4, dir) == [];
    assert Frames(ds, n - 3, dir) == [Total(ds[..1], dir)];
    assert Frames(ds, n - 2, dir) == Frames(ds, n - 3, dir);
  }

  lemma {:induction false} OneDeviceTotal(ds: seq<Delta>, dir: Direction)
    requires ds != [] && forall i :: 0 <= i < |ds| ==> ds[i].id == ds[0].id
    ensures Total(ds, dir) == Rate(ds[|ds| - 1], dir)
  {
    if |ds| > 1 {
      assert ds[1..][0].id == ds[0].id;
      OneDeviceTotal(ds[1..], dir);
    } else {
      assert Total(ds[1..], dir) == 0.0 && !Mentions(ds[1..], ds[0].id);
    }
  }

  // ------------------------------------------------------- one device over a run

  /** The deltas of one device, in order. */
  function Own(ds: seq<Delta>, id: string): seq<Delta> {
    if ds == [] then []
    else Own(ds[..|ds| - 1], id) + if ds[|ds| - 1].id == id then [ds[|ds| - 1]] else []
  }

  function Rates(own: seq<Delta>, dir: Direction): seq<real> {
    seq(|own|, i requires 0 <= i < |own| => Rate(own[i], dir))
  }

  function Lifetimes(own: seq<Delta>, dir: Direction): seq<real> {
    seq(|own|, i requires 0 <= i < |own| => if dir.Rx? then own[i].lifeRx else own[i].lifeTx)
  }

  function Added(s: seq<real>): real {
    if s == [] then 0.0 else Added(s[..|s| - 1]) + s[|s| - 1]
  }

  /** The time of the last delta that moved any bytes, or zero. */
  function LastSeen(own: seq<Delta>): int {
    if own == [] then 0
    else if own[|own| - 1].rx > 0.0 || own[|own| - 1].tx > 0.0 then own[|own| - 1].at
    else LastSeen(own[..|own| - 1])
  }

  /** One direction of a device after the deltas `own`. */
  ghost predicate Follows(rate: real, history: seq<real>, life: real, peak: real, total: real, own: seq<Delta>, dir: Direction) {
    && rate == (if own == [] then 0.0 else Rate(own[|own| - 1], dir))
    && history == Last(Rates(own, dir), HISTORY_CAP)
    && IsMaxOf(life, 0.0, Lifetimes(own, dir)) && IsMaxOf(peak, 0.0, Rates(own, dir))
    && total == Added(Rates(own, dir))
  }

  ghost predicate Tracks(d: Device, own: seq<Delta>) {
    && Follows(d.rx, d.rxHistory, d.lifeRx, d.peakRx, d.totalRx, own, Rx)
    && Follows(d.tx, d.txHistory, d.lifeTx, d.peakTx, d.totalTx, own, Tx)
    && d.lastTs == (if own == [] then 0 else own[|own| - 1].at) && d.lastSeenTs == LastSeen(own)
  }

  lemma {:induction false} MaxStep(m: real, floor: real, s: seq<real>, next: real)
    requires IsMaxOf(m, floor, s)
    ensures IsMaxOf(MaxReal(m, next), floor, s + [next])
  {
    var t := s + [next];
    if m < next {
      assert t[|s|] == next;
    } else if m != floor {
      var i :| 0 <= i < |s| && s[i] == m;
      assert t[i] == m;
    }
  }

  lemma {:induction false} FollowsStep(rate: real, history: seq<real>, life: real, peak: real, total: real,
                                       own: seq<Delta>, d: Delta, dir: Direction)
    requires Follows(rate, history, life, peak, total, own, dir)
    ensures Follows(Rate(d, dir), PushCapped(history, Rate(d, dir)),
                    MaxReal(life, if dir.Rx? then d.lifeRx else d.lifeTx), MaxReal(peak, Rate(d, dir)),
                    total + Rate(d, dir), own + [d], dir)
  {
    var next := Rate(d, dir);
    assert Rates(own + [d], dir) == Rates(own, dir) + [next];
    assert Lifetimes(own + [d], dir) == Lifetimes(own, dir) + [if dir.Rx? then d.lifeRx else d.lifeTx];
    PushIsLast(Rates(own, dir), next);
    MaxStep(life, 0.0, Lifetimes(own, dir), if dir.Rx? then d.lifeRx else d.lifeTx);
    MaxStep(peak, 0.0, Rates(own, dir), next);
    assert (Rates(own, dir) + [next])[..|own|] == Rates(own, dir);
  }

  lemma {:induction false} TracksStep(cur: Device, own: seq<Delta>, d: Delta)
    requires Tracks(cur, own)
    ensures Tracks(DeviceAfter(cur, d), own + [d])
  {
    FollowsStep(cur.rx, cur.rxHistory, cur.lifeRx, cur.peakRx, cur.totalRx, own, d, Rx);
    FollowsStep(cur.tx, cur.txHistory, cur.lifeTx, cur.peakTx, cur.totalTx, own, d, Tx);
    assert (own + [d])[..|own|] == own;
  }

  /** From an empty store, for every run of deltas: a device's history is the last 1800
      rates of its own deltas, its peak and lifetime totals their maxima, its total their
      sum, and its last-seen mark the time of the last one that moved bytes. */
  lemma {:induction false} DeviceTracksItsDeltas(ds: seq<Delta>, id: string)
    ensures Tracks(Current(DeltaRun(ds).devices, id), Own(ds, id))
  {
    if ds != [] {
      var front, d := ds[..|ds| - 1], ds[|ds| - 1];
      DeviceTracksItsDeltas(front, id);
      OneMore(DeltaRun(front), Own(front, id), d, id);
    } else {
      NothingTracked();
    }
  }

  lemma {:induction false} NothingTracked()
    ensures Tracks(EMPTY_DEVICE, [])
  {
  }

  lemma {:induction false} OneMore(s: Store, own: seq<Delta>, d: Delta, id: string)
    requires Tracks(Current(s.devices, id), own)
    ensures Tracks(Current(ApplyDelta(s, d).devices, id), own + if d.id == id then [d] else [])
  {
    PutCurrent(s.devices, d.id, DeviceAfter(Current(s.devices, d.id), d));
    if d.id == id {
      TracksStep(Current(s.devices, id), own, d);
    } else {
      assert own + [] == own;
    }
  }
}
