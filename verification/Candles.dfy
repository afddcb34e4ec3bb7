/** One-minute candles (crates/zerovpn-worker/src/wg_poller.rs, `Bar`,
    `CandleAccumulator`, `drain_bars`, `floor_minute`). */
module Candles {
  import opened Common

  type Id = nat

  datatype Bar = Bar(rxHigh: int, rxLow: int, rxSum: int, txHigh: int, txLow: int, txSum: int, samples: nat)

  const EMPTY_BAR := Bar(0, 0, 0, 0, 0, 0, 0)

  datatype CandleRow = CandleRow(id: Id, bucketStart: int, bar: Bar)

  type Bars = map<Id, Bar>

  function Min(a: int, b: int): int {
    if a < b then a else b
  }

  /** `Bar::observe`. */
  function Observe(b: Bar, rx: int, tx: int): Bar {
    if b.samples == 0 then Bar(rx, rx, b.rxSum + rx, tx, tx, b.txSum + tx, 1)
    else Bar(Max(b.rxHigh, rx), Min(b.rxLow, rx), b.rxSum + rx,
             Max(b.txHigh, tx), Min(b.txLow, tx), b.txSum + tx, b.samples + 1)
  }

  predicate HasTraffic(b: Bar) {
    b.rxSum > 0 || b.txSum > 0
  }

  /** `floor_minute`, in seconds. */
  function FloorMinute(t: int): (m: int)
    ensures m <= t < m + 60 && m % 60 == 0
  {
    t - t % 60
  }

  function Get(bars: Bars, id: Id): Bar {
    if id in bars then bars[id] else EMPTY_BAR
  }

  /** The rows `drain_bars` yields, in any order and each once. */
  ghost predicate Drains(rows: seq<CandleRow>, bars: Bars, bucket: int) {
    && (forall i :: 0 <= i < |rows| ==>
          rows[i].id in bars && rows[i] == CandleRow(rows[i].id, bucket, bars[rows[i].id]) && HasTraffic(rows[i].bar))
    && (forall id :: id in bars && HasTraffic(bars[id]) ==> CandleRow(id, bucket, bars[id]) in rows)
    && (forall i, j :: 0 <= i < j < |rows| ==> rows[i].id != rows[j].id)
  }

  method DrainBars(bars: Bars, bucket: int) returns (rows: seq<CandleRow>)
    ensures Drains(rows, bars, bucket)
  {
    rows := [];
    var rest := bars.Keys;
    while rest != {}
      invariant rest <= bars.Keys
      invariant forall i :: 0 <= i < |rows| ==> rows[i].id in bars && rows[i].id !in rest
      invariant forall i :: 0 <= i < |rows| ==> rows[i] == CandleRow(rows[i].id, bucket, bars[rows[i].id]) && HasTraffic(rows[i].bar)
      invariant forall id :: id in bars && id !in rest && HasTraffic(bars[id]) ==> CandleRow(id, bucket, bars[id]) in rows
      invariant forall i, j :: 0 <= i < j < |rows| ==> rows[i].id != rows[j].id
      decreases rest
    {
      var id :| id in rest;
      rest := rest - {id};
      if HasTraffic(bars[id]) {
        rows := rows + [CandleRow(id, bucket, bars[id])];
      }
    }
  }

  // ------------------------------------------------------------- accumulator

  datatype Rates = Rates(rx: int, tx: int)

  function TotalRx(seen: seq<Rates>): int {
    if seen == [] then 0 else TotalRx(seen[..|seen| - 1]) + seen[|seen| - 1].rx
  }

  function TotalTx(seen: seq<Rates>): int {
    if seen == [] then 0 else TotalTx(seen[..|seen| - 1]) + seen[|seen| - 1].tx
  }

  /** The bar says of the rates it has seen how many they are, what they add up to, and
      which were the highest and the lowest. */
  ghost predicate Summarises(b: Bar, seen: seq<Rates>) {
    && b.samples == |seen| && b.rxSum == TotalRx(seen) && b.txSum == TotalTx(seen)
    && (forall i :: 0 <= i < |seen| ==> b.rxLow <= seen[i].rx <= b.rxHigh && b.txLow <= seen[i].tx <= b.txHigh)
    && (seen != [] ==>
          && (exists i :: 0 <= i < |seen| && seen[i].rx == b.rxHigh) && (exists i :: 0 <= i < |seen| && seen[i].rx == b.rxLow)
          && (exists i :: 0 <= i < |seen| && seen[i].tx == b.txHigh) && (exists i :: 0 <= i < |seen| && seen[i].tx == b.txLow))
  }

  /** Folding one more observation into a bar keeps it the summary of all of them. */
  lemma {:induction false} ObserveSummarises(b: Bar, seen: seq<Rates>, rx: int, tx: int)
    requires Summarises(b, seen)
    ensures Summarises(Observe(b, rx, tx), seen + [Rates(rx, tx)])
  {
    var all, a := seen + [Rates(rx, tx)], Observe(b, rx, tx);
    assert all[..|seen|] == seen && all[|seen|] == Rates(rx, tx);
    if seen != [] {
      var h :| 0 <= h < |seen| && seen[h].rx == b.rxHigh;
      var l :| 0 <= l < |seen| && seen[l].rx == b.rxLow;
      var h' :| 0 <= h' < |seen| && seen[h'].tx == b.txHigh;
      var l' :| 0 <= l' < |seen| && seen[l'].tx == b.txLow;
      assert all[if b.rxHigh < rx then |seen| else h].rx == a.rxHigh;
      assert all[if rx < b.rxLow then |seen| else l].rx == a.rxLow;
      assert all[if b.txHigh < tx then |seen| else h'].tx == a.txHigh;
      assert all[if tx < b.txLow then |seen| else l'].tx == a.txLow;
    }
  }

  /** The rates each id has shown in one minute. */
  type Seen = map<Id, seq<Rates>>

  function Noted(seen: Seen, id: Id, rx: int, tx: int): Seen {
    seen[id := (if id in seen then seen[id] else []) + [Rates(rx, tx)]]
  }

  ghost predicate BarsSummarise(bars: Bars, seen: Seen) {
    && bars.Keys == seen.Keys
    && forall id {:trigger Summarises(bars[id], seen[id])} :: id in bars ==> Summarises(bars[id], seen[id])
  }

  lemma {:induction false} NotedIsSummarised(bars: Bars, seen: Seen, id: Id, rx: int, tx: int)
    requires BarsSummarise(bars, seen)
    ensures BarsSummarise(bars[id := Observe(Get(bars, id), rx, tx)], Noted(seen, id, rx, tx))
  {
    var shown := if id in seen then seen[id] else [];
    assert id in bars ==> Summarises(bars[id], seen[id]);
    ObserveSummarises(Get(bars, id), shown, rx, tx);
    var bars', seen' := bars[id := Observe(Get(bars, id), rx, tx)], Noted(seen, id, rx, tx);
    forall x | x in bars' ensures Summarises(bars'[x], seen'[x]) {
      assert x != id ==> Summarises(bars[x], seen[x]);
    }
  }

  predicate Moved(seen: seq<Rates>) {
    TotalRx(seen) > 0 || TotalTx(seen) > 0
  }

  /** Exactly the ids that moved bytes have a row, one each, and each row summarises what
      its id has shown. */
  ghost predicate Reports(rows: seq<CandleRow>, seen: Seen, minute: int) {
    && (forall i :: 0 <= i < |rows| ==>
          && rows[i].id in seen && rows[i].bucketStart == minute
          && Summarises(rows[i].bar, seen[rows[i].id]) && Moved(seen[rows[i].id]))
    && (forall id :: id in seen && Moved(seen[id]) ==>
          exists i :: 0 <= i < |rows| && rows[i].id == id)
    && (forall i, j :: 0 <= i < j < |rows| ==> rows[i].id != rows[j].id)
  }

  /** An id that has only shown zero rates has not moved. */
  lemma {:induction false} IdleHasNotMoved(seen: seq<Rates>)
    requires forall i :: 0 <= i < |seen| ==> seen[i] == Rates(0, 0)
    ensures !Moved(seen)
  {
    IdleTotals(seen);
  }

  lemma {:induction false} IdleTotals(seen: seq<Rates>)
    requires forall i :: 0 <= i < |seen| ==> seen[i] == Rates(0, 0)
    ensures TotalRx(seen) == 0 && TotalTx(seen) == 0
  {
    if seen != [] { IdleTotals(seen[..|seen| - 1]); }
  }

  lemma {:induction false} DrainedRowsReport(rows: seq<CandleRow>, bars: Bars, seen: Seen, minute: int)
    requires Drains(rows, bars, minute) && BarsSummarise(bars, seen)
    ensures Reports(rows, seen, minute)
  {
    forall i | 0 <= i < |rows| ensures Summarises(rows[i].bar, seen[rows[i].id]) && Moved(seen[rows[i].id]) {
      assert Summarises(bars[rows[i].id], seen[rows[i].id]);
    }
    forall id | id in seen && Moved(seen[id])
      ensures exists i :: 0 <= i < |rows| && rows[i].id == id
    {
      assert Summarises(bars[id], seen[id]);
      assert CandleRow(id, minute, bars[id]) in rows;
    }
  }

  /** One map of bars for devices and one for servers, with what each id has shown in the
      minute in progress. */
  class CandleAccumulator {
    var minute: Option<int>
    var devices: Bars
    var servers: Bars
    ghost var deviceRates: Seen
    ghost var serverRates: Seen

    ghost predicate Valid()
      reads this
    {
      BarsSummarise(devices, deviceRates) && BarsSummarise(servers, serverRates)
    }

    constructor ()
      ensures Valid() && minute.None? && deviceRates == map[] && serverRates == map[]
    {
      minute := None;
      devices, servers := map[], map[];
      deviceRates, serverRates := map[], map[];
    }

    /** `roll_to`: drains exactly when a different minute was in progress. */
    method RollTo(bucket: int) returns (flushed: Option<(seq<CandleRow>, seq<CandleRow>)>)
      requires Valid()
      modifies this
      ensures Valid() && minute == Some(bucket)
      ensures flushed.Some? <==> old(minute).Some? && old(minute).value != bucket
      ensures flushed.Some? ==> deviceRates == map[] && serverRates == map[]
      ensures flushed.Some? ==> Drains(flushed.value.0, old(devices), old(minute.value))
      ensures flushed.Some? ==> Drains(flushed.value.1, old(servers), old(minute.value))
      ensures flushed.Some? ==> Reports(flushed.value.0, old(deviceRates), old(minute.value))
      ensures flushed.Some? ==> Reports(flushed.value.1, old(serverRates), old(minute.value))
      ensures flushed.None? ==> deviceRates == old(deviceRates) && serverRates == old(serverRates)
      ensures flushed.None? ==> devices == old(devices) && servers == old(servers)
    {
      if minute.Some? && minute.value != bucket {
        var d := DrainBars(devices, minute.value);
        var s := DrainBars(servers, minute.value);
        DrainedRowsReport(d, devices, deviceRates, minute.value);
        DrainedRowsReport(s, servers, serverRates, minute.value);
        devices, servers, minute := map[], map[], Some(bucket);
        deviceRates, serverRates := map[], map[];
        return Some((d, s));
      }
      minute := Some(bucket);
      return None;
    }

    /** The id's bar goes on summarising all its rates of the minute; no other changes. */
    method ObserveDevice(id: Id, rx: int, tx: int)
      requires Valid()
      modifies this`devices, this`deviceRates
      ensures Valid() && deviceRates == Noted(old(deviceRates), id, rx, tx)
      ensures devices == Do(State(minute, old(devices), []), Sample(id, rx, tx)).bars
    {
      NotedIsSummarised(devices, deviceRates, id, rx, tx);
      devices := devices[id := Observe(Get(devices, id), rx, tx)];
      deviceRates := Noted(deviceRates, id, rx, tx);
    }

    method ObserveServer(id: Id, rx: int, tx: int)
      requires Valid()
      modifies this`servers, this`serverRates
      ensures Valid() && serverRates == Noted(old(serverRates), id, rx, tx)
      ensures servers == Do(State(minute, old(servers), []), Sample(id, rx, tx)).bars
    {
      NotedIsSummarised(servers, serverRates, id, rx, tx);
      servers := servers[id := Observe(Get(servers, id), rx, tx)];
      serverRates := Noted(serverRates, id, rx, tx);
    }
  }

  // -------------------------------------------------------------------- runs

  /** A tick rolls to its own minute; samples of that tick follow it. */
  datatype Event = Tick(now: int) | Sample(id: Id, rx: int, tx: int)

  /** The bars of one drained minute. */
  datatype Batch = Batch(minute: int, bars: Bars)

  /** One side of the accumulator, with everything it has drained so far. */
  datatype State = State(minute: Option<int>, bars: Bars, drained: seq<Batch>)

  const START := State(None, map[], [])

  function Do(s: State, e: Event): State {
    match e
    case Tick(now) =>
      var bucket := FloorMinute(now);
      if s.minute.Some? && s.minute.value != bucket
      then State(Some(bucket), map[], s.drained + [Batch(s.minute.value, s.bars)])
      else s.(minute := Some(bucket))
    case Sample(id, rx, tx) => s.(bars := s.bars[id := Observe(Get(s.bars, id), rx, tx)])
  }

  function Run(events: seq<Event>): State {
    if events == [] then START else Do(Run(events[..|events| - 1]), events[|events| - 1])
  }

  /** Every poll ticks before it observes, and rates are not negative. */
  predicate Admissible(events: seq<Event>) {
    && (events != [] ==> events[0].Tick?)
    && (forall i :: 0 <= i < |events| && events[i].Sample? ==> events[i].rx >= 0 && events[i].tx >= 0)
  }

  predicate Ordered(events: seq<Event>) {
    forall i, j :: 0 <= i < j < |events| && events[i].Tick? && events[j].Tick? ==> events[i].now <= events[j].now
  }

  datatype Direction = Rx | Tx

  function Sum(b: Bar, dir: Direction): int {
    if dir.Rx? then b.rxSum else b.txSum
  }

  function Rate(e: Event, dir: Direction): int
    requires e.Sample?
  {
    if dir.Rx? then e.rx else e.tx
  }

  /** The minute of the last tick. */
  function Minute(events: seq<Event>): Option<int> {
    if events == [] then None
    else if events[|events| - 1].Tick? then Some(FloorMinute(events[|events| - 1].now))
    else Minute(events[..|events| - 1])
  }

  /** The reference: the rates observed for `id` during `minute`, over the whole run. */
  function Observed(events: seq<Event>, id: Id, minute: int, dir: Direction): int {
    if events == [] then 0
    else
      var front, e := events[..|events| - 1], events[|events| - 1];
      Observed(front, id, minute, dir)
      + if e.Sample? && e.id == id && Minute(front) == Some(minute) then Rate(e, dir) else 0
  }

  /** What the flushed rows for (id, minute) add up to; idle bars are not flushed. */
  function Flushed(drained: seq<Batch>, id: Id, minute: int, dir: Direction): int {
    if drained == [] then 0
    else
      var last := drained[|drained| - 1];
      Flushed(drained[..|drained| - 1], id, minute, dir)
      + if last.minute == minute && id in last.bars && HasTraffic(last.bars[id]) then Sum(last.bars[id], dir) else 0
  }

  function RowSum(rows: seq<CandleRow>, id: Id, dir: Direction): int {
    if rows == [] then 0 else (if rows[0].id == id then Sum(rows[0].bar, dir) else 0) + RowSum(rows[1..], id, dir)
  }

  lemma {:induction false} NoRowNoSum(rows: seq<CandleRow>, id: Id, dir: Direction)
    requires forall i :: 0 <= i < |rows| ==> rows[i].id != id
    ensures RowSum(rows, id, dir) == 0
  {
    if rows != [] { NoRowNoSum(rows[1..], id, dir); }
  }

  lemma {:induction false} OneRowOneSum(rows: seq<CandleRow>, id: Id, dir: Direction, k: nat)
    requires k < |rows| && rows[k].id == id
    requires forall i, j :: 0 <= i < j < |rows| ==> rows[i].id != rows[j].id
    ensures RowSum(rows, id, dir) == Sum(rows[k].bar, dir)
  {
    if k == 0 { NoRowNoSum(rows[1..], id, dir); }
    else { OneRowOneSum(rows[1..], id, dir, k - 1); }
  }

  /** The rows `drain_bars` returns, in whatever order, add up to what `Flushed` counts
      for their batch. */
  lemma {:induction false} DrainedRowsAddUp(rows: seq<CandleRow>, bars: Bars, minute: int, id: Id, dir: Direction)
    requires Drains(rows, bars, minute)
    ensures RowSum(rows, id, dir) == Flushed([Batch(minute, bars)], id, minute, dir)
  {
    var one := [Batch(minute, bars)];
    assert one[..0] == [] && Flushed([], id, minute, dir) == 0;
    if id in bars && HasTraffic(bars[id]) {
      var k :| 0 <= k < |rows| && rows[k] == CandleRow(id, minute, bars[id]);
      OneRowOneSum(rows, id, dir, k);
    } else {
      NoRowNoSum(rows, id, dir);
    }
  }

  function Live(s: State, id: Id, minute: int, dir: Direction): int {
    if s.minute == Some(minute) then Sum(Get(s.bars, id), dir) else 0
  }

  predicate BarOk(b: Bar) {
    && 0 <= b.rxSum && 0 <= b.txSum
    && (b.samples == 0 ==> b == EMPTY_BAR)
    && b.rxLow * b.samples <= b.rxSum <= b.rxHigh * b.samples
    && b.txLow * b.samples <= b.txSum <= b.txHigh * b.samples
  }

  predicate BarsOk(bars: Bars) {
    forall id :: id in bars ==> BarOk(bars[id])
  }

  lemma {:induction false} ObserveKeepsBar(b: Bar, rx: int, tx: int)
    requires BarOk(b) && rx >= 0 && tx >= 0
    ensures BarOk(Observe(b, rx, tx))
  {
    if b.samples > 0 {
      Bracket(b.rxLow, b.rxHigh, b.rxSum, b.samples, rx);
      Bracket(b.txLow, b.txHigh, b.txSum, b.samples, tx);
    }
  }

  /** Widening the bracket for one more sample keeps the sum inside it. */
  lemma {:induction false} Bracket(low: int, high: int, sum: int, n: nat, x: int)
    requires low * n <= sum <= high * n
    ensures Min(low, x) * (n + 1) <= sum + x <= Max(high, x) * (n + 1)
  {
    assert Min(low, x) * n <= low * n by { MulMono(Min(low, x), low, n); }
    assert high * n <= Max(high, x) * n by { MulMono(high, Max(high, x), n); }
  }

  lemma {:induction false} MulMono(a: int, b: int, n: nat)
    requires a <= b
    ensures a * n <= b * n
  {
  }

  /** Every live and every drained bar brackets its sum: low * samples <= sum <= high * samples. */
  lemma {:induction false} BarsStayBracketed(events: seq<Event>)
    requires Admissible(events)
    ensures BarsOk(Run(events).bars)
    ensures forall k :: 0 <= k < |Run(events).drained| ==> BarsOk(Run(events).drained[k].bars)
  {
    if events != [] {
      var front, e := events[..|events| - 1], events[|events| - 1];
      BarsStayBracketed(front);
      if e.Sample? {
        ObserveKeepsBar(Get(Run(front).bars, e.id), e.rx, e.tx);
      }
    }
  }

  lemma {:induction false} MinuteIsCurrent(events: seq<Event>)
    ensures Run(events).minute == Minute(events)
    ensures events != [] && events[0].Tick? ==> Minute(events).Some?
  {
    if events != [] {
      MinuteIsCurrent(events[..|events| - 1]);
    }
  }

  /** Conservation, for every run and even if the clock jumps back: per id and minute, the
      flushed rows plus the live bar add up to exactly the rates observed in that minute. */
  lemma {:induction false} NothingIsLost(events: seq<Event>, id: Id, minute: int, dir: Direction)
    requires Admissible(events)
    ensures Flushed(Run(events).drained, id, minute, dir) + Live(Run(events), id, minute, dir)
         == Observed(events, id, minute, dir)
  {
    if events != [] {
      var front, e := events[..|events| - 1], events[|events| - 1];
      NothingIsLost(front, id, minute, dir);
      MinuteIsCurrent(front);
      if e.Sample? {
        SampleAdds(Run(front), e, id, minute, dir);
      } else {
        SumsStayNonNegative(front);
        NothingBeforeFirstTick(front);
        TickMoves(Run(front), e.now, id, minute, dir);
      }
    }
  }

  function Counted(s: State, id: Id, minute: int, dir: Direction): int {
    Flushed(s.drained, id, minute, dir) + Live(s, id, minute, dir)
  }

  lemma {:induction false} SampleAdds(s: State, e: Event, id: Id, minute: int, dir: Direction)
    requires e.Sample?
    ensures Counted(Do(s, e), id, minute, dir)
         == Counted(s, id, minute, dir) + if e.id == id && s.minute == Some(minute) then Rate(e, dir) else 0
  {
  }

  lemma {:induction false} TickMoves(s: State, now: int, id: Id, minute: int, dir: Direction)
    requires SumsNonNegative(s.bars) && (s.minute.None? ==> s == START)
    ensures Counted(Do(s, Tick(now)), id, minute, dir) == Counted(s, id, minute, dir)
  {
    if s.minute.Some? { FlushAdds(s, id, minute, dir); }
  }

  predicate SumsNonNegative(bars: Bars) {
    forall id :: id in bars ==> bars[id].rxSum >= 0 && bars[id].txSum >= 0
  }

  lemma {:induction false} SumsStayNonNegative(events: seq<Event>)
    requires Admissible(events)
    ensures SumsNonNegative(Run(events).bars)
  {
    if events != [] { SumsStayNonNegative(events[..|events| - 1]); }
  }

  /** What is drained moves from the live bars to the flushed rows. */
  lemma {:induction false} FlushAdds(s: State, id: Id, minute: int, dir: Direction)
    requires s.minute.Some? && SumsNonNegative(s.bars)
    ensures Flushed(s.drained + [Batch(s.minute.value, s.bars)], id, minute, dir)
         == Flushed(s.drained, id, minute, dir) + Live(s, id, minute, dir)
  {
    var batch := Batch(s.minute.value, s.bars);
    assert (s.drained + [batch])[..|s.drained|] == s.drained;
  }

  lemma {:induction false} NothingBeforeFirstTick(events: seq<Event>)
    requires Admissible(events)
    ensures Run(events).minute.None? ==> Run(events) == START
  {
    MinuteIsCurrent(events);
  }

  predicate MinutesIncrease(drained: seq<Batch>, current: Option<int>) {
    && (forall i, j :: 0 <= i < j < |drained| ==> drained[i].minute < drained[j].minute)
    && (drained != [] ==> current.Some? && drained[|drained| - 1].minute < current.value)
  }

  /** While the clock does not go back, no minute is drained twice, hence no (id, minute)
      is flushed twice. */
  lemma {:induction false} NoMinuteTwice(events: seq<Event>)
    requires Ordered(events)
    ensures MinutesIncrease(Run(events).drained, Run(events).minute)
  {
    if events != [] {
      var front, e := events[..|events| - 1], events[|events| - 1];
      NoMinuteTwice(front);
      MinuteIsCurrent(front);
      if e.Tick? {
        if Minute(front).Some? {
          var k := LastTick(front);
          FloorIsMonotone(events[k].now, e.now);
        }
        TickIncreases(Run(front), e.now);
      }
    }
  }

  lemma {:induction false} FloorIsMonotone(a: int, b: int)
    requires a <= b
    ensures FloorMinute(a) <= FloorMinute(b)
  {
  }

  lemma {:induction false} TickIncreases(s: State, now: int)
    requires MinutesIncrease(s.drained, s.minute) && (s.minute.Some? ==> s.minute.value <= FloorMinute(now))
    ensures MinutesIncrease(Do(s, Tick(now)).drained, Do(s, Tick(now)).minute)
  {
  }

  lemma {:induction false} LastTick(events: seq<Event>) returns (k: nat)
    requires Minute(events).Some?
    ensures k < |events| && events[k].Tick? && Minute(events) == Some(FloorMinute(events[k].now))
    ensures forall i :: k < i < |events| ==> !events[i].Tick?
  {
    if events[|events| - 1].Tick? { k := |events| - 1; }
    else { k := LastTick(events[..|events| - 1]); }
  }

  /** The clock comes back to a minute it had left. */
  predicate ComesBack(events: seq<Event>, i: nat, j: nat, k: nat) {
    && i < j < k < |events| && events[i].Tick? && events[j].Tick? && events[k].Tick?
    && FloorMinute(events[i].now) == FloorMinute(events[k].now) != FloorMinute(events[j].now)
  }

  ghost predicate Revisits(events: seq<Event>) {
    exists i, j, k :: ComesBack(events, i, j, k)
  }

  /** Drained minutes are distinct, and the current one is not among them. */
  predicate MinutesDistinct(s: State) {
    && (forall i, j :: 0 <= i < j < |s.drained| ==> s.drained[i].minute != s.drained[j].minute)
    && (forall i :: 0 <= i < |s.drained| ==> s.minute != Some(s.drained[i].minute))
  }

  predicate TickOf(events: seq<Event>, i: nat, minute: int) {
    i < |events| && events[i].Tick? && FloorMinute(events[i].now) == minute
  }

  ghost predicate Visited(events: seq<Event>, minute: int) {
    exists i :: TickOf(events, i, minute)
  }

  function Left(drained: seq<Batch>): set<int> {
    set b | b in drained :: b.minute
  }

  lemma {:induction false} LeftOne(drained: seq<Batch>, b: Batch)
    ensures Left(drained + [b]) == Left(drained) + {b.minute}
  {
    assert forall x :: x in drained + [b] <==> x in drained || x == b;
    assert b in drained + [b];
  }

  lemma {:induction false} VisitedSnoc(events: seq<Event>, minute: int)
    requires events != []
    ensures var e := events[|events| - 1];
            Visited(events, minute) <==>
            Visited(events[..|events| - 1], minute) || (e.Tick? && FloorMinute(e.now) == minute)
  {
    var n := |events| - 1;
    if i :| TickOf(events[..n], i, minute) { assert TickOf(events, i, minute); }
    if i :| TickOf(events, i, minute) { assert i == n || TickOf(events[..n], i, minute); }
    if events[n].Tick? && FloorMinute(events[n].now) == minute { assert TickOf(events, n, minute); }
  }

  /** The minutes the accumulator has had are the minutes of the ticks. */
  lemma {:induction false} MinutesAreTicks(events: seq<Event>, minute: int)
    ensures Visited(events, minute) <==> Run(events).minute == Some(minute) || minute in Left(Run(events).drained)
  {
    if events != [] {
      var s, e := Run(events[..|events| - 1]), events[|events| - 1];
      MinutesAreTicks(events[..|events| - 1], minute);
      VisitedSnoc(events, minute);
      if e.Tick? && s.minute.Some? { LeftOne(s.drained, Batch(s.minute.value, s.bars)); }
    }
  }

  lemma {:induction false} EarlierReturn(events: seq<Event>, i: nat, j: nat, k: nat)
    requires events != []
    ensures k < |events| - 1 ==> (ComesBack(events, i, j, k) <==> ComesBack(events[..|events| - 1], i, j, k))
  {
  }

  /** If the clock has left a minute and is in it now, it has come back. */
  lemma {:induction false} BackNow(events: seq<Event>, i: nat, j: nat)
    requires i < j < |events| && events[i].Tick? && events[j].Tick?
    requires FloorMinute(events[i].now) != FloorMinute(events[j].now)
    ensures Minute(events) == Some(FloorMinute(events[i].now)) ==> Revisits(events)
  {
    if Minute(events).Some? {
      var l := LastTick(events);
      assert Minute(events) == Some(FloorMinute(events[i].now)) ==> ComesBack(events, i, j, l);
    }
  }

  /** Whether the last event returns to a minute the clock had left: a tick into a visited
      minute that is not the current one. */
  lemma {:induction false} LastReturns(events: seq<Event>)
    requires events != [] && !Revisits(events[..|events| - 1])
    ensures var front, e := events[..|events| - 1], events[|events| - 1];
            Revisits(events) <==>
            e.Tick? && Visited(front, FloorMinute(e.now)) && Minute(front) != Some(FloorMinute(e.now))
  {
    var n := |events| - 1;
    var front, e := events[..n], events[n];
    if Revisits(events) {
      var i: nat, j: nat, k: nat :| ComesBack(events, i, j, k);
      EarlierReturn(events, i, j, k);
      assert k == n && TickOf(front, i, FloorMinute(e.now));
      BackNow(front, i, j);
    }
    if e.Tick? && Visited(front, FloorMinute(e.now)) && Minute(front) != Some(FloorMinute(e.now)) {
      var i: nat :| TickOf(front, i, FloorMinute(e.now));
      MinuteAfter(front, i);
      var l := LastTick(front);
      assert ComesBack(events, i, l, n);
    }
  }

  lemma {:induction false} MinuteAfter(events: seq<Event>, i: nat)
    requires i < |events| && events[i].Tick?
    ensures Minute(events).Some?
  {
    if !events[|events| - 1].Tick? { MinuteAfter(events[..|events| - 1], i); }
  }

  /** Exactly when no minute is drained twice: the clock never comes back to a minute it
      had left. */
  lemma {:induction false} NoMinuteTwiceIff(events: seq<Event>)
    ensures MinutesDistinct(Run(events)) <==> !Revisits(events)
  {
    if events != [] {
      var n := |events| - 1;
      var front, e := events[..n], events[n];
      NoMinuteTwiceIff(front);
      DistinctStep(front, e);
      if Revisits(front) {
        var i: nat, j: nat, k: nat :| ComesBack(front, i, j, k);
        EarlierReturn(events, i, j, k);
        assert Revisits(events);
      } else {
        LastReturns(events);
      }
    }
  }

  lemma {:induction false} DistinctStep(front: seq<Event>, e: Event)
    ensures MinutesDistinct(Do(Run(front), e)) <==>
            && MinutesDistinct(Run(front))
            && (e.Tick? && Minute(front) != Some(FloorMinute(e.now)) ==> !Visited(front, FloorMinute(e.now)))
  {
    MinuteIsCurrent(front);
    if e.Tick? {
      var s, minute := Run(front), FloorMinute(e.now);
      MinutesAreTicks(front, minute);
      assert minute in Left(s.drained) <==> exists b :: 0 <= b < |s.drained| && s.drained[b].minute == minute;
      var t := Do(s, e);
      assert forall b :: 0 <= b < |s.drained| ==> t.drained[b] == s.drained[b];
      if s.minute.Some? && s.minute.value != minute {
        assert t.drained[|s.drained|].minute == s.minute.value;
      }
    }
  }

  lemma {:induction false} RunSnoc(events: seq<Event>, e: Event)
    ensures Run(events + [e]) == Do(Run(events), e)
  {
    assert (events + [e])[..|events|] == events;
  }

  /** A clock that steps back over a minute boundary flushes the same (id, minute) twice. */
  lemma {:induction false} ClockStepFlushesTwice(id: Id)
    ensures var events := [Tick(60)] + [Sample(id, 1, 0)] + [Tick(0)] + [Tick(60)] + [Sample(id, 2, 0)] + [Tick(120)];
            var d := Run(events).drained;
            |d| == 3 && d[0].minute == 60 == d[2].minute && id in d[0].bars && id in d[2].bars
  {
    var e1 := [Tick(60)];
    var e2 := e1 + [Sample(id, 1, 0)];
    var e3 := e2 + [Tick(0)];
    var e4 := e3 + [Tick(60)];
    var e5 := e4 + [Sample(id, 2, 0)];
    assert [] + [Tick(60)] == e1;
    RunSnoc([], Tick(60));
    RunSnoc(e1, Sample(id, 1, 0));
    RunSnoc(e2, Tick(0));
    RunSnoc(e3, Tick(60));
    RunSnoc(e4, Sample(id, 2, 0));
    RunSnoc(e5, Tick(120));
    assert Run(e2).minute == Some(60) && Run(e2).drained == [];
    assert Run(e4).minute == Some(60) && |Run(e4).drained| == 2;
  }
}
