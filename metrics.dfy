/** The rate engine: successive cumulative counter snapshots become per-second
    rates, recorded into the per-port history. */
module Metrics {
  import opened Text
  import opened Types
  import opened History

  /** The rates of one port over the last polling interval. */
  datatype PortMetrics = PortMetrics(
    rxBytesPerSec: real, txBytesPerSec: real,
    rxPacketsPerSec: real, txPacketsPerSec: real, errorRate: real)

  /** `PortMetrics::default`: every rate 0.0. */
  function DefaultMetrics(): (m: PortMetrics)
    ensures m.rxBytesPerSec == m.txBytesPerSec == m.rxPacketsPerSec == m.txPacketsPerSec == m.errorRate == 0.0
  {
    PortMetrics(0.0, 0.0, 0.0, 0.0, 0.0)
  }

  const NANOS_PER_SEC: nat := 1_000_000_000

  /** `u64::saturating_sub`. */
  function SaturatingSub(a: nat, b: nat): (r: nat)
    ensures a <= b ==> r == 0
    ensures b <= a ==> b + r == a
  {
    if a >= b then a - b else 0
  }

  /** `Duration::as_secs_f64` of a duration of `nanos` nanoseconds. */
  function Seconds(nanos: nat): (s: real)
    ensures s >= 0.0 && (s == 0.0 <==> nanos == 0)
    ensures s * 1_000_000_000.0 == nanos as real
  {
    nanos as real / 1_000_000_000.0
  }

  /** The time since the previous poll in nanoseconds: one second before the first
      poll, and `Instant::duration_since`, which saturates at zero, afterwards. */
  function ElapsedNanos(last: Option<nat>, now: nat): (d: nat)
    ensures last.None? ==> d == NANOS_PER_SEC
    ensures last.Some? && last.value <= now ==> last.value + d == now
    ensures last.Some? && now <= last.value ==> d == 0
  {
    match last
    case None => NANOS_PER_SEC
    case Some(t) => SaturatingSub(now, t)
  }

  /** The error sums of a snapshot fit in a `u64` (`calculate_rates` adds them unchecked). */
  predicate ErrorsFit(c: PortCounters) {
    c.rxErrors + c.txErrors <= U64_MAX
  }

  /** The errors counted in a snapshot: both directions summed. */
  function TotalErrors(c: PortCounters): nat {
    c.rxErrors + c.txErrors
  }

  /** `delta as f64 / secs`: the rate that accumulates `delta` over `secs` seconds. */
  function PerSecond(delta: nat, secs: real): (r: real)
    requires secs > 0.0
    ensures r >= 0.0 && r * secs == delta as real
    ensures delta == 0 ==> r == 0.0
  {
    delta as real / secs
  }

  /** `calculate_rates`: each counter's saturating increase divided by the elapsed
      time; errors are the saturating increase of the summed error counters. The
      error sums are formed only for a non-zero interval, so only then must they fit. */
  function CalculateRates(prev: PortCounters, current: PortCounters, nanos: nat): (m: PortMetrics)
    requires nanos > 0 ==> ErrorsFit(prev) && ErrorsFit(current)
    ensures nanos == 0 ==> m == DefaultMetrics()
    ensures nanos > 0 ==> var secs := Seconds(nanos);
      && m.rxBytesPerSec * secs == SaturatingSub(current.rxBytes, prev.rxBytes) as real
      && m.txBytesPerSec * secs == SaturatingSub(current.txBytes, prev.txBytes) as real
      && m.rxPacketsPerSec * secs == SaturatingSub(current.rxPackets, prev.rxPackets) as real
      && m.txPacketsPerSec * secs == SaturatingSub(current.txPackets, prev.txPackets) as real
      && m.errorRate * secs == SaturatingSub(TotalErrors(current), TotalErrors(prev)) as real
    ensures m.rxBytesPerSec >= 0.0 && m.txBytesPerSec >= 0.0 && m.rxPacketsPerSec >= 0.0
    ensures m.txPacketsPerSec >= 0.0 && m.errorRate >= 0.0
  {
    var secs := Seconds(nanos);
    if secs == 0.0 then DefaultMetrics()
    else
      PortMetrics(
        PerSecond(SaturatingSub(current.rxBytes, prev.rxBytes), secs),
        PerSecond(SaturatingSub(current.txBytes, prev.txBytes), secs),
        PerSecond(SaturatingSub(current.rxPackets, prev.rxPackets), secs),
        PerSecond(SaturatingSub(current.txPackets, prev.txPackets), secs),
        PerSecond(SaturatingSub(current.rxErrors + current.txErrors, prev.rxErrors + prev.txErrors), secs))
  }

  // ---- Single-field regressions -------------------------------------------

  /** The four counters that get a rate of their own. */
  datatype Counter = RxBytes | TxBytes | RxPackets | TxPackets

  function CounterOf(c: PortCounters, f: Counter): nat {
    match f
    case RxBytes => c.rxBytes
    case TxBytes => c.txBytes
    case RxPackets => c.rxPackets
    case TxPackets => c.txPackets
  }

  function WithCounter(c: PortCounters, f: Counter, v: u64): PortCounters {
    match f
    case RxBytes => c.(rxBytes := v)
    case TxBytes => c.(txBytes := v)
    case RxPackets => c.(rxPackets := v)
    case TxPackets => c.(txPackets := v)
  }

  function RateOf(m: PortMetrics, f: Counter): real {
    match f
    case RxBytes => m.rxBytesPerSec
    case TxBytes => m.txBytesPerSec
    case RxPackets => m.rxPacketsPerSec
    case TxPackets => m.txPacketsPerSec
  }

  /** A counter that went backwards (a reset or a wrap) yields a rate of 0 for that
      counter alone: every other rate, the error rate included, is as if it had not. */
  lemma RegressionClampsOnlyThatField(prev: PortCounters, current: PortCounters, f: Counter, v: u64, nanos: nat)
    requires ErrorsFit(prev) && ErrorsFit(current) && v <= CounterOf(prev, f)
    ensures var m, m' := CalculateRates(prev, current, nanos), CalculateRates(prev, WithCounter(current, f, v), nanos);
      && RateOf(m', f) == 0.0
      && (forall g :: g != f ==> RateOf(m', g) == RateOf(m, g))
      && m'.errorRate == m.errorRate
  {
    var m' := CalculateRates(prev, WithCounter(current, f, v), nanos);
    if nanos > 0 {
      assert RateOf(m', f) * Seconds(nanos) == 0.0;
    }
  }

  /** Errors are compared as sums: receive errors 5 -> 12 while transmit errors 5 -> 0
      (a reset) over one second gives 2 errors per second, not the 7 that per-counter
      saturating differences would add up to. */
  lemma ErrorRateUsesSums()
    ensures var prev := DefaultCounters().(rxErrors := 5, txErrors := 5);
      var current := DefaultCounters().(rxErrors := 12);
      CalculateRates(prev, current, NANOS_PER_SEC).errorRate == 2.0
  {
    var prev := DefaultCounters().(rxErrors := 5, txErrors := 5);
    var current := DefaultCounters().(rxErrors := 12);
    assert Seconds(NANOS_PER_SEC) == 1.0;
    assert CalculateRates(prev, current, NANOS_PER_SEC).errorRate * 1.0 == 2.0;
  }

  // ---- The specification of one poll ---------------------------------------

  /** The engine's tables: the last snapshot, the last rates and the histories, by port key. */
  datatype Tables = Tables(
    previous: map<string, PortCounters>,
    current: map<string, PortMetrics>,
    histories: map<string, Channels>)

  /** One port of a poll: the adapter name and the port as read. */
  type Reading = (string, PortInfo)

  function KeyOf(r: Reading): string {
    PortKey(r.0, r.1.portNumber)
  }

  /** The error sums of every port of a poll fit in a `u64`. */
  predicate CountersFit(adapters: seq<AdapterInfo>) {
    forall i, k :: 0 <= i < |adapters| && 0 <= k < |adapters[i].ports| ==> ErrorsFit(adapters[i].ports[k].counters)
  }

  predicate ReadingsFit(rs: seq<Reading>) {
    forall i :: 0 <= i < |rs| ==> ErrorsFit(rs[i].1.counters)
  }

  lemma ReadingsFitAppend(a: seq<Reading>, b: seq<Reading>)
    requires ReadingsFit(a) && ReadingsFit(b)
    ensures ReadingsFit(a + b)
  {
    forall i | 0 <= i < |a + b| ensures ErrorsFit((a + b)[i].1.counters) {
      if i >= |a| {
        assert (a + b)[i] == b[i - |a|];
      }
    }
  }

  /** The ports of one adapter, in order. */
  function PortsOf(a: AdapterInfo): seq<Reading> {
    seq(|a.ports|, k requires 0 <= k < |a.ports| => (a.name, a.ports[k]))
  }

  lemma PortsOfPrefix(a: AdapterInfo, j: nat)
    requires j < |a.ports|
    ensures PortsOf(a)[..j + 1] == PortsOf(a)[..j] + [(a.name, a.ports[j])]
  {
  }

  /** The ports of a poll, adapter by adapter, in the order the nested loops visit them. */
  function Readings(adapters: seq<AdapterInfo>): (rs: seq<Reading>)
    ensures CountersFit(adapters) ==> ReadingsFit(rs)
  {
    if adapters == [] then []
    else
      var init := adapters[..|adapters| - 1];
      assert CountersFit(adapters) ==> CountersFit(init) by {
        assert forall i :: 0 <= i < |init| ==> init[i] == adapters[i];
      }
      var last := PortsOf(adapters[|adapters| - 1]);
      assert CountersFit(adapters) ==> ReadingsFit(last) by {
        if CountersFit(adapters) {
          forall k | 0 <= k < |last| ensures ErrorsFit(last[k].1.counters) {
            assert last[k].1 == adapters[|adapters| - 1].ports[k];
          }
        }
      }
      if CountersFit(adapters) then ReadingsFitAppend(Readings(init), last); Readings(init) + last
      else Readings(init) + last
  }

  function PollKeys(rs: seq<Reading>): set<string> {
    set i | 0 <= i < |rs| :: KeyOf(rs[i])
  }

  /** The `(adapter, port)` pairs handed to the history. */
  function ActivePairs(rs: seq<Reading>): seq<(string, u16)> {
    seq(|rs|, i requires 0 <= i < |rs| => (rs[i].0, rs[i].1.portNumber))
  }

  predicate AllErrorsFit(m: map<string, PortCounters>) {
    forall k :: k in m ==> ErrorsFit(m[k])
  }

  /** Rates and histories exist only for ports with a snapshot. */
  predicate Nested(t: Tables) {
    t.current.Keys <= t.previous.Keys && t.histories.Keys <= t.previous.Keys
  }

  /** The body of the inner loop for one port: with a previous snapshot, compute the
      rates, record them and store them; in every case store the new snapshot. */
  function PollPort(t: Tables, r: Reading, nanos: nat, cap: nat): (t': Tables)
    requires AllErrorsFit(t.previous) && ErrorsFit(r.1.counters)
    ensures AllErrorsFit(t'.previous)
  {
    var key := KeyOf(r);
    var counters := r.1.counters;
    if key in t.previous then
      var m := CalculateRates(t.previous[key], counters, nanos);
      Tables(t.previous[key := counters], t.current[key := m],
             RecordInto(t.histories, key, m.rxBytesPerSec, m.txBytesPerSec,
                        m.rxPacketsPerSec, m.txPacketsPerSec, m.errorRate, cap))
    else
      Tables(t.previous[key := counters], t.current, t.histories)
  }

  /** All ports of a poll, in order. */
  function PollAll(t: Tables, rs: seq<Reading>, nanos: nat, cap: nat): (t': Tables)
    requires AllErrorsFit(t.previous) && ReadingsFit(rs)
    ensures AllErrorsFit(t'.previous)
  {
    if rs == [] then t
    else PollPort(PollAll(t, rs[..|rs| - 1], nanos, cap), rs[|rs| - 1], nanos, cap)
  }

  /** The tables after a whole `update`: all ports processed, then every table cut
      down to the ports of this poll. */
  function UpdateSpec(t: Tables, rs: seq<Reading>, nanos: nat, cap: nat): Tables
    requires AllErrorsFit(t.previous) && ReadingsFit(rs)
  {
    var p := PollAll(t, rs, nanos, cap);
    var keys := PollKeys(rs);
    Tables(RetainKeys(p.previous, keys), RetainKeys(p.current, keys), RetainKeys(p.histories, keys))
  }

  // ---- What one poll does ----------------------------------------------------

  lemma PollKeysSnoc(rs: seq<Reading>, r: Reading)
    ensures PollKeys(rs + [r]) == PollKeys(rs) + {KeyOf(r)}
  {
    var rs' := rs + [r];
    assert forall i :: 0 <= i < |rs| ==> rs'[i] == rs[i];
    assert rs'[|rs|] == r;
  }

  lemma ActivePairsSnoc(rs: seq<Reading>, r: Reading)
    ensures ActivePairs(rs + [r]) == ActivePairs(rs) + [(r.0, r.1.portNumber)]
  {
    assert forall i :: 0 <= i < |rs| ==> (rs + [r])[i] == rs[i];
  }

  /** Processing one more port extends every record of the poll by that port. */
  lemma PollSnoc(t: Tables, rs: seq<Reading>, r: Reading, nanos: nat, cap: nat)
    requires AllErrorsFit(t.previous) && ReadingsFit(rs) && ErrorsFit(r.1.counters)
    ensures ReadingsFit(rs + [r])
    ensures PollAll(t, rs + [r], nanos, cap) == PollPort(PollAll(t, rs, nanos, cap), r, nanos, cap)
    ensures PollKeys(rs + [r]) == PollKeys(rs) + {KeyOf(r)}
    ensures ActivePairs(rs + [r]) == ActivePairs(rs) + [(r.0, r.1.portNumber)]
  {
    ReadingsFitAppend(rs, [r]);
    assert (rs + [r])[..|rs|] == rs;
    PollKeysSnoc(rs, r);
    ActivePairsSnoc(rs, r);
  }

  lemma ActiveKeysOfPairs(rs: seq<Reading>)
    ensures ActiveKeys(ActivePairs(rs)) == PollKeys(rs)
  {
    var ps := ActivePairs(rs);
    assert forall i :: 0 <= i < |rs| ==> PortKey(ps[i].0, ps[i].1) == KeyOf(rs[i]);
  }

  /** One port adds its key to the snapshots and keeps the tables nested. */
  lemma PollPortKeys(t: Tables, r: Reading, nanos: nat, cap: nat)
    requires AllErrorsFit(t.previous) && ErrorsFit(r.1.counters) && Nested(t)
    ensures var t' := PollPort(t, r, nanos, cap);
      t'.previous.Keys == t.previous.Keys + {KeyOf(r)} && Nested(t')
  {
    var key := KeyOf(r);
    var t' := PollPort(t, r, nanos, cap);
    assert t'.previous == t.previous[key := r.1.counters];
    assert t'.previous.Keys == t.previous.Keys + {key};
    if key in t.previous {
      var m := CalculateRates(t.previous[key], r.1.counters, nanos);
      assert t'.current == t.current[key := m];
      RecordIntoKeys(t.histories, key, m.rxBytesPerSec, m.txBytesPerSec,
                     m.rxPacketsPerSec, m.txPacketsPerSec, m.errorRate, cap);
    }
  }

  /** A poll only ever adds snapshots, and keeps the tables nested. */
  lemma {:induction false} PollAllKeys(t: Tables, rs: seq<Reading>, nanos: nat, cap: nat)
    requires AllErrorsFit(t.previous) && ReadingsFit(rs) && Nested(t)
    ensures var t' := PollAll(t, rs, nanos, cap);
      t'.previous.Keys == t.previous.Keys + PollKeys(rs) && Nested(t')
  {
    if rs != [] {
      var init, r := rs[..|rs| - 1], rs[|rs| - 1];
      PollAllKeys(t, init, nanos, cap);
      assert rs == init + [r];
      PollKeysSnoc(init, r);
      PollPortKeys(PollAll(t, init, nanos, cap), r, nanos, cap);
    }
  }

  /** After an update the snapshot table holds exactly the ports of this poll; the
      rates and histories are a subset of them, so departed ports are purged. */
  lemma UpdateKeys(t: Tables, rs: seq<Reading>, nanos: nat, cap: nat)
    requires AllErrorsFit(t.previous) && ReadingsFit(rs) && Nested(t)
    ensures var t' := UpdateSpec(t, rs, nanos, cap);
      && t'.previous.Keys == PollKeys(rs)
      && t'.current.Keys <= PollKeys(rs) && t'.histories.Keys <= PollKeys(rs)
      && Nested(t')
  {
    var p := PollAll(t, rs, nanos, cap);
    PollAllKeys(t, rs, nanos, cap);
    RetainKeysSpec(p.previous, PollKeys(rs));
    RetainKeysSpec(p.current, PollKeys(rs));
    RetainKeysSpec(p.histories, PollKeys(rs));
  }

  /** Processing ports of other keys leaves a key's table entries alone. */
  lemma {:induction false} PollAllOtherKeys(t: Tables, rs: seq<Reading>, nanos: nat, cap: nat, key: string)
    requires AllErrorsFit(t.previous) && ReadingsFit(rs)
    requires forall i :: 0 <= i < |rs| ==> KeyOf(rs[i]) != key
    ensures var t' := PollAll(t, rs, nanos, cap);
      && (key in t'.previous <==> key in t.previous) && (key in t.previous ==> t'.previous[key] == t.previous[key])
      && (key in t'.current <==> key in t.current) && (key in t.current ==> t'.current[key] == t.current[key])
      && (key in t'.histories <==> key in t.histories) && (key in t.histories ==> t'.histories[key] == t.histories[key])
  {
    if rs != [] {
      PollAllOtherKeys(t, rs[..|rs| - 1], nanos, cap, key);
      var p := PollAll(t, rs[..|rs| - 1], nanos, cap);
      var r := rs[|rs| - 1];
      if KeyOf(r) in p.previous {
        var m := CalculateRates(p.previous[KeyOf(r)], r.1.counters, nanos);
        RecordIntoKeys(p.histories, KeyOf(r), m.rxBytesPerSec, m.txBytesPerSec,
                       m.rxPacketsPerSec, m.txPacketsPerSec, m.errorRate, cap);
      }
    }
  }

  lemma {:induction false} PollAllAppend(t: Tables, a: seq<Reading>, b: seq<Reading>, nanos: nat, cap: nat)
    requires AllErrorsFit(t.previous) && ReadingsFit(a) && ReadingsFit(b)
    ensures ReadingsFit(a + b)
    ensures PollAll(t, a + b, nanos, cap) == PollAll(PollAll(t, a, nanos, cap), b, nanos, cap)
  {
    ReadingsFitAppend(a, b);
    if b == [] {
      assert a + b == a;
    } else {
      var b' := b[..|b| - 1];
      assert (a + b)[..|a + b| - 1] == a + b';
      assert (a + b)[|a + b| - 1] == b[|b| - 1];
      PollAllAppend(t, a, b', nanos, cap);
      var p := PollAll(t, a, nanos, cap);
      calc {
        PollAll(t, a + b, nanos, cap);
        PollPort(PollAll(t, a + b', nanos, cap), b[|b| - 1], nanos, cap);
        PollPort(PollAll(p, b', nanos, cap), b[|b| - 1], nanos, cap);
        PollAll(p, b, nanos, cap);
      }
    }
  }

  /** The port at `idx` is the only one of its key in the poll. */
  predicate OnlyOnce(rs: seq<Reading>, idx: nat)
    requires idx < |rs|
  {
    forall i :: 0 <= i < |rs| && i != idx ==> KeyOf(rs[i]) != KeyOf(rs[idx])
  }

  /** Splits a poll around a port of a key that occurs once. */
  lemma SplitAt(t: Tables, rs: seq<Reading>, idx: nat, nanos: nat, cap: nat)
    requires AllErrorsFit(t.previous) && ReadingsFit(rs) && idx < |rs| && OnlyOnce(rs, idx)
    ensures ReadingsFit(rs[..idx]) && ReadingsFit(rs[idx + 1..])
    ensures var before := PollAll(t, rs[..idx], nanos, cap);
      var at := PollPort(before, rs[idx], nanos, cap);
      PollAll(t, rs, nanos, cap) == PollAll(at, rs[idx + 1..], nanos, cap)
  {
    var a, b := rs[..idx + 1], rs[idx + 1..];
    assert rs == a + b;
    assert forall i :: 0 <= i < |b| ==> b[i] == rs[idx + 1 + i];
    PollAllAppend(t, a, b, nanos, cap);
    assert a[..|a| - 1] == rs[..idx];
  }

  /** The first time a port is seen it only sets the baseline: it gets its snapshot
      stored but no rates and no history sample. */
  lemma FirstSightSetsBaseline(t: Tables, rs: seq<Reading>, idx: nat, nanos: nat, cap: nat)
    requires AllErrorsFit(t.previous) && ReadingsFit(rs) && Nested(t)
    requires idx < |rs| && OnlyOnce(rs, idx) && KeyOf(rs[idx]) !in t.previous
    ensures var t', key := UpdateSpec(t, rs, nanos, cap), KeyOf(rs[idx]);
      && key in t'.previous && t'.previous[key] == rs[idx].1.counters
      && key !in t'.current && key !in t'.histories
  {
    var key := KeyOf(rs[idx]);
    SplitAt(t, rs, idx, nanos, cap);
    PollAllOtherKeys(t, rs[..idx], nanos, cap, key);
    var at := PollPort(PollAll(t, rs[..idx], nanos, cap), rs[idx], nanos, cap);
    PollAllOtherKeys(at, rs[idx + 1..], nanos, cap, key);
    assert key in PollKeys(rs);
  }

  /** A port seen again gets the rates against its previous snapshot, recorded as
      the newest sample of its history, and its snapshot replaced. */
  lemma SecondSightRecordsRates(t: Tables, rs: seq<Reading>, idx: nat, nanos: nat, cap: nat)
    requires AllErrorsFit(t.previous) && ReadingsFit(rs)
    requires idx < |rs| && OnlyOnce(rs, idx) && KeyOf(rs[idx]) in t.previous
    ensures var t', key := UpdateSpec(t, rs, nanos, cap), KeyOf(rs[idx]);
      var m := CalculateRates(t.previous[key], rs[idx].1.counters, nanos);
      && key in t'.previous && t'.previous[key] == rs[idx].1.counters
      && key in t'.current && t'.current[key] == m
      && key in t'.histories
      && t'.histories[key] == RecordSample(Lookup(t.histories, key), m.rxBytesPerSec, m.txBytesPerSec,
                                           m.rxPacketsPerSec, m.txPacketsPerSec, m.errorRate, cap)
  {
    var key := KeyOf(rs[idx]);
    SplitAt(t, rs, idx, nanos, cap);
    PollAllOtherKeys(t, rs[..idx], nanos, cap, key);
    var before := PollAll(t, rs[..idx], nanos, cap);
    var at := PollPort(before, rs[idx], nanos, cap);
    PollAllOtherKeys(at, rs[idx + 1..], nanos, cap, key);
    assert key in PollKeys(rs);
    assert Lookup(before.histories, key) == Lookup(t.histories, key);
  }

  // ---- MetricsCollector --------------------------------------------------------

  class MetricsCollector {
    var previousCounters: map<string, PortCounters>
    var currentMetrics: map<string, PortMetrics>
    /** The time of the last poll, in nanoseconds on a monotonic clock. */
    var lastCollection: Option<nat>
    const history: HistoryCollector

    ghost function State(): Tables
      reads this, history
    {
      Tables(previousCounters, currentMetrics, history.histories)
    }

    ghost predicate Valid()
      reads this, history
    {
      && history.Valid() && history.capacity >= 1
      && AllErrorsFit(previousCounters)
      && Nested(State())
    }

    constructor ()
      ensures Valid() && fresh(history)
      ensures previousCounters == map[] && currentMetrics == map[] && lastCollection == None
      ensures history.histories == map[] && history.capacity == DEFAULT_HISTORY_SIZE
    {
      previousCounters := map[];
      currentMetrics := map[];
      lastCollection := None;
      history := new HistoryCollector.New();
    }

    /** The inner loop's body for one port. */
    method UpdatePort(adapter: string, port: PortInfo, nanos: nat)
      requires history.Valid() && history.capacity >= 1
      requires AllErrorsFit(previousCounters) && ErrorsFit(port.counters)
      modifies this, history
      ensures history.Valid() && lastCollection == old(lastCollection)
      ensures State() == PollPort(old(State()), (adapter, port), nanos, history.capacity)
    {
      var portKey := PortKey(adapter, port.portNumber);
      if portKey in previousCounters {
        var metrics := CalculateRates(previousCounters[portKey], port.counters, nanos);
        history.Record(adapter, port.portNumber, metrics.rxBytesPerSec, metrics.txBytesPerSec,
                       metrics.rxPacketsPerSec, metrics.txPacketsPerSec, metrics.errorRate);
        currentMetrics := currentMetrics[portKey := metrics];
      }
      previousCounters := previousCounters[portKey := port.counters];
    }

    /** One poll at time `now`: rates for every port seen before, the new snapshots
        stored, everything about departed ports dropped. */
    method Update(adapters: seq<AdapterInfo>, now: nat)
      requires Valid() && CountersFit(adapters)
      modifies this, history
      ensures Valid()
      ensures State() == UpdateSpec(old(State()), Readings(adapters), ElapsedNanos(old(lastCollection), now), history.capacity)
      ensures lastCollection == Some(now)
    {
      var nanos := ElapsedNanos(lastCollection, now);
      ghost var t0 := State();
      ghost var cap := history.capacity;
      var currentPortKeys: set<string> := {};
      var activePorts: seq<(string, u16)> := [];
      ghost var done: seq<Reading> := [];
      var i := 0;
      while i < |adapters|
        invariant 0 <= i <= |adapters| && done == Readings(adapters[..i])
        invariant history.Valid() && history.capacity == cap
        invariant ReadingsFit(done) && State() == PollAll(t0, done, nanos, cap)
        invariant currentPortKeys == PollKeys(done) && activePorts == ActivePairs(done)
      {
        var adapter := adapters[i];
        assert adapters[..i + 1][..i] == adapters[..i];
        ghost var before := done;
        var j := 0;
        while j < |adapter.ports|
          invariant 0 <= j <= |adapter.ports| && done == before + PortsOf(adapter)[..j]
          invariant history.Valid() && history.capacity == cap
          invariant ReadingsFit(done) && State() == PollAll(t0, done, nanos, cap)
          invariant currentPortKeys == PollKeys(done) && activePorts == ActivePairs(done)
        {
          var port := adapter.ports[j];
          ghost var r: Reading := (adapter.name, port);
          PollSnoc(t0, done, r, nanos, cap);
          currentPortKeys := currentPortKeys + {PortKey(adapter.name, port.portNumber)};
          activePorts := activePorts + [(adapter.name, port.portNumber)];
          UpdatePort(adapter.name, port, nanos);
          PortsOfPrefix(adapter, j);
          done := done + [r];
          j := j + 1;
        }
        assert PortsOf(adapter)[..j] == PortsOf(adapter);
        i := i + 1;
      }
      assert adapters[..|adapters|] == adapters;
      ActiveKeysOfPairs(done);
      Purge(currentPortKeys, activePorts);
      lastCollection := Some(now);
      UpdateKeys(t0, done, nanos, cap);
    }

    /** Drops every table entry of a port outside this poll. */
    method Purge(currentPortKeys: set<string>, activePorts: seq<(string, u16)>)
      requires history.Valid() && ActiveKeys(activePorts) == currentPortKeys
      modifies this, history
      ensures history.Valid() && lastCollection == old(lastCollection)
      ensures State() == Tables(RetainKeys(old(previousCounters), currentPortKeys),
        RetainKeys(old(currentMetrics), currentPortKeys), RetainKeys(old(history.histories), currentPortKeys))
    {
      previousCounters := map k | k in previousCounters && k in currentPortKeys :: previousCounters[k];
      currentMetrics := map k | k in currentMetrics && k in currentPortKeys :: currentMetrics[k];
      history.RetainPorts(activePorts);
    }

    /** The rates of a port from the last poll, if it had a previous snapshot then. */
    function GetMetrics(adapter: string, port: u16): (r: Option<PortMetrics>)
      reads this
      ensures r.Some? <==> PortKey(adapter, port) in currentMetrics
      ensures r.Some? ==> r.value == currentMetrics[PortKey(adapter, port)]
    {
      var key := PortKey(adapter, port);
      if key in currentMetrics then Some(currentMetrics[key]) else None
    }

    /** The history of a port, if it has one. */
    function GetHistory(adapter: string, port: u16): (r: Option<Channels>)
      reads this, history
      ensures r == history.Get(adapter, port)
    {
      history.Get(adapter, port)
    }
  }

  /** Two snapshots two seconds apart: 2000 bytes received, 1000 sent and 10 packets
      received make 1000, 500 and 5 per second. */
  lemma TwoSecondRates()
    ensures var c1 := DefaultCounters().(rxBytes := 1000, txBytes := 500);
      var c2 := c1.(rxBytes := 3000, txBytes := 1500, rxPackets := 10);
      CalculateRates(c1, c2, 2 * NANOS_PER_SEC) == PortMetrics(1000.0, 500.0, 5.0, 0.0, 0.0)
  {
    assert Seconds(2 * NANOS_PER_SEC) == 2.0;
  }

  lemma PollKeysSingle(r: Reading)
    ensures PollKeys([r]) == {KeyOf(r)}
  {
    PollKeysSnoc([], r);
    assert [] + [r] == [r];
  }

  /** The tables after one poll of one port found in none of them: only its snapshot. */
  lemma SinglePortFirstPoll(t: Tables, r: Reading, nanos: nat, cap: nat)
    requires AllErrorsFit(t.previous) && ErrorsFit(r.1.counters) && Nested(t) && KeyOf(r) !in t.previous
    ensures ReadingsFit([r])
    ensures UpdateSpec(t, [r], nanos, cap) == Tables(map[KeyOf(r) := r.1.counters], map[], map[])
  {
    var t' := UpdateSpec(t, [r], nanos, cap);
    PollKeysSingle(r);
    FirstSightSetsBaseline(t, [r], 0, nanos, cap);
    UpdateKeys(t, [r], nanos, cap);
    assert t'.current.Keys == {} && t'.histories.Keys == {};
  }

  /** The tables after one poll of a port with a snapshot and nothing else: its new
      snapshot, its rates and a history holding them. */
  lemma SinglePortSecondPoll(c: PortCounters, r: Reading, nanos: nat, cap: nat)
    requires ErrorsFit(c) && ErrorsFit(r.1.counters)
    ensures ReadingsFit([r])
    ensures var m := CalculateRates(c, r.1.counters, nanos);
      UpdateSpec(Tables(map[KeyOf(r) := c], map[], map[]), [r], nanos, cap)
        == Tables(map[KeyOf(r) := r.1.counters], map[KeyOf(r) := m],
                  map[KeyOf(r) := RecordSample(NoSamples, m.rxBytesPerSec, m.txBytesPerSec,
                                               m.rxPacketsPerSec, m.txPacketsPerSec, m.errorRate, cap)])
  {
    var t := Tables(map[KeyOf(r) := c], map[], map[]);
    PollKeysSingle(r);
    SecondSightRecordsRates(t, [r], 0, nanos, cap);
    UpdateKeys(t, [r], nanos, cap);
  }

  /** One port polled twice from empty tables: the first poll only sets the baseline,
      the second yields the rates over the two seconds between them and records them as
      the port's first history sample. */
  lemma TwoPollExample()
    ensures var c1 := DefaultCounters().(rxBytes := 1000, txBytes := 500);
      var c2 := c1.(rxBytes := 3000, txBytes := 1500, rxPackets := 10);
      var r1: Reading := ("mlx5_0", PortInfo(1, Active, "100 Gb/sec (4X EDR)", c1));
      var r2: Reading := ("mlx5_0", PortInfo(1, Active, "100 Gb/sec (4X EDR)", c2));
      var key := PortKey("mlx5_0", 1);
      var t1 := UpdateSpec(Tables(map[], map[], map[]), [r1], NANOS_PER_SEC, DEFAULT_HISTORY_SIZE);
      var t2 := UpdateSpec(t1, [r2], 2 * NANOS_PER_SEC, DEFAULT_HISTORY_SIZE);
      && t1 == Tables(map[key := c1], map[], map[])
      && t2.current == map[key := PortMetrics(1000.0, 500.0, 5.0, 0.0, 0.0)]
      && t2.histories == map[key := RecordSample(NoSamples, 1000.0, 500.0, 5.0, 0.0, 0.0, DEFAULT_HISTORY_SIZE)]
  {
    var c1 := DefaultCounters().(rxBytes := 1000, txBytes := 500);
    var c2 := c1.(rxBytes := 3000, txBytes := 1500, rxPackets := 10);
    var r1: Reading := ("mlx5_0", PortInfo(1, Active, "100 Gb/sec (4X EDR)", c1));
    var r2: Reading := ("mlx5_0", PortInfo(1, Active, "100 Gb/sec (4X EDR)", c2));
    SinglePortFirstPoll(Tables(map[], map[], map[]), r1, NANOS_PER_SEC, DEFAULT_HISTORY_SIZE);
    SinglePortSecondPoll(c1, r2, 2 * NANOS_PER_SEC, DEFAULT_HISTORY_SIZE);
    TwoSecondRates();
  }

  /** A poll that finds no ports leaves nothing behind. */
  method EmptyPollPurges(mc: MetricsCollector, now: nat)
    requires mc.Valid()
    modifies mc, mc.history
    ensures mc.Valid()
    ensures mc.previousCounters == map[] && mc.currentMetrics == map[] && mc.history.histories == map[]
  {
    ghost var t := mc.State();
    mc.Update([], now);
    UpdateKeys(t, [], ElapsedNanos(old(mc.lastCollection), now), mc.history.capacity);
  }
}
