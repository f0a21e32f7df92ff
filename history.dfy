/** Bounded per-port history: a fixed-capacity ring buffer, the five
    channels of one port, the sparkline normaliser and the map from port
    keys to histories. */
module History {
  import opened Text
  import opened Types

  /** Default history length (120 samples, 30 seconds at 4 samples a second). */
  const DEFAULT_HISTORY_SIZE: nat := 120

  function Min(a: int, b: int): int { if a <= b then a else b }

  // ---- The specification of a ring buffer's contents ---------------------

  /** The newest `cap` elements of `s`, oldest first: what survives FIFO eviction. */
  function Window<T>(s: seq<T>, cap: nat): seq<T> {
    if |s| <= cap then s else s[|s| - cap..]
  }

  /** The newest `min(n, |s|)` elements of `s`, oldest first. */
  function Newest<T>(s: seq<T>, n: nat): seq<T> {
    s[|s| - Min(n, |s|)..]
  }

  /** What a buffer of capacity `cap` holds after the pushes `xs` from empty. */
  function Pushes<T>(xs: seq<T>, cap: nat): seq<T> {
    if xs == [] then [] else Window(Pushes(xs[..|xs| - 1], cap) + [xs[|xs| - 1]], cap)
  }

  /** After any sequence of pushes a buffer holds the `min(#pushes, cap)` most
      recently pushed values, oldest first. */
  lemma {:induction false} PushesKeepNewest<T>(xs: seq<T>, cap: nat)
    requires cap >= 1
    ensures |Pushes(xs, cap)| == Min(|xs|, cap) <= cap
    ensures Pushes(xs, cap) == Newest(xs, cap)
  {
    if xs != [] {
      var xs' := xs[..|xs| - 1];
      PushesKeepNewest(xs', cap);
      assert xs == xs' + [xs[|xs| - 1]];
      WindowOfNewest(xs', xs[|xs| - 1], cap);
    }
  }

  /** One push onto the newest `cap` elements keeps the newest `cap` of the longer sequence. */
  lemma WindowOfNewest<T>(s: seq<T>, x: T, cap: nat)
    requires cap >= 1
    ensures Window(Newest(s, cap) + [x], cap) == Newest(s + [x], cap)
  {
    var m := Min(|s|, cap);
    assert Newest(s, cap) + [x] == (s + [x])[|s| - m..];
  }

  /** ibtop's `test_ring_buffer_overflow`: capacity 3 pushed with 1, 2, 3, 4 holds [2, 3, 4]. */
  lemma OverflowEvictsOldest()
    ensures Pushes([1, 2, 3, 4], 3) == [2, 3, 4]
  {
    PushesKeepNewest([1, 2, 3, 4], 3);
    assert [1, 2, 3, 4][1..] == [2, 3, 4];
  }

  /** ibtop's `test_ring_buffer_last_n`: capacity 5 pushed with 1..10; the last three
      are [8, 9, 10], the last ten are [6..10]. */
  lemma LastNAfterWrapAround()
    ensures Newest(Pushes([1, 2, 3, 4, 5, 6, 7, 8, 9, 10], 5), 3) == [8, 9, 10]
    ensures Newest(Pushes([1, 2, 3, 4, 5, 6, 7, 8, 9, 10], 5), 10) == [6, 7, 8, 9, 10]
  {
    var xs := [1, 2, 3, 4, 5, 6, 7, 8, 9, 10];
    PushesKeepNewest(xs, 5);
    assert Pushes(xs, 5) == [6, 7, 8, 9, 10];
  }

  lemma ModSmall(a: nat, m: nat)
    requires 0 < m && a < 2 * m
    ensures a % m == if a < m then a else a - m
  {
    if a >= m {
      assert a == m + (a - m);
    }
  }

  // ---- RingBuffer --------------------------------------------------------

  /** A fixed-capacity circular store over an array of `capacity` slots.
      `writePos` is the slot the next push overwrites; once the buffer is full
      it is also the oldest slot. */
  class RingBuffer<T> {
    const data: array<T>
    const capacity: nat
    var writePos: nat
    var len: nat
    /** The values held, oldest first. */
    ghost var Contents: seq<T>

    ghost predicate Valid()
      reads this, data
    {
      && data.Length == capacity
      && (writePos < capacity || writePos == capacity == 0)
      && len <= capacity
      && (len < capacity ==> writePos == len)
      && |Contents| == len
      && forall i :: 0 <= i < len ==> Contents[i] == data[Slot(i)]
    }

    /** The slot of the oldest value. */
    function Start(): nat
      reads this
    {
      if len < capacity then 0 else writePos
    }

    /** The slot of the `i`-th oldest value. */
    ghost function Slot(i: nat): nat
      reads this
    {
      if Start() + i < capacity then Start() + i else Start() + i - capacity
    }

    /** `RingBuffer::new`: `capacity` copies of the element type's default value
        (`fill`), nothing held. A buffer of capacity 0 can be made and queried,
        but a push into it panics. */
    constructor (capacity: nat, fill: T)
      ensures Valid() && this.capacity == capacity && Contents == [] && fresh(data)
    {
      data := new T[capacity](_ => fill);
      this.capacity := capacity;
      writePos, len := 0, 0;
      Contents := [];
    }

    /** Overwrites the slot at the cursor and advances it; once full, the
        oldest value is the one overwritten. */
    method Push(value: T)
      requires Valid() && capacity >= 1
      modifies this, data
      ensures Valid()
      ensures Contents == Window(old(Contents) + [value], capacity)
    {
      ghost var w := writePos;
      data[writePos] := value;
      ModSmall(writePos + 1, capacity);
      writePos := (writePos + 1) % capacity;
      len := Min(len + 1, capacity);
      Contents := Window(Contents + [value], capacity);
      forall i | 0 <= i < len ensures Contents[i] == data[Slot(i)] {
        if old(len) == capacity {
          if i < capacity - 1 {
            assert Slot(i) == old(Slot(i + 1)) != w;
          }
        }
      }
    }

    function Len(): (r: nat)
      reads this, data
      requires Valid()
      ensures r == |Contents|
    {
      len
    }

    function IsEmpty(): (r: bool)
      reads this, data
      requires Valid()
      ensures r <==> Contents == []
    {
      len == 0
    }

    /** The most recently pushed value, if any. */
    function Last(): (r: Option<T>)
      reads this, data
      requires Valid()
      ensures r.None? <==> Contents == []
      ensures r.Some? ==> r.value == Contents[|Contents| - 1]
    {
      if len == 0 then None
      else
        var idx := if writePos == 0 then capacity - 1 else writePos - 1;
        assert idx == Slot(len - 1);
        Some(data[idx])
    }

    lemma SlotsByModulo()
      requires Valid()
      ensures forall i :: 0 <= i < len ==> (Start() + i) % capacity == Slot(i)
    {
      forall i | 0 <= i < len ensures (Start() + i) % capacity == Slot(i) {
        ModSmall(Start() + i, capacity);
      }
    }

    /** The values in chronological order, oldest to newest. */
    function Iter(): (r: seq<T>)
      reads this, data
      requires Valid()
      ensures r == Contents
    {
      SlotsByModulo();
      var d, start, n := data[..], Start(), len;
      seq(n, i requires 0 <= i < n => d[(start + i) % capacity])
    }

    /** The last `n` values in chronological order (all of them if fewer are held). */
    function LastN(n: nat): (r: seq<T>)
      reads this, data
      requires Valid()
      ensures |r| == Min(n, |Contents|) && r == Contents[|Contents| - |r|..]
    {
      var takeCount := Min(n, len);
      var skipCount := len - takeCount;
      Iter()[skipCount..]
    }

    function ToVec(): (r: seq<T>)
      reads this, data
      requires Valid()
      ensures r == Contents
    {
      Iter()
    }

    /** Empties the buffer without touching its storage or capacity. */
    method Clear()
      requires Valid()
      modifies this
      ensures Valid() && Contents == [] && writePos == 0 && len == 0
      ensures data[..] == old(data[..])
    {
      writePos := 0;
      len := 0;
      Contents := [];
    }

    function Capacity(): (r: nat)
      reads this, data
      requires Valid()
      ensures r == capacity && |Contents| <= r
    {
      capacity
    }
  }

  // ---- Sparkline normalisation ------------------------------------------

  function Max(a: real, b: real): real { if a >= b then a else b }

  /** `fold(0.0, f64::max)`: the largest value, or 0.0 when none is larger. */
  function PeakOf(s: seq<real>): (m: real)
    ensures m >= 0.0
    ensures forall i :: 0 <= i < |s| ==> s[i] <= m
    ensures m == 0.0 || exists i :: 0 <= i < |s| && s[i] == m
  {
    if s == [] then 0.0
    else
      var m' := PeakOf(s[..|s| - 1]);
      assert forall i :: 0 <= i < |s| - 1 ==> s[..|s| - 1][i] == s[i];
      Max(m', s[|s| - 1])
  }

  /** `f64::round`: halves round away from zero. */
  function RoundHalfAway(x: real): int {
    if x >= 0.0 then (x + 0.5).Floor else -((-x + 0.5).Floor)
  }

  /** The saturating `as u64` cast of an integral float. */
  function SaturateU64(x: int): nat {
    if x < 0 then 0 else if x > U64_MAX then U64_MAX else x
  }

  /** One sparkline level: `((v / max) * 7.0).round() as u64`. */
  function Level(v: real, max: real): nat
    requires max > 0.0
  {
    SaturateU64(RoundHalfAway(v / max * 7.0))
  }

  lemma LevelBounds(v: real, max: real)
    requires max > 0.0 && v <= max
    ensures Level(v, max) <= 7
    ensures v == max ==> Level(v, max) == 7
    ensures v == 0.0 ==> Level(v, max) == 0
  {
    var x := v / max * 7.0;
    assert x <= 7.0 by {
      assert v / max <= 1.0;
    }
    if v == max {
      assert v / max == 1.0;
    }
  }

  /** Larger values never get lower levels. */
  lemma LevelMonotone(v1: real, v2: real, max: real)
    requires max > 0.0 && v1 <= v2
    ensures Level(v1, max) <= Level(v2, max)
  {
    assert v1 / max <= v2 / max;
    var x1, x2 := v1 / max * 7.0, v2 / max * 7.0;
    assert x1 <= x2;
    if x1 < 0.0 && x2 < 0.0 {
      assert -x2 + 0.5 <= -x1 + 0.5;
    }
  }

  /** Quantises a series into the eight sparkline levels 0..7 relative to its largest value. */
  function NormalizeForSparkline(values: seq<real>): (r: seq<nat>)
    ensures |r| == |values|
    ensures forall i :: 0 <= i < |r| ==> r[i] <= 7
    ensures PeakOf(values) <= 0.0 ==> forall i :: 0 <= i < |r| ==> r[i] == 0
    ensures PeakOf(values) > 0.0 ==> forall i :: 0 <= i < |r| ==> r[i] == Level(values[i], PeakOf(values))
  {
    if values == [] then []
    else
      var max := PeakOf(values);
      if max <= 0.0 then seq(|values|, _ => 0)
      else
        assert forall i :: 0 <= i < |values| ==> Level(values[i], max) <= 7 by {
          forall i | 0 <= i < |values| { LevelBounds(values[i], max); }
        }
        seq(|values|, i requires 0 <= i < |values| => Level(values[i], max))
  }

  /** The largest value of a series with a positive maximum gets level 7, a zero gets
      level 0, and the levels keep the order of the values. */
  lemma {:induction false} SparklineLevels(values: seq<real>, i: nat, j: nat)
    requires i < |values| && j < |values|
    ensures PeakOf(values) > 0.0 && values[i] == PeakOf(values) ==> NormalizeForSparkline(values)[i] == 7
    ensures values[i] == 0.0 ==> NormalizeForSparkline(values)[i] == 0
    ensures values[i] <= values[j] ==> NormalizeForSparkline(values)[i] <= NormalizeForSparkline(values)[j]
  {
    var max := PeakOf(values);
    if max > 0.0 {
      LevelBounds(values[i], max);
      if values[i] <= values[j] {
        LevelMonotone(values[i], values[j], max);
      }
    }
  }

  /** ibtop's `test_normalize_for_sparkline`: [0, 50, 100, 25, 75] quantises to [0, 4, 7, 2, 5]. */
  lemma SparklineExample()
    ensures NormalizeForSparkline([0.0, 50.0, 100.0, 25.0, 75.0]) == [0, 4, 7, 2, 5]
  {
    var v := [0.0, 50.0, 100.0, 25.0, 75.0];
    assert PeakOf(v) == 100.0;
    assert Level(50.0, 100.0) == 4 && Level(25.0, 100.0) == 2 && Level(75.0, 100.0) == 5;
    LevelBounds(100.0, 100.0);
    LevelBounds(0.0, 100.0);
    var r := NormalizeForSparkline(v);
    assert |r| == 5 && r[0] == 0 && r[1] == 4 && r[2] == 7 && r[3] == 2 && r[4] == 5;
  }

  /** `rx.zip(tx).map(|(r, t)| r + t)`: elementwise sums, as long as the shorter input. */
  function ZipSum(a: seq<real>, b: seq<real>): (r: seq<real>)
    ensures |r| == Min(|a|, |b|)
    ensures forall i :: 0 <= i < |r| ==> r[i] == a[i] + b[i]
  {
    seq(Min(|a|, |b|), i requires 0 <= i < Min(|a|, |b|) => a[i] + b[i])
  }

  // ---- PortHistory ------------------------------------------------------

  /** The contents of the five channels of one port, oldest sample first. */
  datatype Channels = Channels(
    rxBytes: seq<real>, txBytes: seq<real>,
    rxPackets: seq<real>, txPackets: seq<real>, errors: seq<real>)

  const NoSamples := Channels([], [], [], [], [])

  /** Five channels of one port that were always advanced together. */
  predicate InStep(c: Channels, cap: nat) {
    && |c.rxBytes| <= cap
    && |c.txBytes| == |c.rxBytes| && |c.rxPackets| == |c.rxBytes|
    && |c.txPackets| == |c.rxBytes| && |c.errors| == |c.rxBytes|
  }

  /** The channels after recording one sample into each. */
  function RecordSample(c: Channels, rx: real, tx: real, rxp: real, txp: real, err: real, cap: nat): Channels {
    Channels(
      Window(c.rxBytes + [rx], cap), Window(c.txBytes + [tx], cap),
      Window(c.rxPackets + [rxp], cap), Window(c.txPackets + [txp], cap),
      Window(c.errors + [err], cap))
  }

  /** Recording keeps the channels in step, grows them by one until the capacity is
      reached, and makes the recorded values the newest sample of each channel. */
  lemma RecordSampleInStep(c: Channels, rx: real, tx: real, rxp: real, txp: real, err: real, cap: nat)
    requires cap >= 1 && InStep(c, cap)
    ensures var c' := RecordSample(c, rx, tx, rxp, txp, err, cap);
      && InStep(c', cap) && |c'.rxBytes| == Min(|c.rxBytes| + 1, cap)
      && c'.rxBytes[|c'.rxBytes| - 1] == rx && c'.txBytes[|c'.txBytes| - 1] == tx
      && c'.rxPackets[|c'.rxPackets| - 1] == rxp && c'.txPackets[|c'.txPackets| - 1] == txp
      && c'.errors[|c'.errors| - 1] == err
  {
  }

  /** The sum of a series (`Iterator::sum`). */
  function Sum(s: seq<real>): real {
    if s == [] then 0.0 else Sum(s[..|s| - 1]) + s[|s| - 1]
  }

  /** `n` copies of `p` added up. */
  function Repeat(n: nat, p: real): real {
    if n == 0 then 0.0 else Repeat(n - 1, p) + p
  }

  lemma {:induction false} RepeatMonotone(n: nat, p: real, q: real)
    requires p <= q
    ensures Repeat(n, p) <= Repeat(n, q)
  {
    if n > 0 {
      RepeatMonotone(n - 1, p, q);
    }
  }

  lemma {:induction false} RepeatIsProduct(n: nat, p: real)
    ensures Repeat(n, p) == n as real * p
  {
    if n > 0 {
      RepeatIsProduct(n - 1, p);
      assert (n - 1) as real * p + p == n as real * p;
    }
  }

  lemma {:induction false} RepeatAdd(n: nat, p: real, q: real)
    ensures Repeat(n, p) + Repeat(n, q) == Repeat(n, p + q)
  {
    if n > 0 {
      RepeatAdd(n - 1, p, q);
    }
  }

  lemma QuotientAtMost(x: real, n: nat, p: real)
    requires n > 0 && x <= Repeat(n, p)
    ensures x / n as real <= p
  {
    RepeatIsProduct(n, p);
    assert x / n as real <= n as real * p / n as real;
  }

  /** No sum exceeds its length times its peak. */
  lemma {:induction false} SumAtMostPeak(s: seq<real>)
    ensures Sum(s) <= Repeat(|s|, PeakOf(s))
  {
    if s != [] {
      var init := s[..|s| - 1];
      SumAtMostPeak(init);
      RepeatMonotone(|init|, PeakOf(init), PeakOf(s));
    }
  }

  /** Sparkline levels of the received plus sent throughput of the last `samples`
      samples, scaled against the largest such sum. */
  function CombinedSparkline(c: Channels, samples: nat): seq<nat> {
    NormalizeForSparkline(ZipSum(Newest(c.rxBytes, samples), Newest(c.txBytes, samples)))
  }

  /** The combined sparkline is as long as the shorter of the two windows, and each of its
      levels is that of the sample's sum against the largest sum shown. */
  lemma CombinedSparklineShape(c: Channels, samples: nat)
    ensures var r := CombinedSparkline(c, samples);
      var rx, tx := Newest(c.rxBytes, samples), Newest(c.txBytes, samples);
      var sums := ZipSum(rx, tx);
      && |r| == Min(|rx|, |tx|) && |rx| == Min(samples, |c.rxBytes|) && |tx| == Min(samples, |c.txBytes|)
      && (forall i :: 0 <= i < |r| ==> r[i] <= 7)
      && (PeakOf(sums) > 0.0 ==> forall i :: 0 <= i < |r| ==> r[i] == Level(rx[i] + tx[i], PeakOf(sums)))
  {
  }

  /** The peak throughput: the largest received rate plus the largest sent rate. */
  function PeakThroughputOf(c: Channels): (r: real)
    ensures r >= 0.0
    ensures forall i, j :: 0 <= i < |c.rxBytes| && 0 <= j < |c.txBytes| ==> c.rxBytes[i] + c.txBytes[j] <= r
  {
    PeakOf(c.rxBytes) + PeakOf(c.txBytes)
  }

  /** The average throughput: both sums over the number of received samples, 0.0 when
      there are none. */
  function AvgThroughputOf(c: Channels): real {
    if c.rxBytes == [] then 0.0 else (Sum(c.rxBytes) + Sum(c.txBytes)) / |c.rxBytes| as real
  }

  /** With the channels in step, the average never exceeds the peak. */
  lemma AvgAtMostPeak(c: Channels)
    requires |c.txBytes| == |c.rxBytes|
    ensures AvgThroughputOf(c) <= PeakThroughputOf(c)
  {
    if c.rxBytes != [] {
      var n := |c.rxBytes|;
      var total, pr, pt := Sum(c.rxBytes) + Sum(c.txBytes), PeakOf(c.rxBytes), PeakOf(c.txBytes);
      SumAtMostPeak(c.rxBytes);
      SumAtMostPeak(c.txBytes);
      RepeatAdd(n, pr, pt);
      QuotientAtMost(total, n, pr + pt);
    }
  }

  /** Two buffers that share neither the buffer nor its storage. */
  ghost predicate Separate(a: RingBuffer<real>, b: RingBuffer<real>) {
    a != b && a.data != b.data
  }

  class PortHistory {
    const rxBytesPerSec: RingBuffer<real>
    const txBytesPerSec: RingBuffer<real>
    const rxPacketsPerSec: RingBuffer<real>
    const txPacketsPerSec: RingBuffer<real>
    const errorRate: RingBuffer<real>
    ghost const Repr: set<object>

    ghost predicate Valid()
      reads Repr
    {
      && rxBytesPerSec in Repr && rxBytesPerSec.data in Repr && txBytesPerSec in Repr && txBytesPerSec.data in Repr
      && rxPacketsPerSec in Repr && rxPacketsPerSec.data in Repr && txPacketsPerSec in Repr
      && txPacketsPerSec.data in Repr && errorRate in Repr && errorRate.data in Repr
      && rxBytesPerSec.Valid() && txBytesPerSec.Valid() && rxPacketsPerSec.Valid()
      && txPacketsPerSec.Valid() && errorRate.Valid()
      && Distinct()
      && txBytesPerSec.capacity == rxBytesPerSec.capacity && rxPacketsPerSec.capacity == rxBytesPerSec.capacity
      && txPacketsPerSec.capacity == rxBytesPerSec.capacity && errorRate.capacity == rxBytesPerSec.capacity
      && InStep(Snapshot(), rxBytesPerSec.capacity)
    }

    /** The five buffers are separate objects over separate storage. */
    ghost predicate Distinct() {
      && Separate(rxBytesPerSec, txBytesPerSec) && Separate(rxBytesPerSec, rxPacketsPerSec)
      && Separate(rxBytesPerSec, txPacketsPerSec) && Separate(rxBytesPerSec, errorRate)
      && Separate(txBytesPerSec, rxPacketsPerSec) && Separate(txBytesPerSec, txPacketsPerSec)
      && Separate(txBytesPerSec, errorRate) && Separate(rxPacketsPerSec, txPacketsPerSec)
      && Separate(rxPacketsPerSec, errorRate) && Separate(txPacketsPerSec, errorRate)
    }

    /** The contents of the five buffers. */
    ghost function Snapshot(): Channels
      reads rxBytesPerSec, txBytesPerSec, rxPacketsPerSec, txPacketsPerSec, errorRate
    {
      Channels(rxBytesPerSec.Contents, txBytesPerSec.Contents, rxPacketsPerSec.Contents,
               txPacketsPerSec.Contents, errorRate.Contents)
    }

    ghost function Capacity(): nat {
      rxBytesPerSec.capacity
    }

    constructor WithCapacity(capacity: nat)
      ensures Valid() && fresh(Repr)
      ensures Snapshot() == NoSamples && Capacity() == capacity
    {
      var rx := new RingBuffer(capacity, 0.0);
      var tx := new RingBuffer(capacity, 0.0);
      var rxp := new RingBuffer(capacity, 0.0);
      var txp := new RingBuffer(capacity, 0.0);
      var err := new RingBuffer(capacity, 0.0);
      rxBytesPerSec, txBytesPerSec, rxPacketsPerSec, txPacketsPerSec, errorRate := rx, tx, rxp, txp, err;
      Repr := {rx, rx.data, tx, tx.data, rxp, rxp.data, txp, txp.data, err, err.data};
      new;
      assert rxBytesPerSec.Valid() && txBytesPerSec.Valid() && rxPacketsPerSec.Valid();
      assert txPacketsPerSec.Valid() && errorRate.Valid();
      assert Distinct();
    }

    /** Pushes one value onto each of the five channels (a push into a buffer of
        capacity 0 panics). */
    method Record(rx: real, tx: real, rxp: real, txp: real, err: real)
      requires Valid() && Capacity() >= 1
      modifies Repr
      ensures Valid()
      ensures Snapshot() == RecordSample(old(Snapshot()), rx, tx, rxp, txp, err, Capacity())
    {
      ghost var c := Snapshot();
      rxBytesPerSec.Push(rx);
      txBytesPerSec.Push(tx);
      assert rxBytesPerSec.Valid() && rxBytesPerSec.Contents == Window(c.rxBytes + [rx], Capacity());
      rxPacketsPerSec.Push(rxp);
      txPacketsPerSec.Push(txp);
      assert rxPacketsPerSec.Valid() && rxPacketsPerSec.Contents == Window(c.rxPackets + [rxp], Capacity());
      errorRate.Push(err);
      assert rxBytesPerSec.Valid() && txBytesPerSec.Valid() && rxPacketsPerSec.Valid() && txPacketsPerSec.Valid();
      assert Snapshot() == RecordSample(c, rx, tx, rxp, txp, err, Capacity());
      RecordSampleInStep(c, rx, tx, rxp, txp, err, Capacity());
    }

    /** `combined_sparkline_data`. */
    function CombinedSparklineData(samples: nat): (r: seq<nat>)
      reads Repr
      requires Valid()
      ensures r == CombinedSparkline(Snapshot(), samples)
      ensures |r| == Min(samples, |Snapshot().rxBytes|)
    {
      var rx := rxBytesPerSec.LastN(samples);
      var tx := txBytesPerSec.LastN(samples);
      NormalizeForSparkline(ZipSum(rx, tx))
    }

    /** Sparkline levels of the received throughput over the last `samples` samples. */
    function RxSparklineData(samples: nat): (r: seq<nat>)
      reads Repr
      requires Valid()
      ensures r == NormalizeForSparkline(Newest(Snapshot().rxBytes, samples))
    {
      NormalizeForSparkline(rxBytesPerSec.LastN(samples))
    }

    /** Sparkline levels of the sent throughput over the last `samples` samples. */
    function TxSparklineData(samples: nat): (r: seq<nat>)
      reads Repr
      requires Valid()
      ensures r == NormalizeForSparkline(Newest(Snapshot().txBytes, samples))
    {
      NormalizeForSparkline(txBytesPerSec.LastN(samples))
    }

    /** `peak_throughput`. */
    function PeakThroughput(): (r: real)
      reads Repr
      requires Valid()
      ensures r == PeakThroughputOf(Snapshot())
    {
      PeakOf(rxBytesPerSec.Iter()) + PeakOf(txBytesPerSec.Iter())
    }

    /** `avg_throughput`; never above the peak. */
    function AvgThroughput(): (r: real)
      reads Repr
      requires Valid()
      ensures r == AvgThroughputOf(Snapshot())
      ensures r <= PeakThroughput()
    {
      AvgAtMostPeak(Snapshot());
      if rxBytesPerSec.IsEmpty() then 0.0
      else (Sum(rxBytesPerSec.Iter()) + Sum(txBytesPerSec.Iter())) / rxBytesPerSec.Len() as real
    }
  }

  // ---- HistoryCollector --------------------------------------------------

  /** The history of `key` in `m`, empty when it is not tracked. */
  function Lookup(m: map<string, Channels>, key: string): Channels {
    if key in m then m[key] else NoSamples
  }

  /** The keys of the ports that are still present. */
  function ActiveKeys(active: seq<(string, u16)>): set<string> {
    set i | 0 <= i < |active| :: PortKey(active[i].0, active[i].1)
  }

  /** The histories after recording one sample for `key`, creating its history on first sight. */
  function RecordInto(m: map<string, Channels>, key: string,
                      rx: real, tx: real, rxp: real, txp: real, err: real, cap: nat): map<string, Channels> {
    m[key := RecordSample(Lookup(m, key), rx, tx, rxp, txp, err, cap)]
  }

  /** The histories whose keys are in `keep`. */
  function RetainKeys<V>(m: map<string, V>, keep: set<string>): map<string, V> {
    map k | k in m && k in keep :: m[k]
  }

  /** Every history in `m` holds channels in step, within the capacity. */
  predicate AllInStep(m: map<string, Channels>, cap: nat) {
    forall k :: k in m ==> InStep(m[k], cap)
  }

  /** Recording adds only `key` to the tracked ports, so the count grows by at most one,
      and leaves every other port's history as it was. */
  lemma RecordIntoKeys(m: map<string, Channels>, key: string,
                       rx: real, tx: real, rxp: real, txp: real, err: real, cap: nat)
    ensures var m' := RecordInto(m, key, rx, tx, rxp, txp, err, cap);
      && m'.Keys == m.Keys + {key}
      && |m'| <= |m| + 1 && (key in m ==> |m'| == |m|)
      && (forall k :: k in m && k != key ==> m'[k] == m[k])
  {
    var m' := RecordInto(m, key, rx, tx, rxp, txp, err, cap);
    if key in m {
      assert m'.Keys == m.Keys;
    } else {
      assert m'.Keys == m.Keys + {key};
    }
  }

  /** Recording keeps every history in step, and the recorded sample becomes the
      newest of the port's channels. */
  lemma RecordIntoInStep(m: map<string, Channels>, key: string,
                         rx: real, tx: real, rxp: real, txp: real, err: real, cap: nat)
    requires cap >= 1 && AllInStep(m, cap)
    ensures var m' := RecordInto(m, key, rx, tx, rxp, txp, err, cap);
      && AllInStep(m', cap)
      && m'[key].rxBytes[|m'[key].rxBytes| - 1] == rx && m'[key].txBytes[|m'[key].txBytes| - 1] == tx
      && m'[key].rxPackets[|m'[key].rxPackets| - 1] == rxp && m'[key].txPackets[|m'[key].txPackets| - 1] == txp
      && m'[key].errors[|m'[key].errors| - 1] == err
  {
    RecordSampleInStep(Lookup(m, key), rx, tx, rxp, txp, err, cap);
  }

  /** Retaining keeps exactly the entries whose keys are both present and kept,
      untouched, and is idempotent. */
  lemma RetainKeysSpec<V>(m: map<string, V>, keep: set<string>)
    ensures RetainKeys(m, keep).Keys == m.Keys * keep
    ensures forall k :: k in RetainKeys(m, keep) ==> RetainKeys(m, keep)[k] == m[k]
    ensures RetainKeys(RetainKeys(m, keep), keep) == RetainKeys(m, keep)
  {
  }

  /** Retaining keeps the remaining histories in step. */
  lemma RetainKeysInStep(m: map<string, Channels>, keep: set<string>, cap: nat)
    requires AllInStep(m, cap)
    ensures AllInStep(RetainKeys(m, keep), cap)
  {
  }

  /** All port histories, keyed by "adapter:port". Each history is held as the
      contents of its five channels. */
  class HistoryCollector {
    var histories: map<string, Channels>
    const capacity: nat

    ghost predicate Valid()
      reads this
    {
      AllInStep(histories, capacity)
    }

    constructor New()
      ensures Valid() && histories == map[] && capacity == DEFAULT_HISTORY_SIZE
    {
      histories := map[];
      capacity := DEFAULT_HISTORY_SIZE;
    }

    constructor WithCapacity(capacity: nat)
      ensures Valid() && histories == map[] && this.capacity == capacity
    {
      histories := map[];
      this.capacity := capacity;
    }

    /** The history of a port, created empty on first reference. */
    method GetOrCreate(adapter: string, port: u16) returns (h: Channels)
      requires Valid()
      modifies this
      ensures Valid()
      ensures var key := PortKey(adapter, port);
        && histories == old(histories)[key := Lookup(old(histories), key)]
        && h == histories[key] == Lookup(old(histories), key)
    {
      var key := PortKey(adapter, port);
      if key !in histories {
        histories := histories[key := NoSamples];
      }
      h := histories[key];
    }

    /** The history of a port, if it is tracked; never creates one. */
    function Get(adapter: string, port: u16): (r: Option<Channels>)
      reads this
      ensures r.Some? <==> PortKey(adapter, port) in histories
      ensures r.Some? ==> r.value == histories[PortKey(adapter, port)]
    {
      var key := PortKey(adapter, port);
      if key in histories then Some(histories[key]) else None
    }

    /** Appends one sample to the port's history, creating it on first sight
        (a push into a history of capacity 0 panics). */
    method Record(adapter: string, port: u16, rx: real, tx: real, rxp: real, txp: real, err: real)
      requires Valid() && capacity >= 1
      modifies this
      ensures Valid()
      ensures histories == RecordInto(old(histories), PortKey(adapter, port), rx, tx, rxp, txp, err, capacity)
    {
      var h := GetOrCreate(adapter, port);
      var key := PortKey(adapter, port);
      histories := histories[key := RecordSample(h, rx, tx, rxp, txp, err, capacity)];
      RecordIntoInStep(old(histories), key, rx, tx, rxp, txp, err, capacity);
    }

    /** Drops the history of every port not in `active`. */
    method RetainPorts(active: seq<(string, u16)>)
      requires Valid()
      modifies this
      ensures Valid()
      ensures histories == RetainKeys(old(histories), ActiveKeys(active))
    {
      var activeKeys := ActiveKeys(active);
      histories := map k | k in histories && k in activeKeys :: histories[k];
      RetainKeysInStep(old(histories), activeKeys, capacity);
    }

    function PortCount(): (r: nat)
      reads this
      ensures r == |histories.Keys|
    {
      |histories|
    }
  }

  /** ibtop's `test_history_collector_basic`: two ports of one adapter recorded,
      a third port never seen. */
  method HistoryCollectorBasic() returns (count: nat, first: bool, second: bool, other: bool)
    ensures count == 2 && first && second && !other
  {
    var c := new HistoryCollector.New();
    ScenarioKeys();
    c.Record("mlx5_0", 1, 1000.0, 500.0, 10.0, 5.0, 0.0);
    RecordIntoKeys(map[], PortKey("mlx5_0", 1), 1000.0, 500.0, 10.0, 5.0, 0.0, c.capacity);
    ghost var h1 := c.histories;
    c.Record("mlx5_0", 2, 2000.0, 1000.0, 20.0, 10.0, 0.1);
    RecordIntoKeys(h1, PortKey("mlx5_0", 2), 2000.0, 1000.0, 20.0, 10.0, 0.1, c.capacity);
    assert c.histories.Keys == {PortKey("mlx5_0", 1), PortKey("mlx5_0", 2)};
    count := c.PortCount();
    first, second, other := c.Get("mlx5_0", 1).Some?, c.Get("mlx5_0", 2).Some?, c.Get("mlx5_1", 1).Some?;
  }

  /** ibtop's `test_history_collector_retain`: three ports recorded, then only
      mlx5_0:1 and mlx5_1:1 retained. */
  method HistoryCollectorRetain() returns (before: nat, after: nat, kept01: bool, kept02: bool, kept11: bool)
    ensures before == 3 && after == 2 && kept01 && !kept02 && kept11
  {
    var c := new HistoryCollector.New();
    var k01, k02, k11 := PortKey("mlx5_0", 1), PortKey("mlx5_0", 2), PortKey("mlx5_1", 1);
    ScenarioKeys();
    c.Record("mlx5_0", 1, 1000.0, 500.0, 10.0, 5.0, 0.0);
    c.Record("mlx5_0", 2, 2000.0, 1000.0, 20.0, 10.0, 0.1);
    ghost var h2 := c.histories;
    c.Record("mlx5_1", 1, 3000.0, 1500.0, 30.0, 15.0, 0.0);
    RecordedThree(h2, c.histories, c.capacity);
    before := c.PortCount();
    ghost var h3 := c.histories;
    c.RetainPorts([("mlx5_0", 1), ("mlx5_1", 1)]);
    RetainKeysSpec(h3, {k01, k11});
    assert c.histories.Keys == {k01, k11};
    after := c.PortCount();
    kept01, kept02, kept11 := c.Get("mlx5_0", 1).Some?, c.Get("mlx5_0", 2).Some?, c.Get("mlx5_1", 1).Some?;
  }

  lemma RecordedThree(h2: map<string, Channels>, h3: map<string, Channels>, cap: nat)
    requires h2 == RecordInto(RecordInto(map[], PortKey("mlx5_0", 1), 1000.0, 500.0, 10.0, 5.0, 0.0, cap),
                              PortKey("mlx5_0", 2), 2000.0, 1000.0, 20.0, 10.0, 0.1, cap)
    requires h3 == RecordInto(h2, PortKey("mlx5_1", 1), 3000.0, 1500.0, 30.0, 15.0, 0.0, cap)
    ensures h3.Keys == {PortKey("mlx5_0", 1), PortKey("mlx5_0", 2), PortKey("mlx5_1", 1)}
  {
    var h1 := RecordInto(map[], PortKey("mlx5_0", 1), 1000.0, 500.0, 10.0, 5.0, 0.0, cap);
    RecordIntoKeys(map[], PortKey("mlx5_0", 1), 1000.0, 500.0, 10.0, 5.0, 0.0, cap);
    RecordIntoKeys(h1, PortKey("mlx5_0", 2), 2000.0, 1000.0, 20.0, 10.0, 0.1, cap);
    RecordIntoKeys(h2, PortKey("mlx5_1", 1), 3000.0, 1500.0, 30.0, 15.0, 0.0, cap);
  }

  /** The three keys of ibtop's collector tests are distinct, and the two retained ports
      have the first and the last of them. */
  lemma ScenarioKeys()
    ensures PortKey("mlx5_0", 1) != PortKey("mlx5_0", 2) && PortKey("mlx5_0", 1) != PortKey("mlx5_1", 1)
    ensures PortKey("mlx5_0", 2) != PortKey("mlx5_1", 1)
    ensures ActiveKeys([("mlx5_0", 1), ("mlx5_1", 1)]) == {PortKey("mlx5_0", 1), PortKey("mlx5_1", 1)}
  {
    assert NatToString(1) == "1" && NatToString(2) == "2";
    assert PortKey("mlx5_0", 1)[7] != PortKey("mlx5_0", 2)[7];
    assert PortKey("mlx5_0", 1)[5] != PortKey("mlx5_1", 1)[5];
    assert PortKey("mlx5_0", 2)[7] != PortKey("mlx5_1", 1)[7];
    var active: seq<(string, u16)> := [("mlx5_0", 1), ("mlx5_1", 1)];
    assert active[0] == ("mlx5_0", 1) && active[1] == ("mlx5_1", 1);
  }

  /** ibtop's `test_ring_buffer_basic`: capacity 3, empty at first, then 1, 2, 3 in order. */
  method RingBufferBasicScenario() returns (emptyAtFirst: bool, lenAtFirst: nat,
                                            values: seq<int>, len: nat, emptyAfter: bool)
    ensures emptyAtFirst && lenAtFirst == 0
    ensures values == [1, 2, 3] && len == 3 && !emptyAfter
  {
    var buf := new RingBuffer<int>(3, 0);
    emptyAtFirst, lenAtFirst := buf.IsEmpty(), buf.Len();
    buf.Push(1);
    buf.Push(2);
    buf.Push(3);
    len, emptyAfter := buf.Len(), buf.IsEmpty();
    values := buf.Iter();
  }

  /** ibtop's `test_ring_buffer_overflow`, followed by a clear: the fourth push into
      capacity 3 overwrites the oldest value, and clearing keeps the capacity. */
  method RingBufferOverflowScenario() returns (values: seq<int>, len: nat, cleared: seq<int>, cap: nat)
    ensures values == [2, 3, 4] && len == 3
    ensures cleared == [] && cap == 3
  {
    var buf := new RingBuffer<int>(3, 0);
    buf.Push(1);
    buf.Push(2);
    buf.Push(3);
    buf.Push(4);
    values, len := buf.Iter(), buf.Len();
    buf.Clear();
    cleared, cap := buf.Iter(), buf.Capacity();
  }

  /** ibtop's `test_ring_buffer_last`: capacity 5, no newest value at first, then
      the newest after one and after three pushes. */
  method RingBufferLastScenario() returns (none: Option<int>, afterOne: Option<int>, afterThree: Option<int>)
    ensures none == None && afterOne == Some(10) && afterThree == Some(30)
  {
    var buf := new RingBuffer<int>(5, 0);
    none := buf.Last();
    buf.Push(10);
    afterOne := buf.Last();
    buf.Push(20);
    buf.Push(30);
    afterThree := buf.Last();
  }

  /** ibtop's `test_port_history_record`: two samples recorded with capacity 10 leave
      two values in each byte channel. */
  method PortHistoryRecordScenario() returns (rxLen: nat, txLen: nat)
    ensures rxLen == 2 && txLen == 2
  {
    var h := new PortHistory.WithCapacity(10);
    h.Record(1000.0, 500.0, 10.0, 5.0, 0.0);
    h.Record(2000.0, 1000.0, 20.0, 10.0, 0.1);
    rxLen, txLen := h.rxBytesPerSec.Len(), h.txBytesPerSec.Len();
  }
}
