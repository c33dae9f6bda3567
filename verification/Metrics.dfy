/** Local call counters with five-minute history (aim_node/management/metrics.py).  Times are whole
    microseconds since the epoch, latencies are reals. */
module Metrics {
  import opened Results

  const MICROS := 1_000_000
  const BUCKET_MICROS := 300 * MICROS
  const MAX_BUCKETS := 7 * 24 * 12

  datatype Bucket = Bucket(start: nat, calls: nat, errors: nat, avg: real, sum: real)

  /** The counters, the history, and, for the record, the buckets dropped from it. */
  datatype Collector = Collector(totalCalls: nat, totalErrors: nat, series: seq<Bucket>, evicted: seq<Bucket>)

  // ---------------------------------------------------------------- buckets

  /** `now - timedelta(minutes=now.minute % 5, seconds=now.second, microseconds=now.microsecond)` */
  function BucketStart(now: nat): int {
    var minute, second, micro := now / MICROS / 60 % 60, now / MICROS % 60, now % MICROS;
    now - (minute % 5 * 60 * MICROS + second * MICROS + micro)
  }

  /** Subtracting those fields is rounding down to a five-minute slot. */
  lemma BucketStartIsSlot(now: nat)
    ensures BucketStart(now) == now / 300_000_000 * 300_000_000
  {
    var s := now / MICROS;
    assert now == s * MICROS + now % MICROS;
    assert s == s / 60 * 60 + s % 60;
    var m := s / 60;
    assert m % 60 % 5 == m % 5;
    assert s / 300 == m / 5;
    assert now / BUCKET_MICROS == s / 300;
    assert m == m / 5 * 5 + m % 5;
  }

  function LastN(s: seq<Bucket>, n: nat): (r: seq<Bucket>)
    ensures |r| == if |s| <= n then |s| else n
  {
    if |s| <= n then s else s[|s| - n..]
  }

  /** `_current_bucket` */
  function WithCurrentBucket(c: Collector, now: nat): (c': Collector)
    ensures c'.series != []
  {
    BucketStartIsSlot(now);
    var start: nat := BucketStart(now);
    if c.series != [] && c.series[|c.series| - 1].start == start then c
    else
      var longer := c.series + [Bucket(start, 0, 0, 0.0, 0.0)];
      c.(series := LastN(longer, MAX_BUCKETS),
         evicted := c.evicted + longer[..|longer| - |LastN(longer, MAX_BUCKETS)|])
  }

  /** The average of a bucket that holds at least one call. */
  function Average(sum: real, calls: nat): real {
    if calls > 0 then sum / calls as real else 0.0
  }

  function CountIn(b: Bucket, latency: real, error: bool): Bucket {
    var calls, sum := b.calls + 1, b.sum + latency;
    Bucket(b.start, calls, if error then b.errors + 1 else b.errors, Average(sum, calls), sum)
  }

  /** `record_call` */
  function RecordCall(c: Collector, now: nat, latency: real, error: bool): Collector {
    var c1 := WithCurrentBucket(c.(totalCalls := c.totalCalls + 1,
                                   totalErrors := if error then c.totalErrors + 1 else c.totalErrors), now);
    c1.(series := c1.series[|c1.series| - 1 := CountIn(c1.series[|c1.series| - 1], latency, error)])
  }

  // ---------------------------------------------------------------- rounding and storage

  /** `round(x, 3)`: to the nearest thousandth, halves to the even one. */
  function Round3(x: real): real {
    var scaled := x * 1000.0;
    var down := scaled.Floor;
    var rest := scaled - down as real;
    var n := if rest < 0.5 || (rest == 0.5 && down % 2 == 0) then down else down + 1;
    n as real / 1000.0
  }

  /** One of `_public_buckets`: what is stored of a bucket. */
  datatype PublicBucket = PublicBucket(start: nat, calls: nat, errors: nat, avg: real)

  function Publish(b: Bucket): PublicBucket {
    PublicBucket(b.start, b.calls, b.errors, Round3(b.avg))
  }

  function PublicBuckets(c: Collector): (r: seq<PublicBucket>)
    ensures |r| == |c.series| && forall i :: 0 <= i < |r| ==> r[i] == Publish(c.series[i])
  {
    seq(|c.series|, i requires 0 <= i < |c.series| => Publish(c.series[i]))
  }

  function LoadBucket(b: PublicBucket): Bucket {
    Bucket(b.start, b.calls, b.errors, b.avg, b.avg * b.calls as real)
  }

  function LoadSeries(stored: seq<PublicBucket>): (r: seq<Bucket>)
    ensures |r| == |stored| && forall i :: 0 <= i < |r| ==> r[i] == LoadBucket(stored[i])
  {
    seq(|stored|, i requires 0 <= i < |stored| => LoadBucket(stored[i]))
  }

  /** The two stores on disk, and, for the record, the buckets dropped before they were written. */
  datatype Saved = Saved(totalCalls: nat, totalErrors: nat, buckets: seq<PublicBucket>, evicted: seq<Bucket>)

  /** What a node that never flushed finds. */
  const NOTHING_SAVED := Saved(0, 0, [], [])

  /** `flush` */
  function Flushed(c: Collector): Saved {
    Saved(c.totalCalls, c.totalErrors, PublicBuckets(c), c.evicted)
  }

  /** `_load` */
  function Loaded(s: Saved): Collector {
    Collector(s.totalCalls, s.totalErrors, LastN(LoadSeries(s.buckets), MAX_BUCKETS), s.evicted)
  }

  function Reload(c: Collector): Collector {
    Loaded(Flushed(c))
  }

  // ---------------------------------------------------------------- series

  datatype Range = Hour | Day | Week

  datatype MetricType = Calls | Errors | Latency

  function Window(r: Range): nat {
    match r
    case Hour => 3600 * MICROS
    case Day => 24 * 3600 * MICROS
    case Week => 7 * 24 * 3600 * MICROS
  }

  datatype Point = Point(start: nat, value: real)

  function PointOf(b: PublicBucket, metric: MetricType): Point {
    match metric
    case Calls => Point(b.start, b.calls as real)
    case Errors => Point(b.start, b.errors as real)
    case Latency => Point(b.start, b.avg)
  }

  /** The points of the buckets that are not older than the cutoff. */
  function PointsSince(bs: seq<PublicBucket>, cutoff: int, metric: MetricType): seq<Point> {
    if bs == [] then []
    else
      PointsSince(bs[..|bs| - 1], cutoff, metric)
      + if bs[|bs| - 1].start < cutoff then [] else [PointOf(bs[|bs| - 1], metric)]
  }

  /** `series_for` */
  function SeriesFor(c: Collector, now: nat, range: Range, metric: MetricType): seq<Point> {
    PointsSince(PublicBuckets(c), now - Window(range), metric)
  }

  // ---------------------------------------------------------------- the collector

  class MetricsCollector {
    var totalCalls: nat
    var totalErrors: nat
    var timeseries: seq<Bucket>
    ghost var evicted: seq<Bucket>

    ghost function View(): Collector
      reads this
    {
      Collector(totalCalls, totalErrors, timeseries, evicted)
    }

    /** The ghost part of `saved` only says which buckets the writer had dropped. */
    constructor Load(saved: Saved)
      ensures View() == Loaded(saved)
    {
      totalCalls, totalErrors, evicted := saved.totalCalls, saved.totalErrors, saved.evicted;
      var normalized: seq<Bucket> := [];
      for i := 0 to |saved.buckets|
        invariant |normalized| == i
        invariant forall k :: 0 <= k < i ==> normalized[k] == LoadBucket(saved.buckets[k])
      {
        normalized := normalized + [LoadBucket(saved.buckets[i])];
      }
      assert normalized == LoadSeries(saved.buckets);
      timeseries := LastN(normalized, MAX_BUCKETS);
    }

    method EnsureCurrentBucket(now: nat)
      modifies this`timeseries, this`evicted
      ensures View() == WithCurrentBucket(old(View()), now)
    {
      BucketStartIsSlot(now);
      var start: nat := BucketStart(now);
      if timeseries != [] && timeseries[|timeseries| - 1].start == start {
        return;
      }
      timeseries := timeseries + [Bucket(start, 0, 0, 0.0, 0.0)];
      evicted := evicted + timeseries[..|timeseries| - |LastN(timeseries, MAX_BUCKETS)|];
      timeseries := LastN(timeseries, MAX_BUCKETS);
    }

    method Record(now: nat, latency: real, error: bool)
      modifies this
      ensures View() == RecordCall(old(View()), now, latency, error)
    {
      hide WithCurrentBucket, CountIn;
      totalCalls := totalCalls + 1;
      if error {
        totalErrors := totalErrors + 1;
      }
      EnsureCurrentBucket(now);
      var i := |timeseries| - 1;
      timeseries := timeseries[i := CountIn(timeseries[i], latency, error)];
    }

    method Points(now: nat, range: Range, metric: MetricType) returns (points: seq<Point>)
      ensures points == SeriesFor(View(), now, range, metric)
    {
      var cutoff := now - Window(range);
      ghost var public := PublicBuckets(View());
      points := [];
      for i := 0 to |timeseries|
        invariant points == PointsSince(public[..i], cutoff, metric)
      {
        assert public[..i + 1][..i] == public[..i];
        var bucket := Publish(timeseries[i]);
        if bucket.start >= cutoff {
          points := points + [PointOf(bucket, metric)];
        }
      }
      assert public[..|timeseries|] == public;
    }
  }

  // ---------------------------------------------------------------- conservation

  function TotalCalls(bs: seq<Bucket>): nat {
    if bs == [] then 0 else TotalCalls(bs[..|bs| - 1]) + bs[|bs| - 1].calls
  }

  function TotalErrors(bs: seq<Bucket>): nat {
    if bs == [] then 0 else TotalErrors(bs[..|bs| - 1]) + bs[|bs| - 1].errors
  }

  lemma {:induction false} TotalsConcat(a: seq<Bucket>, b: seq<Bucket>)
    ensures TotalCalls(a + b) == TotalCalls(a) + TotalCalls(b)
    ensures TotalErrors(a + b) == TotalErrors(a) + TotalErrors(b)
    decreases |b|
  {
    if b == [] {
      assert a + b == a;
    } else {
      assert (a + b)[..|a + b| - 1] == a + b[..|b| - 1];
      TotalsConcat(a, b[..|b| - 1]);
    }
  }

  /** The history and the evicted buckets together hold every counted call, and a bucket's sum is its
      average times its calls. */
  predicate Conserved(c: Collector) {
    && TotalCalls(c.evicted) + TotalCalls(c.series) == c.totalCalls
    && TotalErrors(c.evicted) + TotalErrors(c.series) == c.totalErrors
    && |c.series| <= 2016
    && forall i :: 0 <= i < |c.series| ==> BucketOk(c.series[i])
  }

  predicate BucketOk(b: Bucket) {
    b.calls >= 1 && b.errors <= b.calls && b.sum == b.avg * b.calls as real
  }

  /** Buckets lie on five-minute slots, in strictly increasing order, none after `now`. */
  predicate Ordered(c: Collector, now: nat) {
    && (forall i :: 0 <= i < |c.series| ==> OnSlot(c.series[i], now))
    && (forall i, j :: 0 <= i < j < |c.series| ==> c.series[i].start < c.series[j].start)
  }

  predicate OnSlot(b: Bucket, now: nat) {
    b.start % 300_000_000 == 0 && b.start <= now
  }

  lemma AverageTimesCalls(sum: real, calls: nat)
    requires calls > 0
    ensures Average(sum, calls) * calls as real == sum
  {
  }

  /** Opening the current bucket moves buckets from the history to the evicted ones, and adds one. */
  lemma OpenBucket(c: Collector, now: nat)
    requires |c.series| <= MAX_BUCKETS
    ensures var c' := WithCurrentBucket(c, now);
            && TotalCalls(c'.evicted) + TotalCalls(c'.series) == TotalCalls(c.evicted) + TotalCalls(c.series)
            && TotalErrors(c'.evicted) + TotalErrors(c'.series) == TotalErrors(c.evicted) + TotalErrors(c.series)
            && |c'.series| <= MAX_BUCKETS
            && (forall i :: 0 <= i < |c'.series| - 1 ==> c'.series[i] in c.series)
            && (var last := c'.series[|c'.series| - 1]; last in c.series || last == Bucket(BucketStart(now), 0, 0, 0.0, 0.0))
  {
    hide BucketStart, TotalCalls, TotalErrors;
    BucketStartIsSlot(now);
    if c.series == [] || c.series[|c.series| - 1].start != BucketStart(now) {
      var added := Bucket(BucketStart(now), 0, 0, 0.0, 0.0);
      var longer := c.series + [added];
      var kept := LastN(longer, MAX_BUCKETS);
      var dropped := longer[..|longer| - |kept|];
      assert longer == dropped + kept;
      TotalsConcat(dropped, kept);
      TotalsConcat(c.series, [added]);
      TotalsConcat(c.evicted, dropped);
      EmptyBucketTotals(added);
    }
  }

  lemma EmptyBucketTotals(b: Bucket)
    requires b.calls == 0 && b.errors == 0
    ensures TotalCalls([b]) == 0 && TotalErrors([b]) == 0
  {
  }

  lemma TotalsUpdateLast(bs: seq<Bucket>, b: Bucket)
    requires bs != []
    ensures var bs' := bs[|bs| - 1 := b];
            && TotalCalls(bs') == TotalCalls(bs) - bs[|bs| - 1].calls + b.calls
            && TotalErrors(bs') == TotalErrors(bs) - bs[|bs| - 1].errors + b.errors
  {
    assert bs[|bs| - 1 := b][..|bs| - 1] == bs[..|bs| - 1];
  }

  lemma RecordConserves(c: Collector, now: nat, latency: real, error: bool)
    requires Conserved(c)
    ensures Conserved(RecordCall(c, now, latency, error))
  {
    hide WithCurrentBucket, TotalCalls, TotalErrors, Average;
    var c0 := c.(totalCalls := c.totalCalls + 1, totalErrors := if error then c.totalErrors + 1 else c.totalErrors);
    var c1 := WithCurrentBucket(c0, now);
    OpenBucket(c0, now);
    var last := c1.series[|c1.series| - 1];
    TotalsUpdateLast(c1.series, CountIn(last, latency, error));
    AverageTimesCalls(last.sum + latency, last.calls + 1);
    OpenKeepsTotals(c0, now);
  }

  lemma OpenKeepsTotals(c: Collector, now: nat)
    ensures WithCurrentBucket(c, now).totalCalls == c.totalCalls && WithCurrentBucket(c, now).totalErrors == c.totalErrors
  {
  }

  lemma RecordOrders(c: Collector, before: nat, now: nat, latency: real, error: bool)
    requires Ordered(c, before) && before <= now
    ensures Ordered(RecordCall(c, now, latency, error), now)
  {
    hide CountIn, WithCurrentBucket, OnSlot;
    var c0 := c.(totalCalls := c.totalCalls + 1, totalErrors := if error then c.totalErrors + 1 else c.totalErrors);
    OpenOrders(c0, before, now);
    var last := WithCurrentBucket(c0, now).series[|WithCurrentBucket(c0, now).series| - 1];
    CountKeepsStart(last, latency, error);
    SameSlot(last, CountIn(last, latency, error), now);
  }

  lemma SameSlot(b: Bucket, b': Bucket, now: nat)
    requires b.start == b'.start && OnSlot(b, now)
    ensures OnSlot(b', now)
  {
  }

  lemma OpenOrders(c: Collector, before: nat, now: nat)
    requires Ordered(c, before) && before <= now
    ensures Ordered(WithCurrentBucket(c, now), now)
  {
    hide BucketStart, OnSlot;
    BucketStartIsSlot(now);
    forall i | 0 <= i < |c.series| ensures OnSlot(c.series[i], now) && c.series[i].start <= BucketStart(now) {
      SlotOpen(c.series[i], before, now);
    }
    NewSlot(now);
    if c.series == [] || c.series[|c.series| - 1].start != BucketStart(now) {
      var longer := c.series + [Bucket(BucketStart(now), 0, 0, 0.0, 0.0)];
      assert forall i :: 0 <= i < |longer| ==> OnSlot(longer[i], now);
      assert forall i, j :: 0 <= i < j < |longer| ==> longer[i].start < longer[j].start;
    }
  }

  lemma NewSlot(now: nat)
    ensures BucketStart(now) >= 0 && OnSlot(Bucket(BucketStart(now), 0, 0, 0.0, 0.0), now)
  {
    BucketStartIsSlot(now);
    SlotMonotone(now, now);
  }

  lemma SlotOpen(b: Bucket, before: nat, now: nat)
    requires OnSlot(b, before) && before <= now
    ensures OnSlot(b, now) && b.start <= BucketStart(now)
  {
    BucketStartIsSlot(now);
    SlotBelow(b.start, now);
  }

  lemma CountKeepsStart(b: Bucket, latency: real, error: bool)
    ensures CountIn(b, latency, error).start == b.start
  {
  }

  lemma SlotMonotone(a: nat, b: nat)
    requires a <= b
    ensures a / BUCKET_MICROS * BUCKET_MICROS <= b / BUCKET_MICROS * BUCKET_MICROS <= b
    ensures b / BUCKET_MICROS * BUCKET_MICROS % BUCKET_MICROS == 0
  {
  }

  lemma SlotBelow(start: nat, now: nat)
    requires start % BUCKET_MICROS == 0 && start <= now
    ensures start <= now / BUCKET_MICROS * BUCKET_MICROS
  {
  }

  // ---------------------------------------------------------------- storage keeps the history

  lemma RoundError(x: real)
    ensures -0.0005 <= Round3(x) - x <= 0.0005
  {
  }

  lemma Scale(d: real, n: nat)
    requires -0.0005 <= d <= 0.0005
    ensures -0.0005 * (n as real) <= d * (n as real) <= 0.0005 * (n as real)
  {
  }

  /** A flush and reload keeps every bucket's slot and counts, and changes its latency sum by at most
      0.0005 times its calls. */
  lemma ReloadDrift(c: Collector, i: nat)
    requires Conserved(c) && i < |c.series|
    ensures |Reload(c).series| == |c.series|
    ensures var b, b' := c.series[i], Reload(c).series[i];
            && b'.start == b.start && b'.calls == b.calls && b'.errors == b.errors
            && -0.0005 * (b.calls as real) <= b'.sum - b.sum <= 0.0005 * (b.calls as real)
            && BucketOk(b')
  {
    hide Round3, TotalCalls, TotalErrors;
    var b := c.series[i];
    assert BucketOk(b);
    var stored := LoadSeries(PublicBuckets(c));
    assert Reload(c).series == stored && stored[i] == LoadBucket(Publish(b));
    StoredDrift(b);
  }

  lemma StoredDrift(b: Bucket)
    requires BucketOk(b)
    ensures var b' := LoadBucket(Publish(b));
            && BucketOk(b')
            && -0.0005 * (b.calls as real) <= b'.sum - b.sum <= 0.0005 * (b.calls as real)
  {
    hide Round3;
    var n, b' := b.calls as real, LoadBucket(Publish(b));
    RoundError(b.avg);
    Scale(Round3(b.avg) - b.avg, b.calls);
    Distribute(Round3(b.avg), b.avg, n);
    assert b'.sum == Round3(b.avg) * n;
    assert b.sum == b.avg * n;
    assert b'.avg == Round3(b.avg) && b'.calls == b.calls;
  }

  lemma Distribute(x: real, y: real, n: real)
    ensures (x - y) * n == x * n - y * n
  {
  }

  lemma {:induction false} SameTotals(a: seq<Bucket>, b: seq<Bucket>)
    requires |a| == |b| && forall i :: 0 <= i < |a| ==> a[i].calls == b[i].calls && a[i].errors == b[i].errors
    ensures TotalCalls(a) == TotalCalls(b) && TotalErrors(a) == TotalErrors(b)
  {
    if a != [] {
      SameTotals(a[..|a| - 1], b[..|b| - 1]);
    }
  }

  lemma ReloadKeeps(c: Collector, now: nat)
    requires Conserved(c)
    ensures Conserved(Reload(c))
    ensures Ordered(c, now) ==> Ordered(Reload(c), now)
  {
    hide Round3, TotalCalls, TotalErrors, BucketOk;
    forall i | 0 <= i < |c.series|
      ensures |Reload(c).series| == |c.series|
      ensures Reload(c).series[i].start == c.series[i].start && Reload(c).series[i].calls == c.series[i].calls
      ensures Reload(c).series[i].errors == c.series[i].errors && BucketOk(Reload(c).series[i])
    {
      ReloadDrift(c, i);
    }
    SameTotals(c.series, Reload(c).series);
  }

  lemma RoundTwice(x: real)
    ensures Round3(Round3(x)) == Round3(x)
  {
    var n := (Round3(x) * 1000.0).Floor;
    assert Round3(x) * 1000.0 == n as real;
  }

  /** The drift does not add up: without a call in between, a second flush and reload changes nothing. */
  lemma ReloadTwice(c: Collector)
    requires |c.series| <= MAX_BUCKETS
    ensures Reload(Reload(c)) == Reload(c)
  {
    hide Round3;
    var once, twice := Reload(c), Reload(Reload(c));
    forall i | 0 <= i < |c.series|
      ensures twice.series[i] == once.series[i]
    {
      RoundTwice(c.series[i].avg);
    }
    assert twice.series == once.series;
  }

  // ---------------------------------------------------------------- runs

  /** A restart finds what was last flushed: calls since then are forgotten. */
  datatype Event = Called(now: nat, latency: real, error: bool) | Flush | Restart

  datatype Node = Node(live: Collector, saved: Saved)

  function Step(n: Node, e: Event): Node {
    match e
    case Called(now, latency, error) => n.(live := RecordCall(n.live, now, latency, error))
    case Flush => n.(saved := Flushed(n.live))
    case Restart => n.(live := Loaded(n.saved))
  }

  function Run(es: seq<Event>): Node
    decreases |es|
  {
    if es == [] then Node(Loaded(NOTHING_SAVED), NOTHING_SAVED) else Step(Run(es[..|es| - 1]), es[|es| - 1])
  }

  /** The time of the last call so far. */
  function Clock(es: seq<Event>): nat
    decreases |es|
  {
    if es == [] then 0
    else if es[|es| - 1].Called? then es[|es| - 1].now
    else Clock(es[..|es| - 1])
  }

  predicate ClockNeverBack(es: seq<Event>) {
    forall i :: 0 <= i < |es| && es[i].Called? ==> Clock(es[..i]) <= es[i].now
  }

  predicate BothConserved(n: Node) {
    Conserved(n.live) && Conserved(Loaded(n.saved))
  }

  predicate BothOrdered(n: Node, now: nat) {
    Ordered(n.live, now) && Ordered(Loaded(n.saved), now)
  }

  /** Over every run of calls, flushes and restarts, buckets in the history and evicted ones together
      count exactly the calls and errors of the totals, at most 2016 buckets are kept, and, if the
      clock never goes back, they are strictly increasing five-minute slots. */
  lemma {:induction false} MetricsConserve(es: seq<Event>)
    ensures BothConserved(Run(es))
    ensures ClockNeverBack(es) ==> BothOrdered(Run(es), Clock(es))
    decreases |es|
  {
    hide Conserved, Ordered, RecordCall, Flushed, Loaded;
    if es == [] {
      StartConserved();
    } else {
      var front, last := es[..|es| - 1], es[|es| - 1];
      MetricsConserve(front);
      assert ClockNeverBack(es) ==> ClockNeverBack(front) by {
        assert forall i :: 0 <= i < |front| ==> front[i] == es[i] && front[..i] == es[..i];
      }
      match last {
        case Called(now, latency, error) =>
          RecordConserves(Run(front).live, now, latency, error);
          if ClockNeverBack(es) {
            RecordOrders(Run(front).live, Clock(front), now, latency, error);
            OrderedLater(Loaded(Run(front).saved), Clock(front), now);
          }
        case Flush =>
          ReloadKeeps(Run(front).live, Clock(front));
        case Restart =>
      }
    }
  }

  lemma OrderedLater(c: Collector, before: nat, now: nat)
    requires Ordered(c, before) && before <= now
    ensures Ordered(c, now)
  {
  }

  lemma StartConserved()
    ensures BothConserved(Run([])) && BothOrdered(Run([]), 0)
  {
    hide Conserved, Ordered;
    EmptyConserved(Loaded(NOTHING_SAVED));
  }

  lemma EmptyConserved(c: Collector)
    requires c.totalCalls == 0 && c.totalErrors == 0 && |c.series| == 0 && |c.evicted| == 0
    ensures Conserved(c) && Ordered(c, 0)
  {
    hide BucketOk, OnSlot;
  }

  /** `series_for` returns the points of a suffix of the history: all buckets from the first one that
      is not older than the cutoff. */
  lemma PointsAreSuffix(bs: seq<PublicBucket>, cutoff: int, metric: MetricType) returns (k: nat)
    requires Increasing(bs)
    ensures k <= |bs| && PointsSince(bs, cutoff, metric) == AllPoints(bs[k..], metric)
    ensures forall i :: 0 <= i < |bs| ==> (i >= k <==> bs[i].start >= cutoff)
  {
    hide PointsSince, Increasing;
    k := FirstNotOlder(bs, cutoff);
    PointsFrom(bs, k, cutoff, metric);
  }

  predicate Increasing(bs: seq<PublicBucket>) {
    forall i, j :: 0 <= i < j < |bs| ==> bs[i].start < bs[j].start
  }

  lemma FirstNotOlder(bs: seq<PublicBucket>, cutoff: int) returns (k: nat)
    requires Increasing(bs)
    ensures k <= |bs| && forall i :: 0 <= i < |bs| ==> (i >= k <==> bs[i].start >= cutoff)
  {
    k := 0;
    while k < |bs| && bs[k].start < cutoff
      invariant k <= |bs| && forall i :: 0 <= i < k ==> bs[i].start < cutoff
    {
      k := k + 1;
    }
  }

  lemma {:induction false} PointsFrom(bs: seq<PublicBucket>, k: nat, cutoff: int, metric: MetricType)
    requires k <= |bs| && forall i :: 0 <= i < |bs| ==> (i >= k <==> bs[i].start >= cutoff)
    ensures PointsSince(bs, cutoff, metric) == AllPoints(bs[k..], metric)
  {
    hide PointOf;
    if bs != [] {
      var front, last := bs[..|bs| - 1], bs[|bs| - 1];
      if k == |bs| {
        PointsFrom(front, k - 1, cutoff, metric);
        assert bs[k..] == front[k - 1..];
      } else {
        PointsFrom(front, k, cutoff, metric);
        assert bs[k..][..|bs| - k - 1] == front[k..];
      }
    }
  }

  function AllPoints(bs: seq<PublicBucket>, metric: MetricType): seq<Point> {
    if bs == [] then [] else AllPoints(bs[..|bs| - 1], metric) + [PointOf(bs[|bs| - 1], metric)]
  }

  /** The number, the errors and the average latency of a bucket, whichever is asked for. */
  predicate Shows(p: Point, start: nat, calls: nat, errors: nat, avg: real, metric: MetricType) {
    && p.start == start
    && (metric == Calls ==> p.value == calls as real)
    && (metric == Errors ==> p.value == errors as real)
    && (metric == Latency ==> p.value == avg)
  }

  /** One point for each bucket, in order. */
  lemma {:induction false} PointPerBucket(bs: seq<PublicBucket>, metric: MetricType)
    ensures |AllPoints(bs, metric)| == |bs|
    ensures forall i :: 0 <= i < |bs| ==>
              Shows(AllPoints(bs, metric)[i], bs[i].start, bs[i].calls, bs[i].errors, bs[i].avg, metric)
  {
    hide Shows;
    if bs != [] {
      PointPerBucket(bs[..|bs| - 1], metric);
      PointShows(bs[|bs| - 1], metric);
    }
  }

  lemma PointShows(b: PublicBucket, metric: MetricType)
    ensures Shows(PointOf(b, metric), b.start, b.calls, b.errors, b.avg, metric)
  {
  }

  /** `series_for` in any run: of the buckets that began within the last hour, day or week, and of no
      others, what was asked for, in order; averages are rounded to thousandths. */
  lemma SeriesIsSuffix(es: seq<Event>, now: nat, range: Range, metric: MetricType) returns (k: nat)
    requires ClockNeverBack(es)
    ensures var c, points := Run(es).live, SeriesFor(Run(es).live, now, range, metric);
            var hours := match range case Hour => 1 case Day => 24 case Week => 168;
            && k <= |c.series| && |points| == |c.series| - k
            && (forall i :: 0 <= i < |c.series| ==> (i >= k <==> c.series[i].start >= now - hours * 3_600_000_000))
            && forall i :: 0 <= i < |points| ==>
                 var b := c.series[k + i]; Shows(points[i], b.start, b.calls, b.errors, Round3(b.avg), metric)
  {
    hide Round3, Run, PointsSince, ClockNeverBack, Conserved, OnSlot, Shows;
    MetricsConserve(es);
    var public := PublicBuckets(Run(es).live);
    assert Increasing(public);
    k := PointsAreSuffix(public, now - Window(range), metric);
    PointPerBucket(public[k..], metric);
  }

  // ---------------------------------------------------------------- which calls a bucket holds

  datatype Call = Call(now: nat, latency: real, error: bool)

  /** The calls the counters stand for: those a restart does not forget. */
  datatype Heard = Heard(live: seq<Call>, saved: seq<Call>)

  function Hears(h: Heard, e: Event): Heard {
    match e
    case Called(now, latency, error) => h.(live := h.live + [Call(now, latency, error)])
    case Flush => h.(saved := h.live)
    case Restart => h.(live := h.saved)
  }

  function HeardIn(es: seq<Event>): Heard
    decreases |es|
  {
    if es == [] then Heard([], []) else Hears(HeardIn(es[..|es| - 1]), es[|es| - 1])
  }

  datatype Tally = Tally(calls: nat, errors: nat, latency: real)

  /** The calls of the five minutes from `start` on. */
  function TallyOf(calls: seq<Call>, start: nat): Tally {
    if calls == [] then Tally(0, 0, 0.0)
    else
      var t, last := TallyOf(calls[..|calls| - 1], start), calls[|calls| - 1];
      if start <= last.now < start + 300_000_000 then
        Tally(t.calls + 1, t.errors + (if last.error then 1 else 0), t.latency + last.latency)
      else t
  }

  /** The bucket holds exactly the calls of its five minutes. */
  predicate Holds(b: Bucket, calls: seq<Call>, exact: bool) {
    var t := TallyOf(calls, b.start);
    b.calls == t.calls && b.errors == t.errors && (exact ==> b.sum == t.latency)
  }

  /** No call is later than the last bucket. */
  predicate NoneLater(series: seq<Bucket>, calls: seq<Call>) {
    calls != [] ==>
      && series != []
      && forall i :: 0 <= i < |calls| ==> calls[i].now < series[|series| - 1].start + 300_000_000
  }

  /** All buckets of the history hold their calls, and no call is later than the last of them. */
  predicate Attributed(c: Collector, calls: seq<Call>, exact: bool) {
    (forall i :: 0 <= i < |c.series| ==> Holds(c.series[i], calls, exact)) && NoneLater(c.series, calls)
  }

  lemma TallySnoc(calls: seq<Call>, x: Call, start: nat)
    ensures var t := TallyOf(calls, start);
            TallyOf(calls + [x], start) ==
              if start <= x.now < start + 300_000_000 then
                Tally(t.calls + 1, t.errors + (if x.error then 1 else 0), t.latency + x.latency)
              else t
  {
    assert (calls + [x])[..|calls|] == calls;
  }

  lemma {:induction false} TallyOfNone(calls: seq<Call>, start: nat)
    requires forall i :: 0 <= i < |calls| ==> calls[i].now < start
    ensures TallyOf(calls, start) == Tally(0, 0, 0.0)
  {
    if calls != [] {
      TallyOfNone(calls[..|calls| - 1], start);
    }
  }

  /** The slot of a time is the one the time lies in. */
  lemma SlotOf(start: nat, now: nat)
    requires start % 300_000_000 == 0
    ensures start <= now < start + 300_000_000 <==> start == BucketStart(now)
  {
    BucketStartIsSlot(now);
  }

  lemma OpenAttributes(c: Collector, calls: seq<Call>, exact: bool, before: nat, now: nat)
    requires Ordered(c, before) && before <= now && Attributed(c, calls, exact) && |c.series| <= 2016
    ensures var c' := WithCurrentBucket(c, now);
            && (forall i :: 0 <= i < |c'.series| ==> Holds(c'.series[i], calls, exact))
            && c'.series[|c'.series| - 1].start == BucketStart(now)
  {
    hide BucketStart, TallyOf, OnSlot;
    BucketStartIsSlot(now);
    if c.series == [] || c.series[|c.series| - 1].start != BucketStart(now) {
      if c.series != [] {
        LaterSlot(c.series[|c.series| - 1], before, now);
      }
      TallyOfNone(calls, BucketStart(now));
    }
  }

  lemma LaterSlot(b: Bucket, before: nat, now: nat)
    requires OnSlot(b, before) && before <= now && b.start != BucketStart(now)
    ensures b.start + 300_000_000 <= BucketStart(now)
  {
    BucketStartIsSlot(now);
  }

  lemma RecordAttributes(c: Collector, calls: seq<Call>, exact: bool, before: nat, x: Call)
    requires Ordered(c, before) && before <= x.now && Attributed(c, calls, exact) && |c.series| <= 2016
    ensures Attributed(RecordCall(c, x.now, x.latency, x.error), calls + [x], exact)
  {
    hide BucketStart, TallyOf, OnSlot, WithCurrentBucket, Average;
    var c0 := c.(totalCalls := c.totalCalls + 1, totalErrors := if x.error then c.totalErrors + 1 else c.totalErrors);
    var c1 := WithCurrentBucket(c0, x.now);
    var c' := RecordCall(c, x.now, x.latency, x.error);
    OpenAttributes(c0, calls, exact, before, x.now);
    OpenOrders(c0, before, x.now);
    forall i | 0 <= i < |c'.series| ensures Holds(c'.series[i], calls + [x], exact) {
      assert Holds(c1.series[i], calls, exact);
      OnSlotStart(c1.series[i], x.now);
      SlotOf(c1.series[i].start, x.now);
      TallySnoc(calls, x, c1.series[i].start);
    }
    OnSlotStart(c1.series[|c1.series| - 1], x.now);
    SlotOf(c1.series[|c1.series| - 1].start, x.now);
    LastOpened(c0, calls, exact, before, x.now);
  }

  lemma OnSlotStart(b: Bucket, now: nat)
    requires OnSlot(b, now)
    ensures b.start % 300_000_000 == 0
  {
  }

  /** Earlier calls are not later than the bucket that is opened. */
  lemma LastOpened(c: Collector, calls: seq<Call>, exact: bool, before: nat, now: nat)
    requires Ordered(c, before) && before <= now && Attributed(c, calls, exact)
    ensures var c' := WithCurrentBucket(c, now);
            NoneLater(c'.series, calls)
  {
    hide BucketStart, TallyOf, OnSlot, Holds;
    if c.series != [] && c.series[|c.series| - 1].start != BucketStart(now) {
      LaterSlot(c.series[|c.series| - 1], before, now);
    }
  }

  lemma ReloadAttributes(c: Collector, calls: seq<Call>, exact: bool)
    requires Conserved(c) && Attributed(c, calls, exact)
    ensures Attributed(Reload(c), calls, false)
  {
    hide Round3, TotalCalls, TotalErrors, BucketOk, TallyOf, Reload, Conserved;
    ReloadLength(c);
    var series := Reload(c).series;
    forall i | 0 <= i < |c.series|
      ensures series[i].start == c.series[i].start && Holds(series[i], calls, false)
    {
      ReloadDrift(c, i);
      assert Holds(c.series[i], calls, exact);
    }
  }

  lemma HistoryBounded(c: Collector)
    requires Conserved(c)
    ensures |c.series| <= 2016
  {
  }

  lemma ReloadLength(c: Collector)
    requires Conserved(c)
    ensures |Reload(c).series| == |c.series|
  {
    hide BucketOk;
  }

  predicate NoRestart(es: seq<Event>) {
    forall i :: 0 <= i < |es| ==> es[i] != Restart
  }

  /** Each call is counted where it belongs: in every run with a clock that never goes back, each kept
      bucket has exactly the calls and errors of its five minutes that no restart forgot, and, without a
      restart, exactly the sum of their latencies. */
  lemma {:induction false} BucketsHoldTheirCalls(es: seq<Event>)
    requires ClockNeverBack(es)
    ensures Attributed(Run(es).live, HeardIn(es).live, NoRestart(es))
    ensures Attributed(Loaded(Run(es).saved), HeardIn(es).saved, false)
    decreases |es|
  {
    hide Attributed, Conserved, Ordered, RecordCall, Flushed, Loaded, ClockNeverBack;
    if es == [] {
      NothingAttributed();
    } else {
      var front, last := es[..|es| - 1], es[|es| - 1];
      FrontOfRun(es);
      BucketsHoldTheirCalls(front);
      MetricsConserve(front);
      match last {
        case Called(now, latency, error) =>
          HistoryBounded(Run(front).live);
          RecordAttributes(Run(front).live, HeardIn(front).live, NoRestart(front), Clock(front), Call(now, latency, error));
        case Flush =>
          ReloadAttributes(Run(front).live, HeardIn(front).live, NoRestart(front));
        case Restart =>
          assert es[|es| - 1] == Restart;
      }
    }
  }

  lemma FrontOfRun(es: seq<Event>)
    requires ClockNeverBack(es) && es != []
    ensures var front, last := es[..|es| - 1], es[|es| - 1];
            && ClockNeverBack(front) && (NoRestart(es) <==> NoRestart(front) && last != Restart)
            && (last.Called? ==> Clock(front) <= last.now)
  {
    var front := es[..|es| - 1];
    assert forall i :: 0 <= i < |front| ==> front[i] == es[i] && front[..i] == es[..i];
    assert es[..|front|] == front;
    assert forall i :: 0 <= i < |es| ==> i < |front| || es[i] == es[|es| - 1];
  }

  lemma NothingAttributed()
    ensures Attributed(Run([]).live, [], true) && Attributed(Loaded(Run([]).saved), [], false)
  {
  }

  function ErrorsOf(calls: seq<Call>): nat {
    if calls == [] then 0 else ErrorsOf(calls[..|calls| - 1]) + if calls[|calls| - 1].error then 1 else 0
  }

  /** The totals count the calls no restart forgot, and the errors among them. */
  lemma {:induction false} TotalsCountCalls(es: seq<Event>)
    ensures var n, h := Run(es), HeardIn(es);
            && n.live.totalCalls == |h.live| && n.live.totalErrors == ErrorsOf(h.live)
            && n.saved.totalCalls == |h.saved| && n.saved.totalErrors == ErrorsOf(h.saved)
    decreases |es|
  {
    hide WithCurrentBucket, PublicBuckets, LoadSeries, CountIn, ErrorsOf;
    if es == [] {
      NoErrors();
    } else {
      var front, last := es[..|es| - 1], es[|es| - 1];
      TotalsCountCalls(front);
      if last.Called? {
        var live := Run(front).live;
        OpenKeepsTotals(live.(totalCalls := live.totalCalls + 1,
                              totalErrors := if last.error then live.totalErrors + 1 else live.totalErrors), last.now);
        ErrorsSnoc(HeardIn(front).live, Call(last.now, last.latency, last.error));
      }
    }
  }

  lemma NoErrors()
    ensures ErrorsOf([]) == 0
  {
  }

  lemma ErrorsSnoc(calls: seq<Call>, x: Call)
    ensures ErrorsOf(calls + [x]) == ErrorsOf(calls) + if x.error then 1 else 0
  {
    assert (calls + [x])[..|calls|] == calls;
  }
}
