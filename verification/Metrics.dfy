/** The Prometheus scraper: per-line accumulation over label sets, and the windowed percentiles. */
module Metrics {
  import opened Wrappers
  import opened Histogram

  /** One sample line after tokenising: the metric name, its labels without `le`, the `le` label, the value. */
  datatype Line = Line(name: string, labels: string, le: Option<Bound>, val: real)

  datatype Hist = Hist(buckets: Buckets, count: real, sum: real)

  /** One entry of the parse result; a histogram entry can also pick up a plain value. */
  datatype Entry = Entry(value: Option<real>, hist: Option<Hist>)

  type Scrape = map<string, Entry>

  datatype PyError = KeyError | AttributeError

  predicate EndsWith(s: string, suffix: string) {
    |s| >= |suffix| && s[|s| - |suffix|..] == suffix
  }

  function Chop(s: string, suffix: string): string
    requires EndsWith(s, suffix)
  {
    s[..|s| - |suffix|]
  }

  lemma ChopInverts(s: string, suffix: string, base: string)
    ensures EndsWith(base + suffix, suffix) && Chop(base + suffix, suffix) == base
    ensures EndsWith(s, suffix) && Chop(s, suffix) == base <==> s == base + suffix
  {
  }

  const BUCKET := "_bucket"

  function At(b: Buckets, le: Bound): real {
    if le in b then b[le] else 0.0
  }

  function AddBucket(out: Scrape, base: string, le: Option<Bound>, val: real): Result<Scrape, PyError> {
    var e := if base in out then out[base] else Entry(None, Some(Hist(map[], 0.0, 0.0)));
    if e.hist.None? then Raised(KeyError)
    else if le.None? then Raised(AttributeError)
    else
      var h := e.hist.value;
      Ok(out[base := e.(hist := Some(h.(buckets := h.buckets[le.value := At(h.buckets, le.value) + val])))])
  }

  function AddToHist(out: Scrape, base: string, count: real, sum: real): Result<Scrape, PyError>
    requires base in out
  {
    if out[base].hist.None? then Raised(KeyError)
    else
      var h := out[base].hist.value;
      Ok(out[base := out[base].(hist := Some(h.(count := h.count + count, sum := h.sum + sum)))])
  }

  function AddValue(out: Scrape, name: string, val: real): Scrape {
    var e := if name in out then out[name] else Entry(Some(0.0), None);
    out[name := e.(value := Some(e.value.GetOr(0.0) + val))]
  }

  function ParseLine(out: Scrape, l: Line): Result<Scrape, PyError> {
    if EndsWith(l.name, BUCKET) then AddBucket(out, Chop(l.name, BUCKET), l.le, l.val)
    else if EndsWith(l.name, "_count") && Chop(l.name, "_count") in out
        then AddToHist(out, Chop(l.name, "_count"), l.val, 0.0)
    else if EndsWith(l.name, "_sum") && Chop(l.name, "_sum") in out
        then AddToHist(out, Chop(l.name, "_sum"), 0.0, l.val)
    else Ok(AddValue(out, l.name, l.val))
  }

  function ParseLines(lines: seq<Line>): Result<Scrape, PyError> {
    if lines == [] then Ok(map[])
    else
      match ParseLines(lines[..|lines| - 1])
      case Raised(e) => Raised(e)
      case Ok(out) => ParseLine(out, lines[|lines| - 1])
  }

  lemma {:induction false} ParseStopsAtAnError(lines: seq<Line>, i: nat)
    requires i <= |lines| && ParseLines(lines[..i]).Raised?
    ensures ParseLines(lines) == ParseLines(lines[..i])
    decreases |lines|
  {
    if i == |lines| {
      assert lines[..i] == lines;
    } else {
      var n := |lines| - 1;
      assert lines[..n][..i] == lines[..i];
      ParseStopsAtAnError(lines[..n], i);
    }
  }

  /** `parse`, one line at a time. */
  method Parse(lines: seq<Line>) returns (r: Result<Scrape, PyError>)
    ensures r == ParseLines(lines)
  {
    var out: Scrape := map[];
    for i := 0 to |lines|
      invariant ParseLines(lines[..i]) == Ok(out)
    {
      assert lines[..i + 1][..i] == lines[..i];
      var step := ParseLine(out, lines[i]);
      if step.Raised? {
        ParseStopsAtAnError(lines, i + 1);
        return step;
      }
      out := step.value;
    }
    assert lines[..|lines|] == lines;
    return Ok(out);
  }

  // -------------------------------------------- what the buckets of a parse are

  predicate IsBucketLine(l: Line, base: string, le: Bound) {
    l.name == base + BUCKET && l.le == Some(le)
  }

  /** What the lines say about one bucket, over every label set. */
  function BucketTotal(lines: seq<Line>, base: string, le: Bound): real {
    if lines == [] then 0.0
    else
      var l := lines[|lines| - 1];
      BucketTotal(lines[..|lines| - 1], base, le) + if IsBucketLine(l, base, le) then l.val else 0.0
  }

  /** The same for one label set alone. */
  function SeriesTotal(lines: seq<Line>, base: string, labels: string, le: Bound): real {
    if lines == [] then 0.0
    else
      var l := lines[|lines| - 1];
      SeriesTotal(lines[..|lines| - 1], base, labels, le)
      + if IsBucketLine(l, base, le) && l.labels == labels then l.val else 0.0
  }

  function BucketsOf(s: Scrape, base: string): Buckets {
    if base in s && s[base].hist.Some? then s[base].hist.value.buckets else map[]
  }

  lemma AddBucketAt(out: Scrape, name: string, at: Option<Bound>, val: real, base: string, le: Bound)
    requires AddBucket(out, name, at, val).Ok?
    ensures var b, b' := BucketsOf(out, base), BucketsOf(AddBucket(out, name, at, val).value, base);
            var hit := name == base && at == Some(le);
            && At(b', le) == At(b, le) + (if hit then val else 0.0)
            && (le in b' <==> le in b || hit)
  {
  }

  lemma OthersKeepBuckets(out: Scrape, name: string, count: real, sum: real, val: real, base: string)
    ensures name in out && AddToHist(out, name, count, sum).Ok? ==>
              BucketsOf(AddToHist(out, name, count, sum).value, base) == BucketsOf(out, base)
    ensures BucketsOf(AddValue(out, name, val), base) == BucketsOf(out, base)
  {
  }

  lemma LineBuckets(out: Scrape, l: Line, base: string, le: Bound)
    requires ParseLine(out, l).Ok?
    ensures var b, b' := BucketsOf(out, base), BucketsOf(ParseLine(out, l).value, base);
            && At(b', le) == At(b, le) + (if IsBucketLine(l, base, le) then l.val else 0.0)
            && (le in b' <==> le in b || IsBucketLine(l, base, le))
  {
    ChopInverts(l.name, BUCKET, base);
    if EndsWith(l.name, BUCKET) {
      AddBucketAt(out, Chop(l.name, BUCKET), l.le, l.val, base, le);
    } else if EndsWith(l.name, "_count") && Chop(l.name, "_count") in out {
      OthersKeepBuckets(out, Chop(l.name, "_count"), l.val, 0.0, 0.0, base);
    } else if EndsWith(l.name, "_sum") && Chop(l.name, "_sum") in out {
      OthersKeepBuckets(out, Chop(l.name, "_sum"), 0.0, l.val, 0.0, base);
    } else {
      OthersKeepBuckets(out, l.name, 0.0, 0.0, l.val, base);
    }
  }

  /** Every bucket of a parsed histogram is the sum of its lines over all label sets. */
  lemma {:induction false} ParsedBuckets(lines: seq<Line>, base: string, le: Bound)
    requires ParseLines(lines).Ok?
    ensures At(BucketsOf(ParseLines(lines).value, base), le) == BucketTotal(lines, base, le)
  {
    if lines != [] {
      var n := |lines| - 1;
      ParsedBuckets(lines[..n], base, le);
      LineBuckets(ParseLines(lines[..n]).value, lines[n], base, le);
    }
  }

  /** Some line is of that bucket. */
  predicate Named(lines: seq<Line>, base: string, le: Bound) {
    lines != [] && (Named(lines[..|lines| - 1], base, le) || IsBucketLine(lines[|lines| - 1], base, le))
  }

  lemma {:induction false} NamedByALine(lines: seq<Line>, base: string, le: Bound)
    ensures Named(lines, base, le) <==> exists l :: l in lines && IsBucketLine(l, base, le)
  {
    if lines != [] {
      var n := |lines| - 1;
      assert lines == lines[..n] + [lines[n]];
      NamedByALine(lines[..n], base, le);
    }
  }

  /** Its bounds are exactly those the lines name. */
  lemma {:induction false} ParsedBounds(lines: seq<Line>, base: string, le: Bound)
    requires ParseLines(lines).Ok?
    ensures le in BucketsOf(ParseLines(lines).value, base) <==> Named(lines, base, le)
  {
    if lines != [] {
      var n := |lines| - 1;
      ParsedBounds(lines[..n], base, le);
      LineBuckets(ParseLines(lines[..n]).value, lines[n], base, le);
    }
  }

  function SumOver(lines: seq<Line>, base: string, sets: seq<string>, le: Bound): real {
    if sets == [] then 0.0 else SeriesTotal(lines, base, sets[0], le) + SumOver(lines, base, sets[1..], le)
  }

  ghost predicate Distinct(sets: seq<string>) {
    forall i, j | 0 <= i < j < |sets| :: sets[i] != sets[j]
  }

  lemma {:induction false} SumOverSnoc(lines: seq<Line>, base: string, sets: seq<string>, le: Bound)
    requires lines != [] && Distinct(sets)
    ensures var l := lines[|lines| - 1];
            SumOver(lines, base, sets, le)
            == SumOver(lines[..|lines| - 1], base, sets, le) + if IsBucketLine(l, base, le) && l.labels in sets
                then l.val else 0.0
  {
    if sets != [] {
      assert sets == [sets[0]] + sets[1..];
      SumOverSnoc(lines, base, sets[1..], le);
    }
  }

  lemma {:induction false} SumOverNone(base: string, sets: seq<string>, le: Bound)
    ensures SumOver([], base, sets, le) == 0.0
  {
    if sets != [] { SumOverNone(base, sets[1..], le); }
  }

  lemma {:induction false} TotalIsSumOverSeries(lines: seq<Line>, base: string, sets: seq<string>, le: Bound)
    requires Distinct(sets) && forall l | l in lines :: l.labels in sets
    ensures BucketTotal(lines, base, le) == SumOver(lines, base, sets, le)
  {
    if lines == [] {
      SumOverNone(base, sets, le);
    } else {
      TotalIsSumOverSeries(lines[..|lines| - 1], base, sets, le);
      SumOverSnoc(lines, base, sets, le);
    }
  }

  // ----------------------------------------------------------------- windows

  /** The bucket deltas of a window; a bound the earlier scrape did not have counts from 0. */
  function Delta(cur: Buckets, prev: Buckets): Buckets {
    map le | le in cur :: cur[le] - At(prev, le)
  }

  /** No counter of this label set fell between the scrapes: not the lowest bucket, nor the observations between
      any two bounds. */
  ghost predicate NeverFell(cur: seq<Line>, prev: seq<Line>, base: string, labels: string, bounds: set<Bound>) {
    && (forall b | b in bounds :: SeriesTotal(prev, base, labels, b) <= SeriesTotal(cur, base, labels, b))
    && (forall a, b | a in bounds && b in bounds && Less(a, b) ::
          SeriesTotal(prev, base, labels, b) - SeriesTotal(prev, base, labels, a)
          <= SeriesTotal(cur, base, labels, b) - SeriesTotal(cur, base, labels, a))
  }

  lemma {:induction false} SumsGrow(cur: seq<Line>, prev: seq<Line>, base: string, sets: seq<string>,
                                    bounds: set<Bound>,
                                    a: Bound, b: Bound)
    requires forall s {:trigger NeverFell(cur, prev, base, s, bounds)} | s in sets ::
            NeverFell(cur, prev, base, s, bounds)
    requires a in bounds && b in bounds
    ensures SumOver(prev, base, sets, a) <= SumOver(cur, base, sets, a)
    ensures Less(a, b) ==> SumOver(prev, base, sets, b) - SumOver(prev, base, sets, a)
                           <= SumOver(cur, base, sets, b) - SumOver(cur, base, sets, a)
  {
    if sets != [] {
      assert NeverFell(cur, prev, base, sets[0], bounds);
      assert forall s | s in sets[1..] :: s in sets;
      SumsGrow(cur, prev, base, sets[1..], bounds, a, b);
    }
  }

  /** Two texts that parse to `c` and `p`, over the listed label sets, whose counters for `base` never fell; positive
      bounds. */
  ghost predicate HonestWindow(cur: seq<Line>, prev: seq<Line>, c: Scrape, p: Scrape, base: string, sets: seq<string>) {
    && ParseLines(cur) == Ok(c) && ParseLines(prev) == Ok(p)
    && Distinct(sets) && (forall l | l in cur :: l.labels in sets) && (forall l | l in prev :: l.labels in sets)
    && (forall le | le in BucketsOf(c, base) && le.Fin? :: le.le > 0.0)
    && (forall s {:trigger NeverFell(cur, prev, base, s, BucketsOf(c, base).Keys)} | s in sets ::
          NeverFell(cur, prev, base, s, BucketsOf(c, base).Keys))
  }

  lemma DeltaIsSum(cur: seq<Line>, prev: seq<Line>, c: Scrape, p: Scrape, base: string, sets: seq<string>, le: Bound)
    requires HonestWindow(cur, prev, c, p, base, sets) && le in BucketsOf(c, base)
    ensures BucketsOf(c, base)[le] - At(BucketsOf(p, base), le)
            == SumOver(cur, base, sets, le) - SumOver(prev, base, sets, le)
  {
    ParsedBuckets(cur, base, le);
    ParsedBuckets(prev, base, le);
    TotalIsSumOverSeries(cur, base, sets, le);
    TotalIsSumOverSeries(prev, base, sets, le);
  }

  lemma DeltaPair(cur: seq<Line>, prev: seq<Line>, c: Scrape, p: Scrape, base: string, sets: seq<string>, d: Buckets,
                  a: Bound, b: Bound)
    requires HonestWindow(cur, prev, c, p, base, sets) && d == Delta(BucketsOf(c, base), BucketsOf(p, base))
            && a in d && b in d
    ensures PairOk(d, a, b)
  {
    DeltaIsSum(cur, prev, c, p, base, sets, a);
    DeltaIsSum(cur, prev, c, p, base, sets, b);
    SumsGrow(cur, prev, base, sets, BucketsOf(c, base).Keys, a, b);
  }

  /** Every pair of buckets of `d` as a cumulative histogram has them. */
  ghost predicate PairOk(d: Buckets, a: Bound, b: Bound)
    requires a in d && b in d
  {
    d[a] >= 0.0 && (a.Fin? ==> a.le > 0.0) && (Less(a, b) ==> d[a] <= d[b])
  }

  lemma PairsMakeCumulative(d: Buckets)
    requires forall a, b | a in d && b in d :: PairOk(d, a, b)
    ensures Cumulative(d)
  {
    forall b | b in d ensures d[b] >= 0.0 && (b.Fin? ==> b.le > 0.0) {
      assert PairOk(d, b, b);
    }
    forall a, b | a in d && b in d && Less(a, b) ensures d[a] <= d[b] {
      assert PairOk(d, a, b);
    }
  }

  /** Between two scrapes whose counters never fall, per label set, the deltas summed over all label sets are a
      cumulative histogram: label sets and bounds that first appear in the later scrape included. */
  lemma WindowIsCumulative(cur: seq<Line>, prev: seq<Line>, c: Scrape, p: Scrape, base: string, sets: seq<string>)
    requires HonestWindow(cur, prev, c, p, base, sets)
    ensures Cumulative(Delta(BucketsOf(c, base), BucketsOf(p, base)))
  {
    var d := Delta(BucketsOf(c, base), BucketsOf(p, base));
    forall a, b | a in d && b in d ensures PairOk(d, a, b) {
      DeltaPair(cur, prev, c, p, base, sets, d, a, b);
    }
    PairsMakeCumulative(d);
  }

  // ------------------------------------------------------------------ sample

  datatype Source = TtftSeconds | E2eSeconds | GenTokens | RunningReqs | QueuedReqs

  datatype Label = Ttft | E2e

  datatype Metric =
    | Running | Queued | Throughput
    | P50Ms(l: Label) | P95Ms(l: Label) | P99Ms(l: Label) | Requests(l: Label)

  type Sample = map<Metric, real>

  function Millis(q: real, d: Buckets): Option<real>
    requires 0.0 <= q <= 1.0
  {
    QuantileAnswers(q, d);
    match Quantile(q, d) case None => None case Some(v) => Some(v.le * 1000.0)
  }

  function Upto(m: Metric, q: real, d: Buckets, rest: Sample): Sample
    requires 0.0 <= q <= 1.0
  {
    if Millis(q, d).Some? then rest[m := Millis(q, d).value] else rest
  }

  /** The loop over the percentiles asked for, each computed from the same deltas. */
  function Percentiles(ps: seq<(Metric, real)>, d: Buckets): Sample
    requires forall p | p in ps :: 0.0 <= p.1 <= 1.0
  {
    if ps == [] then map[]
    else
      var n := |ps| - 1;
      Upto(ps[n].0, ps[n].1, d, Percentiles(ps[..n], d))
  }

  function Asked(l: Label): (ps: seq<(Metric, real)>)
    ensures |ps| == 3 && forall p | p in ps :: 0.0 <= p.1 <= 1.0
  {
    [(P50Ms(l), 0.5), (P95Ms(l), 0.95), (P99Ms(l), 0.99)]
  }

  function LabelSample(l: Label, name: Option<string>, cur: Scrape, prev: Scrape): Result<Sample, PyError> {
    if name.None? || name.value !in cur || name.value !in prev || cur[name.value].hist.None? then Ok(map[])
    else if prev[name.value].hist.None? then Raised(KeyError)
    else
      var c, p := cur[name.value].hist.value, prev[name.value].hist.value;
      var n := c.count - p.count;
      Ok(Percentiles(Asked(l), Delta(c.buckets, p.buckets)) + if n > 0.0 then map[Requests(l) := n] else map[])
  }

  function Gauge(m: Metric, name: Option<string>, cur: Scrape): Sample {
    if name.Some? && name.value in cur && cur[name.value].value.Some? then map[m := cur[name.value].value.value]
        else map[]
  }

  function Rate(name: Option<string>, cur: Scrape, prev: Scrape, dt: real): Result<Sample, PyError>
    requires dt > 0.0
  {
    if name.None? || name.value !in cur || name.value !in prev then Ok(map[])
    else if cur[name.value].value.None? || prev[name.value].value.None? then Raised(KeyError)
    else Ok(map[Throughput := (cur[name.value].value.value - prev[name.value].value.value) / dt])
  }

  function NameOf(names: map<Source, string>, s: Source): Option<string> {
    if s in names then Some(names[s]) else None
  }

  function Gauges(names: map<Source, string>, cur: Scrape): Sample {
    Gauge(Running, NameOf(names, RunningReqs), cur) + Gauge(Queued, NameOf(names, QueuedReqs), cur)
  }

  /** The time since then, but at least a microsecond. */
  function Elapsed(now: real, then': real): (dt: real)
    ensures dt > 0.0 && dt >= now - then' && dt >= 0.000001
    ensures dt == now - then' || (dt == 0.000001 && now - then' <= 0.000001)
  {
    if now - then' > 0.000001 then now - then' else 0.000001
  }

  /** What a scrape gives: the gauges, and against an earlier scrape also the rate and the window percentiles. */
  function SampleOf(names: map<Source, string>, cur: Scrape, prev: Option<(real, Scrape)>,
                    now: real): Result<Sample, PyError> {
    if prev.None? then Ok(Gauges(names, cur))
    else
      var (pt, p) := prev.value;
      var rate := Rate(NameOf(names, GenTokens), cur, p, Elapsed(now, pt));
      var ttft := LabelSample(Ttft, NameOf(names, TtftSeconds), cur, p);
      var e2e := LabelSample(E2e, NameOf(names, E2eSeconds), cur, p);
      if rate.Raised? then rate
      else if ttft.Raised? then ttft
      else if e2e.Raised? then e2e
      else Ok(Gauges(names, cur) + rate.value + ttft.value + e2e.value)
  }

  class PrometheusMetrics {
    const names: map<Source, string>
    var prev: map<string, (real, Scrape)>

    constructor (names: map<Source, string>)
      ensures this.names == names && prev == map[]
    {
      this.names, prev := names, map[];
    }

    /** `sample`: what one scrape of a replica adds to the gates, and the scrape remembered for the next window.
        A scrape that raises is not remembered. */
    method TakeSample(replica: string, now: real, lines: seq<Line>) returns (r: Result<Sample, PyError>)
      modifies this
      ensures match ParseLines(lines)
              case Raised(e) => r == Raised(e) && prev == old(prev)
              case Ok(cur) =>
                && r == SampleOf(names, cur, if replica in old(prev) then Some(old(prev)[replica]) else None, now)
                && prev == if r.Ok? then old(prev)[replica := (now, cur)] else old(prev)
    {
      var parsed := Parse(lines);
      if parsed.Raised? { return Raised(parsed.error); }
      var cur := parsed.value;
      var out := Gauges(names, cur);
      if replica in prev {
        var (pt, p) := prev[replica];
        var rate := Rate(NameOf(names, GenTokens), cur, p, Elapsed(now, pt));
        if rate.Raised? { return rate; }
        var ttft := WindowSample(Ttft, NameOf(names, TtftSeconds), cur, p);
        if ttft.Raised? { return ttft; }
        var e2e := WindowSample(E2e, NameOf(names, E2eSeconds), cur, p);
        if e2e.Raised? { return e2e; }
        out := out + rate.value + ttft.value + e2e.value;
      }
      prev := prev[replica := (now, cur)];
      return Ok(out);
    }
  }

  /** One turn of the loop over the three percentiles. */
  method AddPercentile(m: Metric, q: real, delta: Buckets, rest: Sample) returns (out: Sample)
    requires 0.0 <= q <= 1.0
    ensures out == Upto(m, q, delta, rest)
  {
    out := rest;
    QuantileAnswers(q, delta);
    var v := ComputeQuantile(q, delta);
    if v.Some? {
      out := out[m := v.value.le * 1000.0];
    }
  }

  /** The loop over the percentiles. */
  method AskPercentiles(ps: seq<(Metric, real)>, delta: Buckets) returns (out: Sample)
    requires forall p | p in ps :: 0.0 <= p.1 <= 1.0
    ensures out == Percentiles(ps, delta)
  {
    out := map[];
    for i := 0 to |ps|
      invariant out == Percentiles(ps[..i], delta)
    {
      assert ps[..i + 1][..i] == ps[..i];
      out := AddPercentile(ps[i].0, ps[i].1, delta, out);
    }
    assert ps[..|ps|] == ps;
  }

  /** One turn of the loop over the two latency histograms. */
  method WindowSample(l: Label, name: Option<string>, cur: Scrape, prev: Scrape) returns (r: Result<Sample, PyError>)
    ensures r == LabelSample(l, name, cur, prev)
  {
    if name.None? || name.value !in cur || name.value !in prev || cur[name.value].hist.None? { return Ok(map[]); }
    if prev[name.value].hist.None? { return Raised(KeyError); }
    var c, p := cur[name.value].hist.value, prev[name.value].hist.value;
    var delta := Delta(c.buckets, p.buckets);
    var out := AskPercentiles(Asked(l), delta);
    var n := c.count - p.count;
    return Ok(out + if n > 0.0 then map[Requests(l) := n] else map[]);
  }

  /** None of the three percentiles, or all three in order below `edge`. */
  ghost predicate Ordered(l: Label, s: Sample, edge: real) {
    || (P50Ms(l) !in s && P95Ms(l) !in s && P99Ms(l) !in s)
    || (P50Ms(l) in s && P95Ms(l) in s && P99Ms(l) in s && 0.0 <= s[P50Ms(l)] <= s[P95Ms(l)] <= s[P99Ms(l)] <= edge)
  }

  lemma LabelPercentiles(l: Label, name: string, cur: Scrape, prev: Scrape)
    requires LabelSample(l, Some(name), cur, prev).Ok?
    requires Cumulative(Delta(BucketsOf(cur, name), BucketsOf(prev, name)))
    ensures Ordered(l, LabelSample(l, Some(name), cur, prev).value, Edge(BucketsOf(cur, name)) * 1000.0)
  {
    if name in cur && name in prev && cur[name].hist.Some? {
      var c, p := cur[name].hist.value, prev[name].hist.value;
      var d := Delta(c.buckets, p.buckets);
      assert d.Keys == c.buckets.Keys;
      WindowPercentiles(l, d);
      var n := c.count - p.count;
      OrderedBeside(l, Percentiles(Asked(l), d), if n > 0.0 then map[Requests(l) := n] else map[], Edge(d) * 1000.0);
    }
  }

  lemma OrderedBeside(l: Label, s: Sample, extra: Sample, edge: real)
    requires Ordered(l, s, edge) && extra.Keys <= {Requests(l)}
    ensures Ordered(l, s + extra, edge)
  {
  }

  /** A window over counters that never fell gives none of the three percentiles, or all three with
      0 <= p50 <= p95 <= p99 <= the last finite bound. */
  lemma PercentilesOrdered(l: Label, name: string, cur: seq<Line>, prev: seq<Line>, c: Scrape, p: Scrape,
                           sets: seq<string>)
    requires HonestWindow(cur, prev, c, p, name, sets)
    requires LabelSample(l, Some(name), c, p).Ok?
    ensures Ordered(l, LabelSample(l, Some(name), c, p).value, Edge(BucketsOf(c, name)) * 1000.0)
  {
    WindowIsCumulative(cur, prev, c, p, name, sets);
    LabelPercentiles(l, name, c, p);
  }

  lemma ThreePercentiles(l: Label, d: Buckets)
    ensures Percentiles(Asked(l), d) == Upto(P99Ms(l), 0.99, d, Upto(P95Ms(l), 0.95, d, Upto(P50Ms(l), 0.5, d, map[])))
  {
    var ps := Asked(l);
    var two, one, none := ps[..2], ps[..1], ps[..0];
    assert two[..1] == one && one[..0] == none;
    assert Percentiles(none, d) == map[];
    assert Percentiles(one, d) == Upto(P50Ms(l), 0.5, d, map[]);
    assert Percentiles(two, d) == Upto(P95Ms(l), 0.95, d, Percentiles(one, d));
  }

  lemma WindowPercentiles(l: Label, d: Buckets)
    requires Cumulative(d)
    ensures Ordered(l, Percentiles(Asked(l), d), Edge(d) * 1000.0)
  {
    ThreePercentiles(l, d);
    QuantileAnswers(0.5, d);
    QuantileAnswers(0.95, d);
    QuantileAnswers(0.99, d);
    if Total(d) > 0.0 {
      QuantileMonotone(0.5, 0.95, d);
      QuantileMonotone(0.95, 0.99, d);
    }
  }
}
