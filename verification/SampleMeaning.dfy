/** What a scrape says, in terms of its lines: gauges, rates, window percentiles and request counts. */
module SampleMeaning {
  import opened Wrappers
  import opened Histogram
  import opened Metrics

  // --------------------------------------------------------- values of a parse

  /** The name of a gauge or counter that is no part of a histogram. */
  predicate PlainName(name: string) {
    !EndsWith(name, BUCKET) && !EndsWith(name, "_count") && !EndsWith(name, "_sum")
  }

  function ValueOf(s: Scrape, name: string): Option<real> {
    if name in s then s[name].value else None
  }

  /** What the lines of that name add up to, over every label set. */
  function ValueTotal(lines: seq<Line>, name: string): real {
    if lines == [] then 0.0
    else
      var l := lines[|lines| - 1];
      ValueTotal(lines[..|lines| - 1], name) + if l.name == name then l.val else 0.0
  }

  ghost predicate Appears(lines: seq<Line>, name: string) {
    exists l :: l in lines && l.name == name
  }

  lemma HistLinesKeepValues(out: Scrape, base: string, le: Option<Bound>, count: real, sum: real, val: real,
                            name: string)
    ensures AddBucket(out, base, le, val).Ok? ==>
            ValueOf(AddBucket(out, base, le, val).value, name) == ValueOf(out, name)
    ensures base in out && AddToHist(out, base, count, sum).Ok? ==>
              ValueOf(AddToHist(out, base, count, sum).value, name) == ValueOf(out, name)
  {
  }

  lemma LineValue(out: Scrape, l: Line, name: string)
    requires ParseLine(out, l).Ok? && PlainName(name)
    ensures ValueOf(ParseLine(out, l).value, name) ==
            if l.name == name then Some(ValueOf(out, name).GetOr(0.0) + l.val) else ValueOf(out, name)
  {
    if EndsWith(l.name, BUCKET) {
      HistLinesKeepValues(out, Chop(l.name, BUCKET), l.le, 0.0, 0.0, l.val, name);
    } else if EndsWith(l.name, "_count") && Chop(l.name, "_count") in out {
      HistLinesKeepValues(out, Chop(l.name, "_count"), None, l.val, 0.0, 0.0, name);
    } else if EndsWith(l.name, "_sum") && Chop(l.name, "_sum") in out {
      HistLinesKeepValues(out, Chop(l.name, "_sum"), None, 0.0, l.val, 0.0, name);
    }
  }

  lemma AppearsSnoc(lines: seq<Line>, name: string)
    requires lines != []
    ensures Appears(lines, name) <==> Appears(lines[..|lines| - 1], name) || lines[|lines| - 1].name == name
  {
    assert lines == lines[..|lines| - 1] + [lines[|lines| - 1]];
  }

  /** A gauge or counter of a parse is there exactly when some line has its name, and is then their sum over every label
      set, whatever comes between them. */
  lemma {:induction false} ParsedValue(lines: seq<Line>, name: string)
    requires ParseLines(lines).Ok? && PlainName(name)
    ensures ValueOf(ParseLines(lines).value, name) == if Appears(lines, name) then Some(ValueTotal(lines, name))
            else None
    ensures !Appears(lines, name) ==> ValueTotal(lines, name) == 0.0
  {
    if lines != [] {
      var n := |lines| - 1;
      ParsedValue(lines[..n], name);
      LineValue(ParseLines(lines[..n]).value, lines[n], name);
      AppearsSnoc(lines, name);
    }
  }

  // ---------------------------------------------------------- counts of a parse

  function CountOf(s: Scrape, base: string): real {
    if base in s && s[base].hist.Some? then s[base].hist.value.count else 0.0
  }

  /** What the histogram's own count lines add up to. */
  function CountTotal(lines: seq<Line>, base: string): real {
    if lines == [] then 0.0
    else
      var l := lines[|lines| - 1];
      CountTotal(lines[..|lines| - 1], base) + if l.name == base + "_count" then l.val else 0.0
  }

  /** Every count line of the histogram comes after one of its buckets, as the exposition format has them. */
  ghost predicate BucketsFirst(lines: seq<Line>, base: string) {
    forall j | 0 <= j < |lines| && lines[j].name == base + "_count" :: Appears(lines[..j], base + BUCKET)
  }

  lemma LineCount(out: Scrape, l: Line, base: string)
    requires ParseLine(out, l).Ok?
    ensures CountOf(ParseLine(out, l).value, base)
            == CountOf(out, base) + if l.name == base + "_count" && base in out then l.val else 0.0
    ensures base in out || l.name == base + BUCKET ==> base in ParseLine(out, l).value
  {
    ChopInverts(l.name, BUCKET, base);
    ChopInverts(l.name, "_count", base);
    NoBucketIsACount(base);
    if EndsWith(l.name, BUCKET) {
      BucketKeepsCount(out, Chop(l.name, BUCKET), l.le, l.val, base);
    } else if EndsWith(l.name, "_count") && Chop(l.name, "_count") in out {
      HistCounts(out, Chop(l.name, "_count"), l.val, 0.0, base);
    } else if EndsWith(l.name, "_sum") && Chop(l.name, "_sum") in out {
      HistCounts(out, Chop(l.name, "_sum"), 0.0, l.val, base);
    }
  }

  lemma BucketKeepsCount(out: Scrape, name: string, le: Option<Bound>, val: real, base: string)
    requires AddBucket(out, name, le, val).Ok?
    ensures CountOf(AddBucket(out, name, le, val).value, base) == CountOf(out, base)
    ensures base in out || name == base ==> base in AddBucket(out, name, le, val).value
  {
  }

  lemma HistCounts(out: Scrape, name: string, count: real, sum: real, base: string)
    requires name in out && AddToHist(out, name, count, sum).Ok?
    ensures CountOf(AddToHist(out, name, count, sum).value, base) == CountOf(out, base) + if name == base
            then count else 0.0
    ensures base in out ==> base in AddToHist(out, name, count, sum).value
  {
  }

  lemma NoBucketIsACount(base: string)
    ensures !EndsWith(base + "_count", BUCKET)
  {
    var s := base + "_count";
    assert s[|s| - 1] == 't' && s[|s| - 2] == 'n';
    assert BUCKET[|BUCKET| - 2] == 'e';
  }

  lemma {:induction false} BucketOpens(lines: seq<Line>, base: string)
    requires ParseLines(lines).Ok? && Appears(lines, base + BUCKET)
    ensures base in ParseLines(lines).value
  {
    var n := |lines| - 1;
    AppearsSnoc(lines, base + BUCKET);
    LineCount(ParseLines(lines[..n]).value, lines[n], base);
    if lines[n].name != base + BUCKET {
      BucketOpens(lines[..n], base);
    }
  }

  /** The count of a parsed histogram is the sum of its count lines. */
  lemma {:induction false} ParsedCount(lines: seq<Line>, base: string)
    requires ParseLines(lines).Ok? && BucketsFirst(lines, base)
    ensures CountOf(ParseLines(lines).value, base) == CountTotal(lines, base)
  {
    if lines != [] {
      var n := |lines| - 1;
      assert forall j | 0 <= j < n :: lines[..n][..j] == lines[..j];
      ParsedCount(lines[..n], base);
      LineCount(ParseLines(lines[..n]).value, lines[n], base);
      if lines[n].name == base + "_count" {
        BucketOpens(lines[..n], base);
      }
    }
  }

  function SumOf(s: Scrape, base: string): real {
    if base in s && s[base].hist.Some? then s[base].hist.value.sum else 0.0
  }

  /** What the histogram's own sum lines add up to. */
  function SumTotal(lines: seq<Line>, base: string): real {
    if lines == [] then 0.0
    else
      var l := lines[|lines| - 1];
      SumTotal(lines[..|lines| - 1], base) + if l.name == base + "_sum" then l.val else 0.0
  }

  ghost predicate BucketsBeforeSums(lines: seq<Line>, base: string) {
    forall j | 0 <= j < |lines| && lines[j].name == base + "_sum" :: Appears(lines[..j], base + BUCKET)
  }

  lemma NoBucketIsASum(base: string)
    ensures !EndsWith(base + "_sum", BUCKET) && !EndsWith(base + "_sum", "_count")
  {
    var s := base + "_sum";
    assert s[|s| - 1] == 'm';
    assert BUCKET[|BUCKET| - 1] == 't';
  }

  lemma LineSum(out: Scrape, l: Line, base: string)
    requires ParseLine(out, l).Ok?
    ensures SumOf(ParseLine(out, l).value, base)
            == SumOf(out, base) + if l.name == base + "_sum" && base in out then l.val else 0.0
  {
    if l.name == base + "_sum" {
      OwnSum(out, l, base);
    } else {
      OtherSum(out, l, base);
    }
  }

  lemma OwnSum(out: Scrape, l: Line, base: string)
    requires ParseLine(out, l).Ok? && l.name == base + "_sum"
    ensures SumOf(ParseLine(out, l).value, base) == SumOf(out, base) + if base in out then l.val else 0.0
  {
    ChopInverts(l.name, "_sum", base);
    NoBucketIsASum(base);
    if base in out {
      HistSums(out, base, 0.0, l.val, base);
    }
  }

  lemma OtherSum(out: Scrape, l: Line, base: string)
    requires ParseLine(out, l).Ok? && l.name != base + "_sum"
    ensures SumOf(ParseLine(out, l).value, base) == SumOf(out, base)
  {
    if EndsWith(l.name, BUCKET) {
      BucketKeepsSum(out, Chop(l.name, BUCKET), l.le, l.val, base);
    } else if EndsWith(l.name, "_count") && Chop(l.name, "_count") in out {
      HistSums(out, Chop(l.name, "_count"), l.val, 0.0, base);
    } else if EndsWith(l.name, "_sum") && Chop(l.name, "_sum") in out {
      NotItsSum(l.name, base);
      HistSums(out, Chop(l.name, "_sum"), 0.0, l.val, base);
    } else {
      ValueKeepsSum(out, l.name, l.val, base);
    }
  }

  lemma NotItsSum(name: string, base: string)
    requires EndsWith(name, "_sum") && name != base + "_sum"
    ensures Chop(name, "_sum") != base
  {
    ChopInverts(name, "_sum", base);
  }

  lemma ValueKeepsSum(out: Scrape, name: string, val: real, base: string)
    ensures SumOf(AddValue(out, name, val), base) == SumOf(out, base)
  {
  }

  lemma BucketKeepsSum(out: Scrape, name: string, le: Option<Bound>, val: real, base: string)
    requires AddBucket(out, name, le, val).Ok?
    ensures SumOf(AddBucket(out, name, le, val).value, base) == SumOf(out, base)
  {
  }

  lemma HistSums(out: Scrape, name: string, count: real, sum: real, base: string)
    requires name in out && AddToHist(out, name, count, sum).Ok?
    ensures SumOf(AddToHist(out, name, count, sum).value, base) == SumOf(out, base) + if name == base then sum else 0.0
  {
  }

  /** And its sum that of its sum lines. */
  lemma {:induction false} ParsedSum(lines: seq<Line>, base: string)
    requires ParseLines(lines).Ok? && BucketsBeforeSums(lines, base)
    ensures SumOf(ParseLines(lines).value, base) == SumTotal(lines, base)
  {
    if lines != [] {
      var n := |lines| - 1;
      assert forall j | 0 <= j < n :: lines[..n][..j] == lines[..j];
      ParsedSum(lines[..n], base);
      LineSum(ParseLines(lines[..n]).value, lines[n], base);
      if lines[n].name == base + "_sum" {
        BucketOpens(lines[..n], base);
      }
    }
  }

  // --------------------------------------------------------------- rates

  lemma Divide(x: real, dt: real)
    requires dt > 0.0
    ensures x / dt * dt == x && (x / dt == 0.0 <==> x == 0.0)
  {
  }

  function Through(r: Result<Sample, PyError>): real
    requires r.Ok? && Throughput in r.value
  {
    r.value[Throughput]
  }

  ghost predicate Counts(s: Scrape, name: string) {
    name in s && s[name].value.Some?
  }

  lemma RateTimes(name: string, cur: Scrape, prev: Scrape, dt: real)
    requires Counts(cur, name) && Counts(prev, name) && dt > 0.0
    ensures Rate(Some(name), cur, prev, dt).Ok? && Throughput in Rate(Some(name), cur, prev, dt).value
    ensures GrewBy(Through(Rate(Some(name), cur, prev, dt)), dt, cur[name].value.value - prev[name].value.value)
  {
    Divide(cur[name].value.value - prev[name].value.value, dt);
  }

  lemma AppearingCounts(lines: seq<Line>, name: string)
    requires ParseLines(lines).Ok? && PlainName(name) && Appears(lines, name)
    ensures Counts(ParseLines(lines).value, name)
    ensures ParseLines(lines).value[name].value.value == ValueTotal(lines, name)
  {
    ParsedValue(lines, name);
  }

  /** Whatever its scrapes: a rate, over the time between them, is what the counter has grown by. */
  lemma RateIsGrowth(name: string, cur: seq<Line>, prev: seq<Line>, dt: real)
    requires ParseLines(cur).Ok? && ParseLines(prev).Ok? && PlainName(name) && dt > 0.0
    requires Appears(cur, name) && Appears(prev, name)
    ensures var r := Rate(Some(name), ParseLines(cur).value, ParseLines(prev).value, dt);
            r.Ok? && Throughput in r.value && GrewBy(r.value[Throughput], dt,
                ValueTotal(cur, name) - ValueTotal(prev, name))
  {
    AppearingCounts(cur, name);
    AppearingCounts(prev, name);
    RateTimes(name, ParseLines(cur).value, ParseLines(prev).value, dt);
  }

  /** The rate over that time, and 0 exactly when nothing was counted. */
  ghost predicate GrewBy(rate: real, dt: real, growth: real) {
    rate * dt == growth && (rate == 0.0 <==> growth == 0.0)
  }

  /** Windows add up: the rate over two windows, times their length, is that of each, times its own. */
  lemma RatesAddUp(name: string, a: Scrape, b: Scrape, c: Scrape, t1: real, t2: real)
    requires Counts(a, name) && Counts(b, name) && Counts(c, name) && t1 > 0.0 && t2 > 0.0
    ensures Rate(Some(name), c, a, t1 + t2).Ok? && Throughput in Rate(Some(name), c, a, t1 + t2).value
    ensures Rate(Some(name), b, a, t1).Ok? && Throughput in Rate(Some(name), b, a, t1).value
    ensures Rate(Some(name), c, b, t2).Ok? && Throughput in Rate(Some(name), c, b, t2).value
    ensures Through(Rate(Some(name), c, a, t1 + t2)) * (t1 + t2)
            == Through(Rate(Some(name), b, a, t1)) * t1 + Through(Rate(Some(name), c, b, t2)) * t2
  {
    RateTimes(name, c, a, t1 + t2);
    RateTimes(name, b, a, t1);
    RateTimes(name, c, b, t2);
  }

  /** What was counted before the window does not matter: with the same amount added to both scrapes the rate is the
      same. */
  lemma RateForgetsThePast(name: string, cur: Scrape, prev: Scrape, dt: real, x: real)
    requires Counts(cur, name) && Counts(prev, name) && dt > 0.0
    ensures var cur' := cur[name := cur[name].(value := Some(cur[name].value.value + x))];
            var prev' := prev[name := prev[name].(value := Some(prev[name].value.value + x))];
            Rate(Some(name), cur', prev', dt) == Rate(Some(name), cur, prev, dt)
  {
  }

  // --------------------------------------------------------------- a sample

  lemma LabelKeys(l: Label, name: Option<string>, cur: Scrape, prev: Scrape)
    requires LabelSample(l, name, cur, prev).Ok?
    ensures LabelSample(l, name, cur, prev).value.Keys <= {P50Ms(l), P95Ms(l), P99Ms(l), Requests(l)}
  {
    if !(name.None? || name.value !in cur || name.value !in prev || cur[name.value].hist.None?) {
      ThreePercentiles(l, Delta(cur[name.value].hist.value.buckets, prev[name.value].hist.value.buckets));
    }
  }

  function SourceOf(l: Label): Source {
    match l case Ttft => TtftSeconds case E2e => E2eSeconds
  }

  function KeysOf(l: Label): set<Metric> {
    {P50Ms(l), P95Ms(l), P99Ms(l), Requests(l)}
  }

  /** The part that a metric belongs to: the gauges, the rate, or the window of its label. */
  function Pick(gauges: Sample, rate: Sample, ttft: Sample, e2e: Sample, m: Metric): Sample {
    if m in {Running, Queued} then gauges
    else if m == Throughput then rate
    else if m in KeysOf(Ttft) then ttft
    else e2e
  }

  lemma MetricKinds(m: Metric)
    ensures m in {Running, Queued, Throughput} ==> m !in KeysOf(Ttft) && m !in KeysOf(E2e)
    ensures m in KeysOf(Ttft) ==> m !in KeysOf(E2e)
  {
  }

  lemma Merged(gauges: Sample, rate: Sample, ttft: Sample, e2e: Sample, m: Metric)
    requires gauges.Keys <= {Running, Queued} && rate.Keys <= {Throughput}
    requires ttft.Keys <= KeysOf(Ttft) && e2e.Keys <= KeysOf(E2e)
    ensures PartIs(gauges + rate + ttft + e2e, Pick(gauges, rate, ttft, e2e, m), m)
  {
    MetricKinds(m);
    assert m in gauges ==> m in {Running, Queued};
    assert m in rate ==> m == Throughput;
    assert m in ttft ==> m in KeysOf(Ttft);
    assert m in e2e ==> m in KeysOf(E2e);
  }

  lemma GaugeKeys(names: map<Source, string>, cur: Scrape)
    ensures Gauges(names, cur).Keys <= {Running, Queued}
  {
  }

  lemma RateKeys(name: Option<string>, cur: Scrape, prev: Scrape, dt: real)
    requires dt > 0.0 && Rate(name, cur, prev, dt).Ok?
    ensures Rate(name, cur, prev, dt).value.Keys <= {Throughput}
  {
  }

  lemma SampleIsMerged(names: map<Source, string>, cur: Scrape, pt: real, p: Scrape, now: real, s: Sample)
    requires SampleOf(names, cur, Some((pt, p)), now) == Ok(s)
    ensures var rate := Rate(NameOf(names, GenTokens), cur, p, Elapsed(now, pt));
            var ttft := LabelSample(Ttft, NameOf(names, TtftSeconds), cur, p);
            var e2e := LabelSample(E2e, NameOf(names, E2eSeconds), cur, p);
            rate.Ok? && ttft.Ok? && e2e.Ok? && s == Gauges(names, cur) + rate.value + ttft.value + e2e.value
  {
  }

  /** None of the parts says anything of another's metrics. */
  lemma PartsOfASample(names: map<Source, string>, cur: Scrape, pt: real, p: Scrape, now: real, s: Sample, m: Metric)
    requires SampleOf(names, cur, Some((pt, p)), now) == Ok(s)
    ensures var rate := Rate(NameOf(names, GenTokens), cur, p, Elapsed(now, pt));
            var ttft := LabelSample(Ttft, NameOf(names, TtftSeconds), cur, p);
            var e2e := LabelSample(E2e, NameOf(names, E2eSeconds), cur, p);
            && rate.Ok? && ttft.Ok? && e2e.Ok?
            && PartIs(s, Pick(Gauges(names, cur), rate.value, ttft.value, e2e.value, m), m)
  {
    SampleIsMerged(names, cur, pt, p, now, s);
    GaugeKeys(names, cur);
    RateKeys(NameOf(names, GenTokens), cur, p, Elapsed(now, pt));
    LabelKeys(Ttft, NameOf(names, TtftSeconds), cur, p);
    LabelKeys(E2e, NameOf(names, E2eSeconds), cur, p);
    Merged(Gauges(names, cur), Rate(NameOf(names, GenTokens), cur, p, Elapsed(now, pt)).value,
           LabelSample(Ttft, NameOf(names, TtftSeconds), cur, p).value,
           LabelSample(E2e, NameOf(names, E2eSeconds), cur, p).value, m);
  }

  /** What a sample says of one label is what the window of its own source says. */
  lemma WindowOfASample(names: map<Source, string>, cur: Scrape, pt: real, p: Scrape, now: real, s: Sample, l: Label,
                        m: Metric)
    requires SampleOf(names, cur, Some((pt, p)), now) == Ok(s) && m in KeysOf(l)
    ensures var window := LabelSample(l, NameOf(names, SourceOf(l)), cur, p);
            window.Ok? && PartIs(s, window.value, m)
  {
    PartsOfASample(names, cur, pt, p, now, s, m);
    MetricKinds(m);
  }

  ghost predicate PartIs(s: Sample, part: Sample, m: Metric) {
    (m in s <==> m in part) && (m in s ==> s[m] == part[m])
  }

  /** On the lines: each gauge of a sample is there exactly when some line has its own source's name, and is their sum,
      with an earlier scrape and without. */
  lemma GaugesAreSums(names: map<Source, string>, lines: seq<Line>, cur: Scrape, prev: Option<(real, Scrape)>,
                      now: real, s: Sample)
    requires ParseLines(lines) == Ok(cur) && SampleOf(names, cur, prev, now) == Ok(s)
    requires forall src | src in names && src in {RunningReqs, QueuedReqs} :: PlainName(names[src])
    ensures GaugeIs(s, Running, names, RunningReqs, lines) && GaugeIs(s, Queued, names, QueuedReqs, lines)
  {
    GaugesOfAParse(names, lines, cur);
    if prev.Some? {
      PartsOfASample(names, cur, prev.value.0, prev.value.1, now, s, Running);
      PartsOfASample(names, cur, prev.value.0, prev.value.1, now, s, Queued);
    }
  }

  lemma GaugesOfAParse(names: map<Source, string>, lines: seq<Line>, cur: Scrape)
    requires ParseLines(lines) == Ok(cur)
    requires forall src | src in names && src in {RunningReqs, QueuedReqs} :: PlainName(names[src])
    ensures GaugeIs(Gauges(names, cur), Running, names, RunningReqs, lines)
    ensures GaugeIs(Gauges(names, cur), Queued, names, QueuedReqs, lines)
  {
    if RunningReqs in names { ParsedValue(lines, names[RunningReqs]); }
    if QueuedReqs in names { ParsedValue(lines, names[QueuedReqs]); }
  }

  ghost predicate GaugeIs(s: Sample, m: Metric, names: map<Source, string>, src: Source, lines: seq<Line>) {
    && (m in s <==> src in names && Appears(lines, names[src]))
    && (m in s ==> s[m] == ValueTotal(lines, names[src]))
  }

  /** And the throughput is the growth of the token counter over the time between the scrapes. */
  lemma ThroughputIsGrowth(names: map<Source, string>, cur: seq<Line>, prev: seq<Line>, c: Scrape, p: Scrape,
                           pt: real, now: real, s: Sample)
    requires ParseLines(cur) == Ok(c) && ParseLines(prev) == Ok(p) && GenTokens in names && PlainName(names[GenTokens])
    requires SampleOf(names, c, Some((pt, p)), now) == Ok(s)
    requires Appears(cur, names[GenTokens]) && Appears(prev, names[GenTokens])
    ensures Throughput in s
    ensures GrewBy(s[Throughput], Elapsed(now, pt),
            ValueTotal(cur, names[GenTokens]) - ValueTotal(prev, names[GenTokens]))
  {
    PartsOfASample(names, c, pt, p, now, s, Throughput);
    RateIsGrowth(names[GenTokens], cur, prev, Elapsed(now, pt));
  }

  // ------------------------------------------------------- a latency histogram

  /** In milliseconds, the point at which the window's distribution reaches the rank of `q`. */
  ghost predicate IsPercentile(s: Sample, m: Metric, q: real, d: Buckets) {
    && (m in s <==> Total(d) > 0.0)
    && (m in s ==> Quantile(q, d).Some? && Quantile(q, d).value.Fin? && s[m] == Quantile(q, d).value.le * 1000.0)
  }

  lemma PercentilesAre(l: Label, d: Buckets)
    ensures var s := Percentiles(Asked(l), d);
            IsPercentile(s, P50Ms(l), 0.5, d) && IsPercentile(s, P95Ms(l), 0.95, d)
                && IsPercentile(s, P99Ms(l), 0.99, d)
  {
    ThreePercentiles(l, d);
    QuantileAnswers(0.5, d);
    QuantileAnswers(0.95, d);
    QuantileAnswers(0.99, d);
  }

  /** A window of one latency histogram: its three percentiles are those of what was observed between the scrapes, and
      its number of requests is what the count has grown by, when it has. */
  lemma WindowIs(l: Label, name: string, cur: Scrape, prev: Scrape)
    requires LabelSample(l, Some(name), cur, prev).Ok? && name in cur && name in prev && cur[name].hist.Some?
    ensures var s := LabelSample(l, Some(name), cur, prev).value;
            && ThreeArePercentiles(s, l, Delta(BucketsOf(cur, name), BucketsOf(prev, name)))
            && RequestsAre(s, l, CountOf(cur, name) - CountOf(prev, name))
  {
    var c, p := cur[name].hist.value, prev[name].hist.value;
    PercentilesAre(l, Delta(c.buckets, p.buckets));
    ThreePercentiles(l, Delta(c.buckets, p.buckets));
  }

  /** The three percentiles of one label, under their own names. */
  ghost predicate ThreeArePercentiles(s: Sample, l: Label, d: Buckets) {
    IsPercentile(s, P50Ms(l), 0.5, d) && IsPercentile(s, P95Ms(l), 0.95, d) && IsPercentile(s, P99Ms(l), 0.99, d)
  }

  ghost predicate RequestsAre(s: Sample, l: Label, growth: real) {
    (Requests(l) in s <==> growth > 0.0) && (Requests(l) in s ==> s[Requests(l)] == growth)
  }

  lemma PartsCarry(s: Sample, window: Sample, l: Label, d: Buckets, growth: real)
    requires PartIs(s, window, P50Ms(l)) && PartIs(s, window, P95Ms(l)) && PartIs(s, window, P99Ms(l))
            && PartIs(s, window, Requests(l))
    requires ThreeArePercentiles(window, l, d) && RequestsAre(window, l, growth)
    ensures ThreeArePercentiles(s, l, d) && RequestsAre(s, l, growth)
  {
  }

  /** On the lines, for a sample against an earlier scrape: the percentiles under each label are those of its own
      source, and its requests the growth of its count lines. */
  lemma LatenciesAre(names: map<Source, string>, cur: seq<Line>, prev: seq<Line>, c: Scrape, p: Scrape,
                     pt: real, now: real, s: Sample, l: Label, name: string)
    requires SourceOf(l) in names && names[SourceOf(l)] == name && ParseLines(cur) == Ok(c) && ParseLines(prev) == Ok(p)
    requires name in c && name in p && c[name].hist.Some? && BucketsFirst(cur, name) && BucketsFirst(prev, name)
    requires SampleOf(names, c, Some((pt, p)), now) == Ok(s)
    ensures ThreeArePercentiles(s, l, Delta(BucketsOf(c, name), BucketsOf(p, name)))
    ensures RequestsAre(s, l, CountTotal(cur, name) - CountTotal(prev, name))
  {
    WindowOfASample(names, c, pt, p, now, s, l, P50Ms(l));
    WindowOfASample(names, c, pt, p, now, s, l, P95Ms(l));
    WindowOfASample(names, c, pt, p, now, s, l, P99Ms(l));
    WindowOfASample(names, c, pt, p, now, s, l, Requests(l));
    WindowIs(l, name, c, p);
    ParsedCount(cur, name);
    ParsedCount(prev, name);
    PartsCarry(s, LabelSample(l, Some(name), c, p).value, l, Delta(BucketsOf(c, name), BucketsOf(p, name)),
               CountTotal(cur, name) - CountTotal(prev, name));
  }

  /** And over counters that never fell each is the inverse of the distribution observed in between. */
  lemma PercentileInverts(s: Sample, m: Metric, q: real, d: Buckets)
    requires IsPercentile(s, m, q, d) && m in s && 0.0 < q <= 1.0 && Cumulative(d)
    ensures exists v :: s[m] == v * 1000.0 && Inverse(d, q, v)
  {
    QuantileInverts(q, d);
    assert Inverse(d, q, Quantile(q, d).value.le);
  }

  ghost predicate Inverse(d: Buckets, q: real, v: real) {
    Cumulative(d) && IsInverse(d, Rank(q, d), v)
  }
}
