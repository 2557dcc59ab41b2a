/** Canary gates: the means over the window, and the verdict of every gate. */
module Gates {
  import opened Wrappers
  import opened PyValues
  import opened StoreModel

  type Means = map<string, real>

  // -------------------------------------------------------------------- means

  function KeySum(samples: seq<Means>, k: string): real {
    if samples == [] then 0.0
    else
      var d := samples[|samples| - 1];
      KeySum(samples[..|samples| - 1], k) + if k in d then d[k] else 0.0
  }

  function KeyCount(samples: seq<Means>, k: string): nat {
    if samples == [] then 0
    else KeyCount(samples[..|samples| - 1], k) + if k in samples[|samples| - 1] then 1 else 0
  }

  function SampledKeys(samples: seq<Means>): (ks: set<string>)
    ensures forall k :: k in ks <==> KeyCount(samples, k) > 0
  {
    if samples == [] then {} else SampledKeys(samples[..|samples| - 1]) + samples[|samples| - 1].Keys
  }

  /** The mean of every metric over the samples that carry it. */
  function MeanOf(samples: seq<Means>): Means {
    map k | k in SampledKeys(samples) :: KeySum(samples, k) / KeyCount(samples, k) as real
  }

  /** The running sums and counts with one more sample, metric by metric. */
  ghost predicate Added(out0: map<string, real>, n0: map<string, nat>, d: Means, out: map<string, real>,
                        n: map<string, nat>) {
    && out0.Keys == n0.Keys && out.Keys == n.Keys == out0.Keys + d.Keys
    && forall k | k in out ::
         && out[k] == (if k in out0 then out0[k] else 0.0) + (if k in d then d[k] else 0.0)
         && n[k] == (if k in n0 then n0[k] else 0) + (if k in d then 1 else 0)
  }

  /** One sample added to the running sums and counts, metric by metric. */
  method AddSample(out0: map<string, real>, n0: map<string, nat>, d: Items<string, real>)
    returns (out: map<string, real>, n: map<string, nat>)
    requires out0.Keys == n0.Keys && DistinctKeys(d)
    ensures Added(out0, n0, ToMap(d), out, n)
  {
    out, n := out0, n0;
    for j := 0 to |d|
      invariant Added(out0, n0, ToMap(d[..j]), out, n)
    {
      ToMapSnoc(d, j);
      var k, v := d[j].0, d[j].1;
      out := out[k := (if k in out then out[k] else 0.0) + v];
      n := n[k := (if k in n then n[k] else 0) + 1];
    }
    assert d[..|d|] == d;
  }

  /** The samples as dicts. */
  function Maps(dicts: seq<Items<string, real>>): (r: seq<Means>)
    ensures |r| == |dicts|
  {
    seq(|dicts|, i requires 0 <= i < |dicts| => ToMap(dicts[i]))
  }

  /** The running sums and counts over these samples. */
  ghost predicate Running(out: map<string, real>, n: map<string, nat>, samples: seq<Means>) {
    out.Keys == n.Keys == SampledKeys(samples) && forall k | k in out ::
        out[k] == KeySum(samples, k) && n[k] == KeyCount(samples, k)
  }

  lemma RunningSnoc(samples: seq<Means>, d: Means, out0: map<string, real>, n0: map<string, nat>,
                    out: map<string, real>, n: map<string, nat>)
    requires Running(out0, n0, samples) && Added(out0, n0, d, out, n)
    ensures Running(out, n, samples + [d])
  {
    var more := samples + [d];
    assert more[..|samples|] == samples;
    forall k | k in out ensures out[k] == KeySum(more, k) && n[k] == KeyCount(more, k) {
      if k !in out0 {
        NoSampleNoSum(samples, k);
      }
    }
  }

  /** `_mean`: running sums and counts, sample by sample. */
  method ComputeMean(dicts: seq<Items<string, real>>) returns (mean: Means)
    requires forall i | 0 <= i < |dicts| :: DistinctKeys(dicts[i])
    ensures mean == MeanOf(Maps(dicts))
  {
    ghost var samples := Maps(dicts);
    var out: map<string, real>, n: map<string, nat> := map[], map[];
    for i := 0 to |dicts|
      invariant Running(out, n, samples[..i])
    {
      assert samples[..i + 1] == samples[..i] + [ToMap(dicts[i])];
      ghost var out0, n0 := out, n;
      out, n := AddSample(out, n, dicts[i]);
      RunningSnoc(samples[..i], ToMap(dicts[i]), out0, n0, out, n);
    }
    assert samples[..|dicts|] == samples;
    mean := map k | k in out :: out[k] / n[k] as real;
  }

  lemma {:induction false} NoSampleNoSum(samples: seq<Means>, k: string)
    requires KeyCount(samples, k) == 0
    ensures KeySum(samples, k) == 0.0
  {
    if samples != [] {
      NoSampleNoSum(samples[..|samples| - 1], k);
    }
  }

  /** `c` times x. */
  function Times(x: real, c: nat): real {
    if c == 0 then 0.0 else Times(x, c - 1) + x
  }

  lemma {:induction false} TimesIs(x: real, c: nat)
    ensures Times(x, c) == x * c as real
  {
    if c > 0 {
      TimesIs(x, c - 1);
      var n := (c - 1) as real;
      assert c as real == n + 1.0;
      assert x * (n + 1.0) == x * n + x;
    }
  }

  lemma {:induction false} SumBetween(samples: seq<Means>, k: string, lo: real, hi: real)
    requires forall d | d in samples && k in d :: lo <= d[k] <= hi
    ensures Times(lo, KeyCount(samples, k)) <= KeySum(samples, k) <= Times(hi, KeyCount(samples, k))
  {
    if samples != [] {
      SumBetween(samples[..|samples| - 1], k, lo, hi);
    }
  }

  lemma Divided(sum: real, n: nat, lo: real, hi: real)
    requires n > 0 && Times(lo, n) <= sum <= Times(hi, n)
    ensures lo <= sum / n as real <= hi
  {
    TimesIs(lo, n);
    TimesIs(hi, n);
    Quotient(sum, n as real, lo, hi);
  }

  lemma Quotient(sum: real, n: real, lo: real, hi: real)
    requires n > 0.0 && lo * n <= sum <= hi * n
    ensures lo <= sum / n <= hi
  {
  }

  /** The mean of one sample is the sample. */
  lemma MeanOfOne(d: Means)
    ensures MeanOf([d]) == d
  {
    assert [d][..0] == [];
    assert SampledKeys([d]) == SampledKeys([]) + d.Keys == d.Keys;
    forall k | k in d ensures MeanOf([d])[k] == d[k] {
      assert KeySum([d], k) == KeySum([], k) + d[k] == d[k];
      assert KeyCount([d], k) == KeyCount([], k) + 1 == 1;
      OneOver(d[k], KeyCount([d], k));
    }
    assert MeanOf([d]).Keys == d.Keys;
  }

  lemma OneOver(x: real, n: nat)
    requires n == 1
    ensures x / n as real == x
  {
  }

  lemma {:induction false} SumsConcat(a: seq<Means>, b: seq<Means>, k: string)
    ensures KeySum(a + b, k) == KeySum(a, k) + KeySum(b, k)
    ensures KeyCount(a + b, k) == KeyCount(a, k) + KeyCount(b, k)
  {
    if b == [] {
      assert a + b == a;
    } else {
      assert (a + b)[..|a + b| - 1] == a + b[..|b| - 1];
      SumsConcat(a, b[..|b| - 1], k);
    }
  }

  /** The mean times its number of samples. */
  function Weight(samples: seq<Means>, k: string): real {
    if k in MeanOf(samples) then MeanOf(samples)[k] * KeyCount(samples, k) as real else 0.0
  }

  lemma WeightIsSum(samples: seq<Means>, k: string)
    ensures Weight(samples, k) == KeySum(samples, k)
  {
    if KeyCount(samples, k) == 0 {
      NoSampleNoSum(samples, k);
    } else {
      assert k in MeanOf(samples);
      Cancel(KeySum(samples, k), KeyCount(samples, k) as real);
    }
  }

  lemma Cancel(x: real, n: real)
    requires n != 0.0
    ensures x / n * n == x
  {
  }

  /** Two batches of samples weigh by how many of them carry the metric, so any split of a window gives its mean. */
  lemma MeansWeigh(a: seq<Means>, b: seq<Means>, k: string)
    ensures Weight(a + b, k) == Weight(a, k) + Weight(b, k)
    ensures KeyCount(a + b, k) == KeyCount(a, k) + KeyCount(b, k)
  {
    SumsConcat(a, b, k);
    WeightIsSum(a, k);
    WeightIsSum(b, k);
    WeightIsSum(a + b, k);
  }

  /** How many samples carry the metric. */
  lemma {:induction false} CountIsCarriers(samples: seq<Means>, k: string)
    ensures KeyCount(samples, k) == |Carriers(samples, k)|
  {
    if samples != [] {
      CountIsCarriers(samples[..|samples| - 1], k);
    }
  }

  function Carriers(samples: seq<Means>, k: string): seq<real> {
    if samples == [] then []
    else
      var d := samples[|samples| - 1];
      if k in d then Carriers(samples[..|samples| - 1], k) + [d[k]] else Carriers(samples[..|samples| - 1], k)
  }

  /** A metric has a mean exactly when some sample carries it, and the mean lies between any bounds its samples
      lie between, so between the smallest and the largest of them. */
  lemma MeanBetween(samples: seq<Means>, k: string, lo: real, hi: real)
    requires forall d | d in samples && k in d :: lo <= d[k] <= hi
    ensures k in MeanOf(samples) <==> exists d :: d in samples && k in d
    ensures k in MeanOf(samples) ==> lo <= MeanOf(samples)[k] <= hi
  {
    CountPositive(samples, k);
    if k in MeanOf(samples) {
      SumBetween(samples, k, lo, hi);
      Divided(KeySum(samples, k), KeyCount(samples, k), lo, hi);
    }
  }

  lemma {:induction false} CountPositive(samples: seq<Means>, k: string)
    ensures KeyCount(samples, k) > 0 <==> exists d :: d in samples && k in d
  {
    if samples != [] {
      assert samples == samples[..|samples| - 1] + [samples[|samples| - 1]];
      CountPositive(samples[..|samples| - 1], k);
    }
  }

  // ----------------------------------------------------------------- verdicts

  datatype Finding = NoSample | AboveMaxAbs | BelowMinAbs | NoUsableBaseline | AboveMaxRatio | BelowMinRatio | Fine

  /** Usable as the denominator of a ratio. */
  predicate Usable(baseline: Means, metric: string) {
    metric in baseline && baseline[metric] != 0.0
  }

  /** The gate holds: the metric was sampled, lies within the absolute bounds, and when a ratio is asked for, the
      baseline can carry one and it lies within the ratio bounds. */
  ghost predicate Holds(g: Gate, canary: Means, baseline: Means) {
    && g.metric in canary
    && var c := canary[g.metric];
       && (g.maxAbs.Some? ==> c <= g.maxAbs.value)
       && (g.minAbs.Some? ==> c >= g.minAbs.value)
       && (g.maxRatio.Some? || g.minRatio.Some? ==>
             && Usable(baseline, g.metric)
             && (g.maxRatio.Some? ==> c / baseline[g.metric] <= g.maxRatio.value)
             && (g.minRatio.Some? ==> c / baseline[g.metric] >= g.minRatio.value))
  }

  /** The one finding a gate produces: the first check that fails, in the order they are made. */
  function Judge(g: Gate, canary: Means, baseline: Means): (f: Finding)
    ensures f.Fine? <==> Holds(g, canary, baseline)
  {
    if g.metric !in canary then NoSample
    else
      var c := canary[g.metric];
      if g.maxAbs.Some? && c > g.maxAbs.value then AboveMaxAbs
      else if g.minAbs.Some? && c < g.minAbs.value then BelowMinAbs
      else if g.maxRatio.None? && g.minRatio.None? then Fine
      else if !Usable(baseline, g.metric) then NoUsableBaseline
      else
        var r := c / baseline[g.metric];
        if g.maxRatio.Some? && r > g.maxRatio.value then AboveMaxRatio
        else if g.minRatio.Some? && r < g.minRatio.value then BelowMinRatio
        else Fine
  }

  /** The one finding of a gate: no sample; then a bound of its own that is crossed, the upper before the lower; then,
      when it has a ratio bound, no usable baseline; then the ratio above or below its bounds, the upper first. */
  lemma FindingSays(g: Gate, canary: Means, baseline: Means)
    ensures var f := Judge(g, canary, baseline);
            if g.metric !in canary then f.NoSample?
            else
              var c := canary[g.metric];
              var above := g.maxAbs.Some? && c > g.maxAbs.value; var below := g.minAbs.Some? && c < g.minAbs.value;
              var ratio := g.maxRatio.Some? || g.minRatio.Some?;
              && (f.AboveMaxAbs? <==> above)
              && (f.BelowMinAbs? <==> below && !above)
              && (f.NoUsableBaseline? <==> !above && !below && ratio && !Usable(baseline, g.metric))
              && (f.AboveMaxRatio? || f.BelowMinRatio? ==> !above && !below && Usable(baseline, g.metric))
              && (f.AboveMaxRatio? ==> g.maxRatio.Some? && c / baseline[g.metric] > g.maxRatio.value)
              && (f.BelowMinRatio? ==>
                    && g.minRatio.Some? && c / baseline[g.metric] < g.minRatio.value
                    && (g.maxRatio.Some? ==> c / baseline[g.metric] <= g.maxRatio.value))
              && !f.NoSample?
  {
  }

  /** A ratio gate looks at the ratio alone: with both sides scaled by the same positive factor it holds as before. */
  lemma RatiosScale(g: Gate, canary: Means, baseline: Means, canary': Means, baseline': Means, a: real)
    requires g.maxAbs.None? && g.minAbs.None? && a > 0.0 && g.metric in canary && g.metric in baseline
    requires g.metric in canary' && canary'[g.metric] == a * canary[g.metric]
    requires g.metric in baseline' && baseline'[g.metric] == a * baseline[g.metric]
    ensures Holds(g, canary', baseline') <==> Holds(g, canary, baseline)
  {
    var c, b := canary[g.metric], baseline[g.metric];
    if b != 0.0 {
      ScaledRatio(c, b, a, canary'[g.metric], baseline'[g.metric]);
    } else {
      assert a * b == 0.0;
    }
  }

  lemma ScaledRatio(c: real, b: real, a: real, c': real, b': real)
    requires a > 0.0 && b != 0.0 && c' == a * c && b' == a * b
    ensures b' != 0.0 && c' / b' == c / b
  {
    var r := c / b;
    Cancel(c, b);
    assert r * b == c;
    assert c' == r * b';
    Unscale(r, b');
  }

  lemma Unscale(r: real, y: real)
    requires y != 0.0
    ensures r * y / y == r
  {
  }

  /** A gate with one bound holds of a metric exactly at the bound, and of one exactly at the baseline for a ratio of
      1. */
  lemma BoundsAreInclusive(metric: string, x: real, b: real)
    requires b != 0.0
    ensures Holds(Gate(metric, Some(x), Some(x), None, None), map[metric := x], map[])
    ensures Holds(Gate(metric, None, None, Some(1.0), Some(1.0)), map[metric := b], map[metric := b])
    ensures !Holds(Gate(metric, Some(x), None, None, None), map[metric := x + 1.0], map[])
    ensures !Holds(Gate(metric, None, Some(x), None, None), map[metric := x - 1.0], map[])
  {
    assert b / b == 1.0;
  }

  ghost predicate AllHold(gates: seq<Gate>, canary: Means, baseline: Means) {
    forall g | g in gates :: Holds(g, canary, baseline)
  }

  /** `evaluate`: one finding for every gate, in order, and a pass exactly when every gate holds. */
  method Evaluate(gates: seq<Gate>, canary: Means, baseline: Means) returns (passed: bool, findings: seq<Finding>)
    ensures |findings| == |gates| && forall i | 0 <= i < |gates| :: findings[i] == Judge(gates[i], canary, baseline)
    ensures passed <==> AllHold(gates, canary, baseline)
  {
    findings, passed := [], true;
    for i := 0 to |gates|
      invariant |findings| == i && forall j | 0 <= j < i :: findings[j] == Judge(gates[j], canary, baseline)
      invariant passed <==> AllHold(gates[..i], canary, baseline)
    {
      assert gates[..i + 1] == gates[..i] + [gates[i]];
      var f := Judge(gates[i], canary, baseline);
      findings := findings + [f];
      if f != Fine {
        passed := false;
      }
    }
    assert gates[..|gates|] == gates;
  }

  /** Gates on both sides of a concatenation are judged independently. */
  lemma PassesConcat(a: seq<Gate>, b: seq<Gate>, canary: Means, baseline: Means)
    ensures AllHold(a + b, canary, baseline) <==> AllHold(a, canary, baseline) && AllHold(b, canary, baseline)
  {
  }
}
