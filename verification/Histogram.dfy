/** Quantiles from cumulative histogram buckets: the interpolation loop, and the piecewise-linear distribution
    it inverts. */
module Histogram {
  import opened Wrappers

  /** An upper bound `le`; `Inf` is the "+Inf" bucket. */
  datatype Bound = Fin(le: real) | Inf

  type Buckets = map<Bound, real>

  predicate Less(a: Bound, b: Bound) {
    a.Fin? && (b.Fin? ==> a.le < b.le)
  }

  predicate Least(m: Bound, s: set<Bound>) {
    m in s && forall b | b in s :: b == m || Less(m, b)
  }

  lemma LeastExists(s: set<Bound>)
    requires s != {}
    ensures exists m :: Least(m, s)
  {
    var x :| x in s;
    if s == {x} {
      assert Least(x, s);
    } else {
      LeastExists(s - {x});
      var m :| Least(m, s - {x});
      if Less(x, m) {
        forall b | b in s ensures b == x || Less(x, b) {
          assert b == x || b in s - {x};
        }
        assert Least(x, s);
      } else {
        assert Less(m, x);
        assert Least(m, s);
      }
    }
  }

  ghost predicate Sorted(les: seq<Bound>) {
    forall i, j | 0 <= i < j < |les| :: Less(les[i], les[j])
  }

  /** `sorted(d)` on the keys of a dict. */
  function SortedKeys(s: set<Bound>): (les: seq<Bound>)
    ensures Sorted(les)
    ensures forall b :: b in les <==> b in s
  {
    if s == {} then []
    else
      LeastExists(s);
      var m :| Least(m, s);
      [m] + SortedKeys(s - {m})
  }

  // ------------------------------------------------------------ the algorithm

  /** Which return of the search loop is taken, with what it returns. */
  datatype Exit = Overflow(prevLe: real) | Flat(le: real) | Inside(x: real) | FellThrough

  /** The height at `x` of the line from `(x0, y0)` to `(x1, y1)`. */
  function Line(x0: real, y0: real, x1: real, y1: real, x: real): real
    requires x0 != x1
  {
    y0 + (y1 - y0) * (x - x0) / (x1 - x0)
  }

  /** The loop over the buckets still to come, after a bound `prevLe` with `prevCum` below it. */
  function Search(rank: real, les: seq<Bound>, d: Buckets, prevLe: real, prevCum: real): Exit
    requires forall b | b in les :: b in d
  {
    if les == [] then FellThrough
    else
      var le, cum := les[0], d[les[0]];
      if cum >= rank then
        if le.Inf? then Overflow(prevLe)
        else if cum == prevCum then Flat(le.le)
        else Inside(Line(prevCum, prevLe, cum, le.le, rank))
      else Search(rank, les[1..], d, if le.Fin? then le.le else prevLe, cum)
  }

  function Total(d: Buckets): real {
    var les := SortedKeys(d.Keys);
    if les == [] then 0.0 else d[les[|les| - 1]]
  }

  function Rank(q: real, d: Buckets): real {
    q * Total(d)
  }

  lemma RankOrder(q: real, q': real, d: Buckets)
    requires q <= q' && Total(d) > 0.0
    ensures Rank(q, d) <= Rank(q', d)
    ensures q' <= 1.0 ==> Rank(q', d) <= Total(d)
    ensures q > 0.0 ==> Rank(q, d) > 0.0
  {
  }

  function ExitOf(q: real, d: Buckets): Exit {
    Search(Rank(q, d), SortedKeys(d.Keys), d, 0.0, 0.0)
  }

  /** What `quantile(q, d)` returns; None when the window holds no observation. */
  function Quantile(q: real, d: Buckets): Option<Bound> {
    if Total(d) <= 0.0 then None
    else
      match ExitOf(q, d)
      case Overflow(p) => Some(Fin(p))
      case Flat(le) => Some(Fin(le))
      case Inside(x) => Some(Fin(x))
      case FellThrough => Some(SortedKeys(d.Keys)[|SortedKeys(d.Keys)| - 1])
  }

  /** `quantile`, with its loop. */
  method ComputeQuantile(q: real, d: Buckets) returns (r: Option<Bound>)
    ensures r == Quantile(q, d)
  {
    var les := SortedKeys(d.Keys);
    var total := if les != [] then d[les[|les| - 1]] else 0.0;
    if total <= 0.0 { return None; }
    var rank, prevLe, prevCum := Rank(q, d), 0.0, 0.0;
    assert les[0..] == les;
    for i := 0 to |les|
      invariant ExitOf(q, d) == Search(rank, les[i..], d, prevLe, prevCum)
    {
      var le, cum := les[i], d[les[i]];
      assert les[i..][0] == le && les[i..][1..] == les[i + 1..];
      if cum >= rank {
        if le.Inf? { return Some(Fin(prevLe)); }
        if cum == prevCum { return Some(le); }
        return Some(Fin(Line(prevCum, prevLe, cum, le.le, rank)));
      }
      prevLe, prevCum := if le.Fin? then le.le else prevLe, cum;
    }
    return Some(les[|les| - 1]);
  }

  // --------------------------------------------------------- the distribution

  /** A cumulative histogram over positive bounds. */
  ghost predicate Cumulative(d: Buckets) {
    && (forall b | b in d :: d[b] >= 0.0 && (b.Fin? ==> b.le > 0.0))
    && (forall a, b | a in d && b in d && Less(a, b) :: d[a] <= d[b])
  }

  /** The piecewise-linear curve through `(prevLe, prevCum)` and the points `(le, d[le])` with a finite `le`,
      level after the last of them. */
  function Curve(les: seq<Bound>, d: Buckets, prevLe: real, prevCum: real, x: real): real
    requires forall b | b in les :: b in d
    requires Sorted(les) && forall b | b in les && b.Fin? :: prevLe < b.le
  {
    if les == [] || les[0].Inf? then prevCum
    else
      var le, cum := les[0].le, d[les[0]];
      if x <= le then Line(prevLe, prevCum, le, cum, x)
      else Curve(les[1..], d, le, cum, x)
  }

  /** How many observations lie at or below `x`, interpolated: through (0, 0) and the buckets. */
  function Cdf(d: Buckets, x: real): real
    requires Cumulative(d)
  {
    Curve(SortedKeys(d.Keys), d, 0.0, 0.0, x)
  }

  function LastFinite(les: seq<Bound>, prevLe: real): real {
    if les == [] || les[0].Inf? then prevLe else LastFinite(les[1..], les[0].le)
  }

  /** The last finite bound, or 0 without one. */
  function Edge(d: Buckets): real {
    LastFinite(SortedKeys(d.Keys), 0.0)
  }

  /** Some finite bucket holds the rank. */
  ghost predicate Reached(d: Buckets, rank: real) {
    exists b :: b in d && b.Fin? && d[b] >= rank
  }

  // ------------------------------------------------------------------- proofs

  lemma Scale(u: real, v: real, a: real)
    requires a > 0.0
    ensures u >= v <==> u * a >= v * a
  {
  }

  lemma OnLine(x0: real, y0: real, x1: real, y1: real, x: real)
    requires x0 != x1
    ensures (Line(x0, y0, x1, y1, x) - y0) * (x1 - x0) == (y1 - y0) * (x - x0)
  {
  }

  /** On one segment, the curve has reached `rank` exactly from the interpolated point on. */
  lemma Segment(pl: real, pc: real, le: real, cum: real, rank: real, y: real)
    requires pl < le && pc < rank <= cum
    ensures var x := Line(pc, pl, cum, le, rank);
            pl < x <= le && (Line(pl, pc, le, cum, y) >= rank <==> y >= x)
  {
    var x, h := Line(pc, pl, cum, le, rank), Line(pl, pc, le, cum, y);
    var a, b, c := le - pl, cum - pc, rank - pc;
    var t, w := y - pl, x - pl;
    OnLine(pc, pl, cum, le, rank);
    OnLine(pl, pc, le, cum, y);
    assert (h - pc) * a == t * b && w * b == c * a;
    Similar(h - pc, t, w, a, b, c);
    PositiveAndBelow(a, b, c, w);
  }

  lemma Similar(h: real, t: real, w: real, a: real, b: real, c: real)
    requires a > 0.0 && b > 0.0 && h * a == t * b && w * b == c * a
    ensures h >= c <==> t >= w
  {
  }

  lemma PositiveAndBelow(a: real, b: real, c: real, w: real)
    requires a > 0.0 && 0.0 < c <= b && w * b == c * a
    ensures 0.0 < w <= a
  {
  }

  /** A rising segment lies between its ends. */
  lemma Between(pl: real, pc: real, le: real, cum: real, y: real)
    requires pl < le && pc <= cum && pl <= y <= le
    ensures pc <= Line(pl, pc, le, cum, y) <= cum
  {
    var h, a, b, t := Line(pl, pc, le, cum, y), le - pl, cum - pc, y - pl;
    OnLine(pl, pc, le, cum, y);
    Scale(h - pc, 0.0, a);
    Scale(b, h - pc, a);
    assert b * t >= 0.0 && b * (a - t) >= 0.0;
  }

  ghost predicate Rising(les: seq<Bound>, d: Buckets, prevCum: real)
    requires forall b | b in les :: b in d
  {
    && (forall b | b in les :: prevCum <= d[b])
    && (forall a, b | a in les && b in les && Less(a, b) :: d[a] <= d[b])
  }

  /** An `Inside(x)` answer is the point from which the curve has reached the rank, an `Overflow` answer is the last
      finite bound and the curve never reaches it, and no other return is taken. */
  ghost predicate Inverts(rank: real, les: seq<Bound>, d: Buckets, pl: real, pc: real)
    requires Sorted(les) && forall b | b in les :: b in d && (b.Fin? ==> pl < b.le)
  {
    match Search(rank, les, d, pl, pc)
    case Inside(x) =>
      && pl < x <= LastFinite(les, pl)
      && (exists b :: b in les && b.Fin? && d[b] >= rank)
      && forall y: real :: y >= pl ==> (Curve(les, d, pl, pc, y) >= rank <==> y >= x)
    case Overflow(p) =>
      && pl <= p == LastFinite(les, pl)
      && (forall b | b in les && b.Fin? :: d[b] < rank)
      && forall y: real :: y >= pl ==> Curve(les, d, pl, pc, y) < rank
    case _ => false
  }

  lemma InvertsHere(rank: real, les: seq<Bound>, d: Buckets, pl: real, pc: real)
    requires Sorted(les) && les != [] && forall b | b in les :: b in d && (b.Fin? ==> pl < b.le)
    requires Rising(les, d, pc) && les[0].Fin? && pc < rank <= d[les[0]]
    ensures Inverts(rank, les, d, pl, pc)
  {
    LastFiniteGrows(les, pl);
    Segment(pl, pc, les[0].le, d[les[0]], rank, pl);
    AllReachedHere(rank, les, d, pl, pc);
  }

  lemma InvertsBeyond(rank: real, les: seq<Bound>, d: Buckets, pl: real, pc: real)
    requires Sorted(les) && les != [] && forall b | b in les :: b in d && (b.Fin? ==> pl < b.le)
    requires Rising(les, d, pc) && les[0].Fin? && d[les[0]] < rank
    requires Inverts(rank, les[1..], d, les[0].le, d[les[0]])
    ensures Inverts(rank, les, d, pl, pc)
  {
    NoneReachedHere(rank, les, d, pl, pc);
  }

  /** The search inverts the curve. */
  lemma {:induction false} SearchInverts(rank: real, les: seq<Bound>, d: Buckets, pl: real, pc: real)
    requires Sorted(les) && les != [] && forall b | b in les :: b in d && (b.Fin? ==> pl < b.le)
    requires Rising(les, d, pc) && pc < rank <= d[les[|les| - 1]]
    ensures Inverts(rank, les, d, pl, pc)
  {
    if les[0].Fin? {
      if d[les[0]] >= rank {
        InvertsHere(rank, les, d, pl, pc);
      } else {
        assert forall b | b in les[1..] :: b in les;
        SearchInverts(rank, les[1..], d, les[0].le, d[les[0]]);
        InvertsBeyond(rank, les, d, pl, pc);
      }
    }
  }

  lemma NotReachedHere(rank: real, les: seq<Bound>, d: Buckets, pl: real, pc: real, y: real)
    requires Sorted(les) && les != [] && les[0].Fin? && (forall b | b in les :: b in d) && Rising(les, d, pc)
    requires pl < les[0].le && d[les[0]] < rank && pl <= y <= les[0].le
    ensures Curve(les, d, pl, pc, y) < rank
  {
    Between(pl, pc, les[0].le, d[les[0]], y);
    assert Curve(les, d, pl, pc, y) == Line(pl, pc, les[0].le, d[les[0]], y);
  }

  lemma ReachedHere(rank: real, les: seq<Bound>, d: Buckets, pl: real, pc: real, y: real)
    requires Sorted(les) && les != [] && forall b | b in les :: b in d && (b.Fin? ==> pl < b.le)
    requires Rising(les, d, pc) && les[0].Fin? && pc < rank <= d[les[0]] && y >= pl
    ensures Curve(les, d, pl, pc, y) >= rank <==> y >= Line(pc, pl, d[les[0]], les[0].le, rank)
  {
    Segment(pl, pc, les[0].le, d[les[0]], rank, y);
    if y > les[0].le {
      CurveRises(les[1..], d, les[0].le, d[les[0]], y);
    }
  }

  lemma AllReachedHere(rank: real, les: seq<Bound>, d: Buckets, pl: real, pc: real)
    requires Sorted(les) && les != [] && forall b | b in les :: b in d && (b.Fin? ==> pl < b.le)
    requires Rising(les, d, pc) && les[0].Fin? && pc < rank <= d[les[0]]
    ensures forall y: real | y >= pl ::
              Curve(les, d, pl, pc, y) >= rank <==> y >= Line(pc, pl, d[les[0]], les[0].le, rank)
  {
    forall y: real | y >= pl
      ensures Curve(les, d, pl, pc, y) >= rank <==> y >= Line(pc, pl, d[les[0]], les[0].le, rank)
    {
      ReachedHere(rank, les, d, pl, pc, y);
    }
  }

  lemma NoneReachedHere(rank: real, les: seq<Bound>, d: Buckets, pl: real, pc: real)
    requires Sorted(les) && les != [] && les[0].Fin? && (forall b | b in les :: b in d) && Rising(les, d, pc)
    requires pl < les[0].le && d[les[0]] < rank
    ensures forall y: real | pl <= y <= les[0].le :: Curve(les, d, pl, pc, y) < rank
  {
    forall y: real | pl <= y <= les[0].le ensures Curve(les, d, pl, pc, y) < rank {
      NotReachedHere(rank, les, d, pl, pc, y);
    }
  }

  lemma {:induction false} LastFiniteGrows(les: seq<Bound>, pl: real)
    requires Sorted(les) && forall b | b in les && b.Fin? :: pl < b.le
    ensures pl <= LastFinite(les, pl)
    ensures forall b | b in les && b.Fin? :: b.le <= LastFinite(les, pl)
  {
    if les != [] && les[0].Fin? {
      LastFiniteGrows(les[1..], les[0].le);
    } else if les != [] {
      assert forall i | 0 <= i < |les| :: les[i].Inf?;
    }
  }

  lemma {:induction false} CurveRises(les: seq<Bound>, d: Buckets, pl: real, pc: real, y: real)
    requires Sorted(les) && forall b | b in les :: b in d && (b.Fin? ==> pl < b.le)
    requires Rising(les, d, pc) && y >= pl
    ensures Curve(les, d, pl, pc, y) >= pc
  {
    if les != [] && les[0].Fin? {
      var le, cum := les[0].le, d[les[0]];
      if y <= le {
        Between(pl, pc, le, cum, y);
      } else {
        assert forall b | b in les[1..] :: b in les;
        CurveRises(les[1..], d, le, cum, y);
      }
    }
  }

  /** `v` is the least point where the distribution reaches `rank`, or the last finite bound if it never does. */
  ghost predicate IsInverse(d: Buckets, rank: real, v: real)
    requires Cumulative(d)
  {
    && 0.0 <= v <= Edge(d)
    && if Reached(d, rank)
       then forall y: real :: y >= 0.0 ==> (Cdf(d, y) >= rank <==> y >= v)
       else v == Edge(d) && forall y: real :: y >= 0.0 ==> Cdf(d, y) < rank
  }

  /** `quantile` is the exact generalised inverse of the interpolated distribution, for every histogram and every
      0 < q <= 1, and of its four returns only the interpolating one and the +Inf one are ever taken. */
  lemma QuantileInverts(q: real, d: Buckets)
    requires 0.0 < q <= 1.0 && Cumulative(d) && Total(d) > 0.0
    ensures Quantile(q, d).Some? && Quantile(q, d).value.Fin?
    ensures IsInverse(d, Rank(q, d), Quantile(q, d).value.le)
    ensures ExitOf(q, d).Inside? || ExitOf(q, d).Overflow?
  {
    var les := SortedKeys(d.Keys);
    assert les[|les| - 1] in les;
    RankOrder(q, q, d);
    SearchInverts(Rank(q, d), les, d, 0.0, 0.0);
  }

  /** For any counts at all, falling or not, a `q` in 0..1 never falls out of the loop: the answer is finite. */
  lemma {:induction false} SearchStops(rank: real, les: seq<Bound>, d: Buckets, pl: real, pc: real)
    requires les != [] && (forall b | b in les :: b in d) && rank <= d[les[|les| - 1]]
    ensures !Search(rank, les, d, pl, pc).FellThrough?
  {
    if d[les[0]] < rank {
      SearchStops(rank, les[1..], d, if les[0].Fin? then les[0].le else pl, d[les[0]]);
    }
  }

  lemma ExitStops(q: real, d: Buckets)
    requires 0.0 <= q <= 1.0 && Total(d) > 0.0
    ensures !ExitOf(q, d).FellThrough?
  {
    var les := SortedKeys(d.Keys);
    assert les[|les| - 1] in les;
    RankOrder(q, q, d);
    SearchStops(Rank(q, d), les, d, 0.0, 0.0);
  }

  /** Whether `quantile` answers does not depend on `q`, and for 0 <= q <= 1 what it answers is a number. */
  lemma QuantileAnswers(q: real, d: Buckets)
    requires 0.0 <= q <= 1.0
    ensures Quantile(q, d).Some? <==> Total(d) > 0.0
    ensures Quantile(q, d).Some? ==> Quantile(q, d).value.Fin?
  {
    if Total(d) > 0.0 {
      ExitStops(q, d);
    }
  }

  lemma InverseOrder(d: Buckets, rank: real, rank': real, v: real, v': real)
    requires Cumulative(d) && rank <= rank' && IsInverse(d, rank, v) && IsInverse(d, rank', v')
    ensures v <= v'
  {
    if Reached(d, rank') {
      var b :| b in d && b.Fin? && d[b] >= rank';
      assert d[b] >= rank;
      assert Cdf(d, v') >= rank';
    }
  }

  /** A larger `q` never gives a smaller answer. */
  lemma QuantileMonotone(q: real, q': real, d: Buckets)
    requires 0.0 < q <= q' <= 1.0 && Cumulative(d) && Total(d) > 0.0
    ensures Quantile(q, d).Some? && Quantile(q, d).value.Fin? && Quantile(q', d).Some? && Quantile(q', d).value.Fin?
    ensures 0.0 <= Quantile(q, d).value.le <= Quantile(q', d).value.le <= Edge(d)
  {
    QuantileInverts(q, d);
    QuantileInverts(q', d);
    RankOrder(q, q', d);
    InverseOrder(d, Rank(q, d), Rank(q', d), Quantile(q, d).value.le, Quantile(q', d).value.le);
  }

  /** Outside 0 < q <= 1 the other two returns are reachable, on an honest histogram. */
  lemma OtherReturns()
    ensures var d: Buckets := map[Fin(1.0) := 0.0, Fin(2.0) := 5.0];
            Cumulative(d) && Total(d) == 5.0 && ExitOf(0.0, d) == Flat(1.0) && ExitOf(2.0, d) == FellThrough
  {
    var d: Buckets := map[Fin(1.0) := 0.0, Fin(2.0) := 5.0];
    var les := SortedKeys(d.Keys);
    assert d.Keys == {Fin(1.0), Fin(2.0)};
    assert les == [Fin(1.0), Fin(2.0)] by {
      assert Least(Fin(1.0), d.Keys);
      assert les[0] == Fin(1.0);
      assert d.Keys - {Fin(1.0)} == {Fin(2.0)};
      assert SortedKeys({Fin(2.0)})[0] == Fin(2.0);
      assert {Fin(2.0)} - {Fin(2.0)} == {};
    }
  }
}
