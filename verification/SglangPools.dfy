/** The pools of the SGLang scheduler over runs: when they are gone, and which old ones are kept referenced. */
module SglangPools {
  import opened Wrappers
  import opened PyValues
  import opened SglangModel

  /** A reinit that is not refused leaves pools exactly when its memory fraction converts and one of its two rebuilds
      comes to its end, whether there were any before or not. One that raises on its memory fraction has dropped them
      before anything was paused or kept. */
  lemma PoolsIff(s: Scheduler, fields: Knobs, busy: bool, r: Rebuild)
    ensures var t := Reinit(s, fields, busy, r);
            && (RefusalOf(s, fields, busy).Some? ==> t == s)
            && (RefusalOf(s, fields, busy).None? ==>
                  && (t.runner.pools.Some? <==> MemConverts(fields) && !r.FailsTwice?)
                  && t.gen == (if MemConverts(fields) then s.gen + 1 else s.gen)
                  && t.retained == (if MemConverts(fields) then s.retained + [s.runner.pools] else s.retained)
                  && (!MemConverts(fields) ==> t.adapter == s.adapter))
  {
    if RefusalOf(s, fields, busy).None? && MemConverts(fields) && r.FailsTwice? {
      TryKeepsPools(WithMem(TearDown(s), fields), fields, r.first);
      TryKeepsPools(Try(WithMem(TearDown(s), fields), fields, r.first), Previous(s, fields), r.second);
    } else if RefusalOf(s, fields, busy).None? && MemConverts(fields) && r.FailsThenRestores? {
      TryKeepsPools(WithMem(TearDown(s), fields), fields, r.first);
    }
  }

  lemma TryKeepsPools(s: Scheduler, values: Knobs, f: Failure)
    ensures var t := Try(s, values, f);
            && t.runner.pools == s.runner.pools && t.runner.nextPool == s.runner.nextPool
            && t.gen == s.gen && t.retained == s.retained && t.adapter.on == s.adapter.on
  {
  }

  /** What a caller can count on: pools are sure to be there afterwards exactly when the call is refused and they were
      there before; and they can be there exactly when, if it is not refused, its memory fraction converts. */
  lemma PoolsAlwaysIff(s: Scheduler, fields: Knobs, busy: bool)
    ensures (forall r :: Reinit(s, fields, busy, r).runner.pools.Some?) <==>
              RefusalOf(s, fields, busy).Some? && s.runner.pools.Some?
    ensures (exists r :: Reinit(s, fields, busy, r).runner.pools.Some?) <==>
            if RefusalOf(s, fields, busy).Some? then s.runner.pools.Some? else MemConverts(fields)
  {
    forall r {
      PoolsIff(s, fields, busy, r);
    }
    assert Reinit(s, fields, busy, FailsTwice(AtOverride, AtOverride)).runner.pools.Some? ==>
        RefusalOf(s, fields, busy).Some?;
    assert MemConverts(fields) && RefusalOf(s, fields, busy).None? ==>
        Reinit(s, fields, busy, Succeeds([], WorkerInfo(0, 0, 0, 0))).runner.pools.Some?;
    assert RefusalOf(s, fields, busy).Some? ==> Reinit(s, fields, busy, FailsTwice(AtOverride, AtOverride)) == s;
  }

  // ------------------------------------------- what a run does to the pools alone

  /** What there is to say of pools: whether the memory saver is on, those in use, the next id, the generation, and what
      is kept of each earlier one. */
  datatype Pools = Pools(on: bool, used: Option<PoolId>, next: PoolId, gen: nat, kept: seq<Option<PoolId>>)

  function PoolsOf(s: Scheduler): Pools {
    Pools(s.adapter.on, s.runner.pools, s.runner.nextPool, s.gen, s.retained)
  }

  /** The call carries a reinit that is not refused. */
  predicate LetThrough(on: bool, a: Action) {
    !IsEmpty(a.reinit) && a.reinit.Keys <= WARM && on && !a.busy
  }

  /** It pauses a generation and keeps what pools there are. */
  predicate Tears(on: bool, a: Action) {
    LetThrough(on, a) && MemConverts(a.reinit)
  }

  predicate Fails(on: bool, a: Action) {
    LetThrough(on, a) && (!MemConverts(a.reinit) || a.r.FailsTwice?)
  }

  function Move(p: Pools, a: Action): Pools {
    if !LetThrough(p.on, a) then p
    else if !MemConverts(a.reinit) then p.(used := None)
    else
      p.(used := if a.r.FailsTwice? then None else Some(p.next), next := if a.r.FailsTwice? then p.next else p.next + 1,
         gen := p.gen + 1, kept := p.kept + [p.used])
  }

  /** After the first `n` calls. */
  function Moves(p: Pools, run: seq<Action>, n: nat): Pools
    requires n <= |run|
  {
    if n == 0 then p else Move(Moves(p, run, n - 1), run[n - 1])
  }

  lemma ReinitMoves(s: Scheduler, fields: Knobs, busy: bool, r: Rebuild)
    requires !IsEmpty(fields)
    ensures PoolsOf(Reinit(s, fields, busy, r)) == Move(PoolsOf(s), Call(fields, map[], busy, r))
  {
    if RefusalOf(s, fields, busy).None? && MemConverts(fields) {
      var down := WithMem(TearDown(s), fields);
      match r {
        case Succeeds(tags, info) =>
        case FailsThenRestores(first, tags, info) => TryKeepsPools(down, fields, first);
        case FailsTwice(first, second) =>
          TryKeepsPools(down, fields, first);
          TryKeepsPools(Try(down, fields, first), Previous(s, fields), second);
      }
    }
  }

  lemma HotKeepsPools(s: Scheduler, check: PolicyCheck, env: RatioEnv, args: Knobs)
    requires env.decaySteps > 0.0
    ensures PoolsOf(ApplyHot(s, check, env, args)) == PoolsOf(s)
  {
  }

  /** One call of the scheduler, as far as its pools go: its hot knobs do not matter. */
  lemma StepMoves(s: Scheduler, check: PolicyCheck, env: RatioEnv, a: Action)
    requires env.decaySteps > 0.0
    ensures PoolsOf(Step(s, check, env, a)) == Move(PoolsOf(s), a)
  {
    if !IsEmpty(a.reinit) {
      ReinitMoves(Recorded(s), a.reinit, a.busy, a.r);
    }
    HotKeepsPools(AfterReinit(s, a.reinit, a.busy, a.r), check, env, a.args);
  }

  /** The pools of the scheduler after any run are those of the small machine. */
  lemma {:induction false} RunMoves(s: Scheduler, check: PolicyCheck, env: RatioEnv, run: seq<Action>, n: nat)
    requires env.decaySteps > 0.0 && n <= |run|
    ensures PoolsOf(Run(s, check, env, run[..n])) == Moves(PoolsOf(s), run, n)
  {
    if n > 0 {
      assert run[..n][..n - 1] == run[..n - 1];
      RunMoves(s, check, env, run, n - 1);
      StepMoves(Run(s, check, env, run[..n - 1]), check, env, run[n - 1]);
    }
  }

  // ---------------------------------------------------------- when they are gone

  /** One of the first `n` calls failed, and no later one was let through. */
  ghost predicate Gone(on: bool, run: seq<Action>, n: nat)
    requires n <= |run|
  {
    exists i | 0 <= i < n :: Fails(on, run[i]) && forall j | i < j < n :: !LetThrough(on, run[j])
  }

  lemma GoneSnoc(on: bool, run: seq<Action>, n: nat)
    requires n < |run|
    ensures Gone(on, run, n + 1) <==> if LetThrough(on, run[n]) then Fails(on, run[n]) else Gone(on, run, n)
  {
  }

  lemma {:induction false} UsedIff(p: Pools, run: seq<Action>, n: nat)
    requires p.used.Some? && n <= |run|
    ensures Moves(p, run, n).on == p.on && (Moves(p, run, n).used.None? <==> Gone(p.on, run, n))
  {
    if n > 0 {
      UsedIff(p, run, n - 1);
      GoneSnoc(p.on, run, n - 1);
    }
  }

  /** At every point of every run from a scheduler that has pools, they are gone exactly when some call failed, on its
      memory fraction or in both rebuilds, and no later one has been let through. */
  lemma PoolsGoneIff(s: Scheduler, check: PolicyCheck, env: RatioEnv, run: seq<Action>, n: nat)
    requires env.decaySteps > 0.0 && s.runner.pools.Some? && n <= |run|
    ensures PoolsOf(Run(s, check, env, run[..n])).used.None? <==> Gone(s.adapter.on, run, n)
  {
    RunMoves(s, check, env, run, n);
    UsedIff(PoolsOf(s), run, n);
  }

  // --------------------------------------------------------------- what is kept

  /** How many of the first `n` calls tore pools down. */
  function Torn(on: bool, run: seq<Action>, n: nat): nat
    requires n <= |run|
  {
    if n == 0 then 0 else Torn(on, run, n - 1) + if Tears(on, run[n - 1]) then 1 else 0
  }

  /** There is one entry for each earlier generation. */
  lemma {:induction false} KeptCount(p: Pools, run: seq<Action>, n: nat)
    requires |p.kept| == p.gen && n <= |run|
    ensures Moves(p, run, n).on == p.on
    ensures |Moves(p, run, n).kept| == Moves(p, run, n).gen == p.gen + Torn(p.on, run, n)
  {
    if n > 0 {
      KeptCount(p, run, n - 1);
    }
  }

  /** And each is, from then on, what the call that tore that generation down found. */
  lemma {:induction false} KeptIsHistory(p: Pools, run: seq<Action>, n: nat, i: nat)
    requires |p.kept| == p.gen && i < n <= |run| && Tears(p.on, run[i])
    ensures var g := p.gen + Torn(p.on, run, i);
            g < |Moves(p, run, n).kept| && Moves(p, run, n).kept[g] == Moves(p, run, i).used
  {
    KeptCount(p, run, n - 1);
    if i < n - 1 {
      KeptIsHistory(p, run, n - 1, i);
    }
  }

  /** Every generation a run left behind was torn down by some call. */
  lemma {:induction false} TornBy(on: bool, run: seq<Action>, n: nat, g: nat) returns (i: nat)
    requires n <= |run| && g < Torn(on, run, n)
    ensures i < n && Tears(on, run[i]) && Torn(on, run, i) == g
  {
    if g == Torn(on, run, n - 1) {
      i := n - 1;
    } else {
      i := TornBy(on, run, n - 1, g);
    }
  }

  /** Pools are kept for every generation from `first` on. */
  ghost predicate AllKept(kept: seq<Option<PoolId>>, first: nat) {
    forall g | first <= g < |kept| :: kept[g].Some?
  }

  /** The entry of one call holds pools exactly when they were not gone. */
  lemma EntryIff(p: Pools, run: seq<Action>, n: nat, i: nat)
    requires |p.kept| == p.gen && p.used.Some? && i < n <= |run| && Tears(p.on, run[i])
    ensures var g := p.gen + Torn(p.on, run, i); var kept := Moves(p, run, n).kept;
            g < |kept| && (kept[g].Some? <==> !Gone(p.on, run, i))
  {
    KeptIsHistory(p, run, n, i);
    UsedIff(p, run, i);
  }

  lemma MovesKeepIff(p: Pools, run: seq<Action>, n: nat)
    requires |p.kept| == p.gen && p.used.Some? && n <= |run|
    ensures AllKept(Moves(p, run, n).kept, p.gen) <==> forall i: nat | i < n
            && Tears(p.on, run[i]) :: !Gone(p.on, run, i)
  {
    var kept := Moves(p, run, n).kept;
    KeptCount(p, run, n);
    if AllKept(kept, p.gen) {
      forall i: nat | i < n && Tears(p.on, run[i]) ensures !Gone(p.on, run, i) {
        EntryIff(p, run, n, i);
      }
    }
    if forall i: nat | i < n && Tears(p.on, run[i]) :: !Gone(p.on, run, i) {
      forall g | p.gen <= g < |kept| ensures kept[g].Some? {
        var i := TornBy(p.on, run, n, g - p.gen);
        EntryIff(p, run, n, i);
      }
    }
  }

  /** Over every run: one entry is kept for each generation left behind, and all of them hold pools exactly when none of
      the calls that tore a generation down found its pools gone. One that did has paused it with nothing kept. */
  lemma AllKeptIff(s: Scheduler, check: PolicyCheck, env: RatioEnv, run: seq<Action>, n: nat)
    requires env.decaySteps > 0.0 && n <= |run| && |s.retained| == s.gen && s.runner.pools.Some?
    ensures var t := PoolsOf(Run(s, check, env, run[..n])); var on := s.adapter.on;
            && |t.kept| == t.gen == s.gen + Torn(on, run, n)
            && (AllKept(t.kept, s.gen) <==> forall i: nat | i < n && Tears(on, run[i]) :: !Gone(on, run, i))
  {
    RunMoves(s, check, env, run, n);
    KeptCount(PoolsOf(s), run, n);
    MovesKeepIff(PoolsOf(s), run, n);
  }

  /** The pools kept, and those in use, are all different: ids are handed out in order. */
  ghost predicate Ordered(p: Pools) {
    && (forall g | 0 <= g < |p.kept| && p.kept[g].Some? :: p.kept[g].value < p.next)
    && (forall g, h | 0 <= g < h < |p.kept| && p.kept[g].Some? && p.kept[h].Some? :: p.kept[g].value < p.kept[h].value)
    && (p.used.Some? ==>
          p.used.value < p.next && forall g | 0 <= g < |p.kept| && p.kept[g].Some? :: p.kept[g].value < p.used.value)
  }

  lemma MoveOrdered(p: Pools, a: Action)
    requires Ordered(p)
    ensures Ordered(Move(p, a))
  {
  }

  lemma {:induction false} MovesOrdered(p: Pools, run: seq<Action>, n: nat)
    requires Ordered(p) && n <= |run|
    ensures Ordered(Moves(p, run, n))
  {
    if n > 0 {
      MovesOrdered(p, run, n - 1);
      MoveOrdered(Moves(p, run, n - 1), run[n - 1]);
    }
  }

  /** Over every run from boot no pools are kept twice, and those in use are not among the kept. */
  lemma KeptAreDistinct(s: Scheduler, check: PolicyCheck, env: RatioEnv, run: seq<Action>, n: nat)
    requires env.decaySteps > 0.0 && n <= |run| && Ordered(PoolsOf(s))
    ensures Ordered(PoolsOf(Run(s, check, env, run[..n])))
  {
    RunMoves(s, check, env, run, n);
    MovesOrdered(PoolsOf(s), run, n);
  }

  /** It does happen that nothing is kept: a reinit whose memory fraction is no number, then one that succeeds. */
  lemma PausedWithNothingKept(s: Scheduler, check: PolicyCheck, env: RatioEnv, info: WorkerInfo)
    requires env.decaySteps > 0.0 && s.adapter.on
    ensures var bad := Call(map[MemFractionStatic := Null], map[], false, Succeeds([], info));
            var good := Call(map[MaxTotalTokens := Int(info.total)], map[], false, Succeeds([], info));
            var t := Step(Step(s, check, env, bad), check, env, good);
            t.gen == s.gen + 1 && t.runner.pools.Some? && t.retained == s.retained + [None]
  {
    var bad := Call(map[MemFractionStatic := Null], map[], false, Succeeds([], info));
    var good := Call(map[MaxTotalTokens := Int(info.total)], map[], false, Succeeds([], info));
    assert MemFractionStatic in bad.reinit && MaxTotalTokens in good.reinit;
    StepMoves(s, check, env, bad);
    StepMoves(Step(s, check, env, bad), check, env, good);
  }
}
