/** What every run of hot updates and warm reinits of the SGLang scheduler keeps. */
module SglangSafety {
  import opened Wrappers
  import opened PyValues
  import opened MemoryTags
  import opened SglangModel

  /** The generation counters agree, the memory saver is at that generation, there is one entry of old pools for each
      earlier one (SglangPools says what is in it), and the live cap and its recorded ceiling sit at the allocation of
      the current pools. */
  ghost predicate Inv(s: Scheduler) {
    && s.adapter.classGen == s.gen && |s.retained| == s.gen && Current(s.adapter.saver, s.gen)
    && s.maxRunning <= s.runner.alloc && Ceiling(s) == s.runner.alloc
  }

  ghost predicate HonestFailure(f: Failure) {
    f.AfterOverride? ==> Tags(f.tags)
  }

  /** The engine allocates only under the two pool tags or foreign ones. */
  ghost predicate HonestTags(r: Rebuild) {
    match r
    case Succeeds(tags, _) => Tags(tags)
    case FailsThenRestores(first, tags, _) => HonestFailure(first) && Tags(tags)
    case FailsTwice(first, second) => HonestFailure(first) && HonestFailure(second)
  }

  lemma TearDownKeeps(s: Scheduler)
    requires Inv(s)
    ensures Inv(TearDown(s))
  {
  }

  lemma OverrideKeeps(s: Scheduler, values: Knobs, tags: seq<string>)
    requires Inv(s) && Tags(tags)
    ensures Inv(Override(s, values, tags))
  {
  }

  lemma TryKeeps(s: Scheduler, values: Knobs, f: Failure)
    requires Inv(s) && HonestFailure(f)
    ensures Inv(Try(s, values, f))
  {
    if f.AfterOverride? {
      OverrideKeeps(s, values, f.tags);
    }
  }

  lemma ReinitKeeps(s: Scheduler, fields: Knobs, busy: bool, r: Rebuild)
    requires Inv(s) && HonestTags(r)
    ensures Inv(Reinit(s, fields, busy, r))
  {
    if RefusalOf(s, fields, busy).None? && MemConverts(fields) {
      TearDownKeeps(s);
      var down := WithMem(TearDown(s), fields);
      match r {
        case Succeeds(tags, info) => OverrideKeeps(down, fields, tags);
        case FailsThenRestores(first, tags, info) =>
          TryKeeps(down, fields, first);
          OverrideKeeps(Try(down, fields, first), Previous(s, fields), tags);
        case FailsTwice(first, second) =>
          TryKeeps(down, fields, first);
          TryKeeps(Try(down, fields, first), Previous(s, fields), second);
      }
    }
  }

  lemma HotKeeps(s: Scheduler, check: PolicyCheck, env: RatioEnv, args: Knobs)
    requires env.decaySteps > 0.0 && Inv(s)
    ensures Inv(ApplyHot(s, check, env, args))
  {
  }

  /** A booted scheduler, whatever it allocated for its pools and for everything else. */
  lemma BootIsSafe(s: Scheduler, tags: seq<string>)
    requires s.gen == s.adapter.classGen == 0 && s.retained == [] && Tags(tags)
    requires s.adapter.saver == Allocate(Saver([], []), tags, 0)
    requires s.ceilings.None? && s.maxRunning == s.runner.alloc
    ensures Inv(s)
  {
  }

  /** Over every mix of hot updates with refused, successful, restored and failed reinits. */
  lemma {:induction false} RunSafe(s: Scheduler, check: PolicyCheck, env: RatioEnv, run: seq<Action>)
    requires env.decaySteps > 0.0 && Inv(s) && forall a | a in run :: HonestTags(a.r)
    ensures Inv(Run(s, check, env, run))
  {
    if run != [] {
      var n := |run| - 1;
      var mid, a := Run(s, check, env, run[..n]), run[n];
      RunSafe(s, check, env, run[..n]);
      ReinitKeeps(Recorded(mid), a.reinit, a.busy, a.r);
      HotKeeps(AfterReinit(mid, a.reinit, a.busy, a.r), check, env, a.args);
    }
  }

  /** What the invariant says of the pauses: after any run from boot, exactly the generations before the current
      one have been paused, each of their two tags once, in order. */
  lemma EachGenerationPausedOnce(s: Scheduler, check: PolicyCheck, env: RatioEnv, run: seq<Action>)
    requires env.decaySteps > 0.0 && Inv(s) && forall a | a in run :: HonestTags(a.r)
    ensures var t := Run(s, check, env, run);
            && |t.adapter.saver.pauses| == 2 * t.gen == 2 * |t.retained|
            && (forall g: nat | g < t.gen ::
                  t.adapter.saver.pauses[2 * g] == PauseTag(KV, g)
                      && t.adapter.saver.pauses[2 * g + 1] == PauseTag(GRAPH, g))
            && (forall i, j | 0 <= i < j < 2 * t.gen :: t.adapter.saver.pauses[i] != t.adapter.saver.pauses[j])
  {
    RunSafe(s, check, env, run);
    var gen := Run(s, check, env, run).gen;
    PausesInOrder(gen);
    forall i, j | 0 <= i < j < 2 * gen ensures PausesBefore(gen)[i] != PausesBefore(gen)[j] {
      PausedOnce(gen, i, j);
    }
  }

  ghost predicate KeepsRegion(s: Saver, t: Saver, i: nat) {
    i < |s.regions| && i < |t.regions| && t.regions[i] == s.regions[i]
  }

  lemma ReinitKeepsForeign(s: Scheduler, fields: Knobs, busy: bool, r: Rebuild, i: nat)
    requires i < |s.adapter.saver.regions| && Foreign(s.adapter.saver.regions[i].tag)
    ensures KeepsRegion(s.adapter.saver, Reinit(s, fields, busy, r).adapter.saver, i)
  {
    if RefusalOf(s, fields, busy).None? && MemConverts(fields) {
      var down := TearDown(s);
      assert s.adapter.saver.regions[i].tag != PauseTag(KV, s.gen)
          && s.adapter.saver.regions[i].tag != PauseTag(GRAPH, s.gen);
      assert KeepsRegion(s.adapter.saver, down.adapter.saver, i);
      match r {
        case Succeeds(tags, info) => assert KeepsRegion(s.adapter.saver,
            Allocate(down.adapter.saver, tags, down.adapter.classGen), i);
        case FailsThenRestores(first, tags, info) => assert KeepsRegion(s.adapter.saver,
            Try(down, fields, first).adapter.saver, i);
        case FailsTwice(first, second) => assert KeepsRegion(s.adapter.saver, Try(down, fields, first).adapter.saver,
            i);
      }
    }
  }

  lemma {:induction false} RegionsStay(s: Scheduler, check: PolicyCheck, env: RatioEnv, run: seq<Action>, i: nat)
    requires env.decaySteps > 0.0 && i < |s.adapter.saver.regions| && Foreign(s.adapter.saver.regions[i].tag)
    ensures KeepsRegion(s.adapter.saver, Run(s, check, env, run).adapter.saver, i)
  {
    if run != [] {
      var n := |run| - 1;
      RegionsStay(s, check, env, run[..n], i);
      ReinitKeepsForeign(Recorded(Run(s, check, env, run[..n])), run[n].reinit, run[n].busy, run[n].r, i);
    }
  }

  /** Weights never leave the GPU: a mapped region under a tag that is not a pool's is still mapped after any run. */
  lemma WeightsStayMapped(s: Scheduler, check: PolicyCheck, env: RatioEnv, run: seq<Action>, i: nat)
    requires env.decaySteps > 0.0 && i < |s.adapter.saver.regions|
            && s.adapter.saver.regions[i] == Region("weights", true)
    ensures var t := Run(s, check, env, run);
            i < |t.adapter.saver.regions| && t.adapter.saver.regions[i] == Region("weights", true)
  {
    WeightsAreForeign();
    RegionsStay(s, check, env, run, i);
  }

  /** The caps never exceed what the current pools were allocated for, and a recorded ceiling is that allocation. */
  lemma CapWithinAllocation(s: Scheduler, check: PolicyCheck, env: RatioEnv, run: seq<Action>)
    requires env.decaySteps > 0.0 && Inv(s) && forall a | a in run :: HonestTags(a.r)
    ensures var t := Run(s, check, env, run);
            t.maxRunning <= t.runner.alloc && (t.ceilings.Some? ==> t.ceilings.value == t.runner.alloc)
  {
    RunSafe(s, check, env, run);
  }

  // ------------------------------------------------- what a restore brings back

  /** The configuration has the value for the key, as Python compares them. */
  ghost predicate Had(config: Knobs, k: Field, v: Value) {
    k in config && Eq(config[k], v)
  }

  lemma Overlays(config: Knobs, fields: Knobs, p: Knobs)
    ensures MapEq(config + fields + p, config) <==>
            && (forall k | k in p :: Had(config, k, p[k]))
            && (forall k | k in fields && k !in p :: Had(config, k, fields[k]))
  {
  }

  /** Whether a failed and restored reinit leaves the sizing configuration as it was: exactly when it did not store
      another KV dtype before it failed (which the restore forgets), did not name the request cap or the token count
      while the live one differed from the configured one, and the configured memory fraction was the live one. */
  lemma RestoreIff(s: Scheduler, fields: Knobs, busy: bool, r: Rebuild)
    requires ReinitOutcome(s, fields, busy, r).Restored?
    ensures MapEq(Reinit(s, fields, busy, r).runner.config, s.runner.config) <==>
            && (r.first.AfterOverride? ==> KeepsDtype(s, fields))
            && SizedAsLive(s, fields)
  {
    RestoredConfig(s, fields, busy, r);
    RestoredIff(s, fields, r.first.AfterOverride?);
  }

  ghost predicate KeepsDtype(s: Scheduler, fields: Knobs) {
    KvCacheDtype in fields ==> Had(s.runner.config, KvCacheDtype, fields[KvCacheDtype])
  }

  /** The configuration has the live sizes of the fields a restore would set. */
  ghost predicate SizedAsLive(s: Scheduler, fields: Knobs) {
    && (MaxRunningRequests in fields ==> Had(s.runner.config, MaxRunningRequests, Int(s.maxRunning)))
    && (MaxTotalTokens in fields ==> Had(s.runner.config, MaxTotalTokens, Int(s.maxTotal)))
    && Had(s.runner.config, MemFractionStatic, Float(s.runner.memFraction))
  }

  lemma RestoredIff(s: Scheduler, fields: Knobs, stored: bool)
    requires fields.Keys <= WARM
    ensures MapEq(s.runner.config + (if stored then fields else map[]) + Previous(s, fields), s.runner.config) <==>
            (stored ==> KeepsDtype(s, fields)) && SizedAsLive(s, fields)
  {
    var written := if stored then fields else map[];
    Overlays(s.runner.config, written, Previous(s, fields));
    PreviousIff(s, fields);
    ForgottenIff(s, fields);
  }

  lemma PreviousIff(s: Scheduler, fields: Knobs)
    requires fields.Keys <= WARM
    ensures (forall k | k in Previous(s, fields) :: Had(s.runner.config, k, Previous(s, fields)[k])) <==>
            SizedAsLive(s, fields)
  {
    PreviousCovers(s, fields);
    var p := Previous(s, fields);
    if forall k | k in p :: Had(s.runner.config, k, p[k]) {
      assert Had(s.runner.config, MemFractionStatic, p[MemFractionStatic]);
      assert MaxRunningRequests in fields ==> Had(s.runner.config, MaxRunningRequests, p[MaxRunningRequests]);
      assert MaxTotalTokens in fields ==> Had(s.runner.config, MaxTotalTokens, p[MaxTotalTokens]);
    }
  }

  /** The KV dtype is the one field a restore leaves out. */
  lemma ForgottenIff(s: Scheduler, fields: Knobs)
    requires fields.Keys <= WARM
    ensures (forall k | k in fields && k !in Previous(s, fields) :: Had(s.runner.config, k, fields[k])) <==>
            KeepsDtype(s, fields)
  {
    PreviousCovers(s, fields);
    assert forall k | k in fields && k !in Previous(s, fields) :: k == KvCacheDtype;
  }

  /** So a caller can count on a restore, wherever the rebuild fails, exactly when it asks for no other KV dtype and
      the live sizes are the configured ones. */
  lemma RestoreAlwaysIff(s: Scheduler, fields: Knobs, busy: bool)
    requires RefusalOf(s, fields, busy).None? && MemConverts(fields)
    ensures (forall r | ReinitOutcome(s, fields, busy, r).Restored? ::
            MapEq(Reinit(s, fields, busy, r).runner.config, s.runner.config)) <==>
            KeepsDtype(s, fields) && SizedAsLive(s, fields)
  {
    forall r | ReinitOutcome(s, fields, busy, r).Restored?
      ensures MapEq(Reinit(s, fields, busy, r).runner.config, s.runner.config) <==>
              (r.first.AfterOverride? ==> KeepsDtype(s, fields)) && SizedAsLive(s, fields)
    {
      RestoreIff(s, fields, busy, r);
    }
    var worst := FailsThenRestores(AfterOverride([]), [], WorkerInfo(0, 0, 0, 0));
    assert ReinitOutcome(s, fields, busy, worst).Restored?;
  }

  lemma RestoredConfig(s: Scheduler, fields: Knobs, busy: bool, r: Rebuild)
    requires ReinitOutcome(s, fields, busy, r).Restored?
    ensures Reinit(s, fields, busy, r).runner.config
            == s.runner.config + (if r.first.AfterOverride? then fields else map[]) + Previous(s, fields)
  {
  }

  lemma PreviousCovers(s: Scheduler, fields: Knobs)
    requires fields.Keys <= WARM
    ensures var p := Previous(s, fields);
            && p.Keys == (fields.Keys - {KvCacheDtype}) + {MemFractionStatic}
            && p[MemFractionStatic] == Float(s.runner.memFraction)
            && (MaxRunningRequests in fields ==> p[MaxRunningRequests] == Int(s.maxRunning))
            && (MaxTotalTokens in fields ==> p[MaxTotalTokens] == Int(s.maxTotal))
  {
  }

  /** An engine whose pools have the number of requests configured, when one is. */
  ghost predicate SizedAsConfigured(config: Knobs, info: WorkerInfo) {
    MaxRunningRequests in config && config[MaxRunningRequests].Int? ==> info.running == config[MaxRunningRequests].n
  }

  /** Restoring a reinit that named the request cap sizes the pools by the live cap, so the ceiling it records is
      the old allocation exactly when the cap had not been lowered; a lowered cap cannot be raised again. */
  lemma RestoreKeepsCeilingIff(s: Scheduler, fields: Knobs, busy: bool, r: Rebuild)
    requires Inv(s) && ReinitOutcome(s, fields, busy, r).Restored? && MaxRunningRequests in fields
    requires SizedAsConfigured(Reinit(s, fields, busy, r).runner.config, r.info)
    ensures Ceiling(Reinit(s, fields, busy, r)) == s.maxRunning
    ensures Ceiling(Reinit(s, fields, busy, r)) == Ceiling(s) <==> s.maxRunning == s.runner.alloc
  {
  }

  // --------------------------------------------------------------- watermarks

  /** The conservativeness watermarks are ordered fractions, and `decaySteps` decays go from the one to the other. */
  lemma WatermarksOrdered(env: RatioEnv, v: real)
    requires env.decaySteps > 0.0 && env.init > 0.0 && 0.0 < env.minFactor <= 1.0 && v > 0.0
    ensures var t := Watermarks(env, v);
            && 0.0 < t.min <= t.init <= 1.0 && t.decay >= 0.0 && t.current == t.init
            && t.init - env.decaySteps * t.decay == t.min
  {
    assert env.init * v > 0.0;
    var init := Min(env.init * v, 1.0);
    Fraction(init, env.minFactor);
    var t := Watermarks(env, v);
    assert t.init == init && t.min <= init * env.minFactor;
    Steps(t.init - t.min, env.decaySteps);
  }

  lemma Fraction(a: real, f: real)
    requires 0.0 < a && 0.0 < f <= 1.0
    ensures 0.0 < a * f <= a
  {
  }

  lemma Steps(gap: real, n: real)
    requires gap >= 0.0 && n > 0.0
    ensures gap / n >= 0.0 && n * (gap / n) == gap
  {
  }
}
