/** The sizes of the SGLang scheduler: what its workers report, what its caps become, and what a caller reads back. */
module SglangSizes {
  import opened Wrappers
  import opened PyValues
  import opened SglangModel
  import SupervisorModel
  import EngineHonesty
  import P = SglangPools

  function Shown(s: Scheduler, k: Field): Value {
    SupervisorModel.Get(EngineHonesty.SglangLive(s), k)
  }

  // ------------------------------------------------------------ after a rebuild

  /** A reinit whose rebuild or restore came to its end. */
  predicate Landed(s: Scheduler, fields: Knobs, busy: bool, r: Rebuild) {
    ReinitOutcome(s, fields, busy, r).Built? || ReinitOutcome(s, fields, busy, r).Restored?
  }

  /** Everything a hot update can set, with the recorded ceiling and the allocation. */
  datatype Settings = Settings(
    total: int, alloc: int, ceilings: Option<int>, running: int, prefill: int, queued: int, chunked: int,
    policy: Option<(Value, string)>, conservativeness: Option<real>, logLevel: Option<string>, tracker: Tracker)

  function SettingsOf(s: Scheduler): Settings {
    Settings(s.maxTotal, s.runner.alloc, s.ceilings, s.maxRunning, s.maxPrefill, s.maxQueued, s.chunked,
             s.policy, s.conservativeness, s.logLevel, s.tracker)
  }

  lemma TryKeepsSettings(s: Scheduler, values: Knobs, f: Failure)
    ensures SettingsOf(Try(s, values, f)) == SettingsOf(s)
  {
  }

  lemma OverrideKeepsSettings(s: Scheduler, values: Knobs, tags: seq<string>)
    ensures SettingsOf(Override(s, values, tags)) == SettingsOf(s)
  {
  }

  lemma TearDownKeepsSettings(s: Scheduler, fields: Knobs)
    ensures SettingsOf(WithMem(TearDown(s), fields)) == SettingsOf(s)
  {
  }

  /** A rebuild that ends leaves what the workers report, each size under its own name, both ceilings at it, and the
      ratio tracker at its start; every other setting stays. A reinit that does not land leaves all of them. */
  lemma SettingsAfterReinit(s: Scheduler, fields: Knobs, busy: bool, r: Rebuild)
    ensures var z, was := SettingsOf(Reinit(s, fields, busy, r)), SettingsOf(s);
            if Landed(s, fields, busy, r) then
              z == Settings(r.info.total, r.info.running, Some(r.info.running), r.info.running, r.info.prefill,
                  r.info.queued,
                            was.chunked, was.policy, was.conservativeness, was.logLevel,
                            was.tracker.(current := was.tracker.init))
            else z == was
  {
    if RefusalOf(s, fields, busy).None? && MemConverts(fields) {
      var down := WithMem(TearDown(s), fields);
      TearDownKeepsSettings(s, fields);
      match r {
        case Succeeds(tags, info) => OverrideKeepsSettings(down, fields, tags);
        case FailsThenRestores(first, tags, info) =>
          TryKeepsSettings(down, fields, first);
          OverrideKeepsSettings(Try(down, fields, first), Previous(s, fields), tags);
        case FailsTwice(first, second) =>
          TryKeepsSettings(down, fields, first);
          TryKeepsSettings(Try(down, fields, first), Previous(s, fields), second);
      }
    }
  }

  lemma LiveBySettings(s: Scheduler)
    ensures var z := SettingsOf(s);
            && Shown(s, MaxRunningRequests) == Int(z.running) && Shown(s, MaxPrefillTokens) == Int(z.prefill)
            && Shown(s, MaxQueuedRequests) == Int(z.queued) && Shown(s, ChunkedPrefillSize) == Int(z.chunked)
            && Shown(s, SchedulePolicy) == (if z.policy.Some? then z.policy.value.0 else Null)
            && Shown(s, ScheduleConservativeness)
                == (if z.conservativeness.Some? then Float(z.conservativeness.value) else Null)
            && Shown(s, LogLevel) == (if z.logLevel.Some? then Str(z.logLevel.value) else Null)
  {
  }

  /** So what is read back afterwards is what the workers report, and the knobs that are no sizes read as before. */
  lemma ReadBackAfterReinit(s: Scheduler, fields: Knobs, busy: bool, r: Rebuild)
    requires Landed(s, fields, busy, r)
    ensures var t := Reinit(s, fields, busy, r);
            && Shown(t, MaxRunningRequests) == Int(r.info.running)
            && Shown(t, MaxPrefillTokens) == Int(r.info.prefill)
            && Shown(t, MaxQueuedRequests) == Int(r.info.queued)
            && (forall k | k in {ChunkedPrefillSize, SchedulePolicy, ScheduleConservativeness, LogLevel} ::
                Shown(t, k) == Shown(s, k))
  {
    SettingsAfterReinit(s, fields, busy, r);
    LiveBySettings(s);
    LiveBySettings(Reinit(s, fields, busy, r));
  }

  /** The caps that follow are judged by what the workers reported: a prefill budget is accepted exactly up to the token
      total, a running cap exactly up to the request allocation. */
  lemma CapsAfterReinit(s: Scheduler, fields: Knobs, busy: bool, r: Rebuild, check: PolicyCheck, n: int)
    requires Landed(s, fields, busy, r)
    ensures Accepts(Reinit(s, fields, busy, r), check, MaxPrefillTokens, Int(n)) <==> 1 <= n <= r.info.total
    ensures Accepts(Reinit(s, fields, busy, r), check, MaxRunningRequests, Int(n)) <==> 1 <= n <= r.info.running
  {
    SettingsAfterReinit(s, fields, busy, r);
  }

  /** The same caps for the hot knobs of the very call that carries the reinit: they are judged after it. */
  lemma CapsInTheSameCall(s: Scheduler, a: Action, check: PolicyCheck, env: RatioEnv)
    requires env.decaySteps > 0.0 && !IsEmpty(a.reinit) && Landed(Recorded(s), a.reinit, a.busy, a.r)
    requires MaxRunningRequests in a.args && a.args[MaxRunningRequests].Int?
    ensures var n := a.args[MaxRunningRequests].n; var t := Step(s, check, env, a);
            && t.maxRunning == (if 1 <= n <= a.r.info.running then n else a.r.info.running)
            && Ceiling(t) == a.r.info.running
  {
    SettingsAfterReinit(Recorded(s), a.reinit, a.busy, a.r);
  }

  /** A restore that names the token count or the request cap stores the live ones, as the last rebuild reported them
      and the caps have left them, and puts the memory fraction back. */
  lemma RestoreStoresLiveSizes(s: Scheduler, fields: Knobs, busy: bool, r: Rebuild)
    requires ReinitOutcome(s, fields, busy, r).Restored?
    ensures var config := Reinit(s, fields, busy, r).runner.config;
            && (MaxTotalTokens in fields ==> MaxTotalTokens in config && config[MaxTotalTokens] == Int(s.maxTotal))
            && (MaxRunningRequests in fields ==>
                  MaxRunningRequests in config && config[MaxRunningRequests] == Int(s.maxRunning))
            && MemFractionStatic in config && config[MemFractionStatic] == Float(s.runner.memFraction)
    ensures Reinit(s, fields, busy, r).runner.memFraction == s.runner.memFraction
  {
    RestoredRunner(s, fields, busy, r);
  }

  lemma RestoredRunner(s: Scheduler, fields: Knobs, busy: bool, r: Rebuild)
    requires ReinitOutcome(s, fields, busy, r).Restored?
    ensures var down := Try(WithMem(TearDown(s), fields), fields, r.first).runner;
            var t := Reinit(s, fields, busy, r).runner;
            && t.config == down.config + Previous(s, fields)
            && t.memFraction == s.runner.memFraction
  {
  }

  /** So a second reinit that fails brings back the token count the first one was given. */
  lemma RestoredToReported(s: Scheduler, fields: Knobs, r: Rebuild, fields2: Knobs, r2: Rebuild, busy: bool)
    requires Landed(s, fields, busy, r) && MaxTotalTokens in fields2
    requires ReinitOutcome(Reinit(s, fields, busy, r), fields2, busy, r2).Restored?
    ensures var t := Reinit(Reinit(s, fields, busy, r), fields2, busy, r2);
            MaxTotalTokens in t.runner.config && t.runner.config[MaxTotalTokens] == Int(r.info.total)
  {
    RestoreStoresLiveSizes(Reinit(s, fields, busy, r), fields2, busy, r2);
  }

  /** Which refusal a reinit gets: an unknown field first, then a server without the memory saver, then a busy one. */
  lemma RefusalSays(s: Scheduler, fields: Knobs, busy: bool)
    ensures var known := forall k | k in fields ::
            k in {MemFractionStatic, MaxTotalTokens, KvCacheDtype, MaxRunningRequests};
            RefusalOf(s, fields, busy) ==
            if !known then Some(NotWarm) else if !s.adapter.on then Some(NoSaver) else if busy then Some(Busy) else None
  {
  }

  // --------------------------------------------------------------------- runs

  /** The token total, the request allocation, and the live caps. */
  datatype Sizes = Sizes(total: int, alloc: int, running: int, prefill: int, queued: int, chunked: int)

  function SizesOf(s: Scheduler): Sizes {
    Sizes(s.maxTotal, s.runner.alloc, s.maxRunning, s.maxPrefill, s.maxQueued, s.chunked)
  }

  /** What the call asks of one cap between two bounds, or what it was. */
  function Capped(args: Knobs, k: Field, lo: int, hi: Option<int>, was: int): int {
    if k in args && IsNumber(args[k]) && lo <= IntOf(args[k]) && (hi.Some? ==> IntOf(args[k]) <= hi.value)
    then IntOf(args[k]) else was
  }

  /** The call carries a reinit that comes to its end. */
  predicate Lands(on: bool, a: Action) {
    P.LetThrough(on, a) && !P.Fails(on, a)
  }

  /** What one call does to the sizes: the workers' report when a rebuild ends, nothing more when it raises, and then
      each cap the call asks for that lies within its bounds. */
  function Resize(z: Sizes, on: bool, a: Action): Sizes {
    if P.Fails(on, a) then z
    else
      var b := if Lands(on, a) then Sizes(a.r.info.total, a.r.info.running, a.r.info.running, a.r.info.prefill,
          a.r.info.queued, z.chunked)
               else z;
      Sizes(b.total, b.alloc,
            Capped(a.args, MaxRunningRequests, 1, Some(b.alloc), b.running),
            Capped(a.args, MaxPrefillTokens, 1, Some(b.total), b.prefill),
            Capped(a.args, MaxQueuedRequests, 0, None, b.queued),
            Capped(a.args, ChunkedPrefillSize, 1, None, b.chunked))
  }

  function Resized(z: Sizes, on: bool, run: seq<Action>, n: nat): Sizes
    requires n <= |run|
  {
    if n == 0 then z else Resize(Resized(z, on, run, n - 1), on, run[n - 1])
  }

  lemma ReinitSizes(s: Scheduler, a: Action)
    requires Ceiling(s) == s.runner.alloc && !IsEmpty(a.reinit)
    ensures var t := Reinit(Recorded(s), a.reinit, a.busy, a.r); var on := s.adapter.on;
            && t.adapter.on == on && Ceiling(t) == t.runner.alloc
            && SizesOf(t) == (if Lands(on, a)
                              then Sizes(a.r.info.total, a.r.info.running, a.r.info.running, a.r.info.prefill,
                                  a.r.info.queued, s.chunked)
                              else SizesOf(s))
            && (ReinitOutcome(Recorded(s), a.reinit, a.busy, a.r).Raises? <==> P.Fails(on, a))
  {
    SettingsAfterReinit(Recorded(s), a.reinit, a.busy, a.r);
    SaverStays(Recorded(s), a.reinit, a.busy, a.r);
  }

  lemma SaverStays(s: Scheduler, fields: Knobs, busy: bool, r: Rebuild)
    ensures Reinit(s, fields, busy, r).adapter.on == s.adapter.on
  {
  }

  lemma HotSizes(s: Scheduler, check: PolicyCheck, env: RatioEnv, args: Knobs)
    requires env.decaySteps > 0.0 && Ceiling(s) == s.runner.alloc
    ensures var t := ApplyHot(s, check, env, args); var z := SizesOf(s);
            && t.adapter.on == s.adapter.on && Ceiling(t) == t.runner.alloc
            && SizesOf(t) == Sizes(z.total, z.alloc,
                                   Capped(args, MaxRunningRequests, 1, Some(z.alloc), z.running),
                                   Capped(args, MaxPrefillTokens, 1, Some(z.total), z.prefill),
                                   Capped(args, MaxQueuedRequests, 0, None, z.queued),
                                   Capped(args, ChunkedPrefillSize, 1, None, z.chunked))
  {
  }

  lemma StepSizes(s: Scheduler, check: PolicyCheck, env: RatioEnv, a: Action)
    requires env.decaySteps > 0.0 && Ceiling(s) == s.runner.alloc
    ensures var t := Step(s, check, env, a);
            t.adapter.on == s.adapter.on && Ceiling(t) == t.runner.alloc
                && SizesOf(t) == Resize(SizesOf(s), s.adapter.on, a)
  {
    if !IsEmpty(a.reinit) {
      ReinitSizes(s, a);
    }
    HotSizes(AfterReinit(s, a.reinit, a.busy, a.r), check, env, a.args);
  }

  /** Over every run: the sizes and caps are those the calls themselves name, rebuild by rebuild and cap by cap. */
  lemma {:induction false} RunSizes(s: Scheduler, check: PolicyCheck, env: RatioEnv, run: seq<Action>, n: nat)
    requires env.decaySteps > 0.0 && Ceiling(s) == s.runner.alloc && n <= |run|
    ensures var t := Run(s, check, env, run[..n]);
            && t.adapter.on == s.adapter.on && Ceiling(t) == t.runner.alloc
            && SizesOf(t) == Resized(SizesOf(s), s.adapter.on, run, n)
  {
    if n > 0 {
      assert run[..n][..n - 1] == run[..n - 1];
      RunSizes(s, check, env, run, n - 1);
      StepSizes(Run(s, check, env, run[..n - 1]), check, env, run[n - 1]);
    }
  }

  /** Call `i` is the last of the first `n` whose rebuild came to its end. */
  ghost predicate LastLanding(on: bool, run: seq<Action>, n: nat, i: nat)
    requires i < n <= |run|
  {
    Lands(on, run[i]) && forall j | i < j < n :: !Lands(on, run[j])
  }

  lemma {:induction false} LandingSizes(z: Sizes, on: bool, run: seq<Action>, n: nat, i: nat)
    requires i < n <= |run| && LastLanding(on, run, n, i)
    ensures Resized(z, on, run, n).total == run[i].r.info.total && Resized(z, on, run, n).alloc == run[i].r.info.running
  {
    if i < n - 1 {
      LandingSizes(z, on, run, n - 1, i);
    }
  }

  /** At every point of every run the token total and the allocation are those of the last rebuild that came to its end,
      restored ones included; no refused or raising reinit and no hot knob changes them. */
  lemma SizesAreReported(s: Scheduler, check: PolicyCheck, env: RatioEnv, run: seq<Action>, n: nat, i: nat)
    requires env.decaySteps > 0.0 && Ceiling(s) == s.runner.alloc && i < n <= |run|
    requires LastLanding(s.adapter.on, run, n, i)
    ensures var t := Run(s, check, env, run[..n]); var info := run[i].r.info;
            t.maxTotal == info.total && t.runner.alloc == info.running && Ceiling(t) == info.running
  {
    RunSizes(s, check, env, run, n);
    LandingSizes(SizesOf(s), s.adapter.on, run, n, i);
  }

  // ----------------------------------------------------------- the other knobs

  /** The policy and the watermarks of an update: the policy the engine would run for the one asked, and watermarks that
      start at the new upper one; without them both stay. */
  lemma PolicyAndRatio(s: Scheduler, check: PolicyCheck, env: RatioEnv, args: Knobs)
    requires env.decaySteps > 0.0
    ensures var t := ApplyHot(s, check, env, args);
            && (SchedulePolicy in args && check(args[SchedulePolicy]).Some? ==>
                  t.policy == Some((args[SchedulePolicy], check(args[SchedulePolicy]).value)))
            && (!(SchedulePolicy in args && check(args[SchedulePolicy]).Some?) ==> t.policy == s.policy)
            && (ScheduleConservativeness in args && IsNumber(args[ScheduleConservativeness])
                && NumOf(args[ScheduleConservativeness]) > 0.0 ==>
                  t.tracker == Watermarks(env, NumOf(args[ScheduleConservativeness]))
                      && t.tracker.current == t.tracker.init)
            && (!(ScheduleConservativeness in args && IsNumber(args[ScheduleConservativeness])
                && NumOf(args[ScheduleConservativeness]) > 0.0) ==>
                  t.tracker == s.tracker)
  {
  }

  /** The upper watermark grows in proportion to the conservativeness until it saturates at 1, and the lower one keeps
      its ratio to it; a conservativeness of 1 gives the environment's own. */
  lemma WatermarksScale(env: RatioEnv, v: real, a: real)
    requires env.decaySteps > 0.0 && env.init > 0.0 && 0.0 < env.minFactor <= 1.0 && v > 0.0 && a > 0.0
    ensures var t := Watermarks(env, v);
            && (env.init <= 1.0 ==> Watermarks(env, 1.0).init == env.init)
            && (t.init == 1.0 <==> env.init * v >= 1.0)
            && t.min == t.init * env.minFactor
            && (env.init * v <= 1.0 && env.init * (a * v) <= 1.0 ==> Watermarks(env, a * v).init == a * t.init)
  {
    Products(env.init, v, a);
    Below(Min(env.init * v, 1.0), env.minFactor);
    UpperMark(env, v);
    UpperMark(env, a * v);
    UpperMark(env, 1.0);
  }

  lemma UpperMark(env: RatioEnv, v: real)
    requires env.decaySteps > 0.0
    ensures Watermarks(env, v).init == if env.init * v < 1.0 then env.init * v else 1.0
    ensures var m := Watermarks(env, v).init * env.minFactor; Watermarks(env, v).min == if m < 1.0 then m else 1.0
  {
  }

  lemma Products(x: real, v: real, a: real)
    ensures x * (a * v) == a * (x * v) && x * 1.0 == x
  {
  }

  lemma Below(x: real, f: real)
    requires x <= 1.0 && 0.0 < f <= 1.0
    ensures x * f <= 1.0
  {
    if x > 0.0 {
      assert x * f <= x * 1.0;
    } else {
      assert x * f <= 0.0 * f;
    }
  }

  /** The keys a call leaves for the stock allowlist are those it was sent, less the seven it knows; and its answer is
      ok exactly when its reinit, if any, was built and every one of the seven it carries was taken. */
  lemma AnswerSays(s: Scheduler, a: Action, check: PolicyCheck)
    ensures var answer := CallAnswer(s, a.reinit, a.args, a.busy, a.r, check);
            && (answer.None? <==> P.Fails(s.adapter.on, a))
            && (answer.Some? ==>
                  && (forall k :: k in answer.value.1 <==>
                         k in a.args && k !in EngineHonesty.SglangLive(s) && k != SchedulePolicy)
                  && (answer.value.0 <==>
                        && (!IsEmpty(a.reinit) ==> P.LetThrough(s.adapter.on, a) && a.r.Succeeds?)
                        && forall k | k in a.args && k in HOT ::
                             Accepts(AfterReinit(s, a.reinit, a.busy, a.r), check, k, a.args[k])))
  {
  }
}
