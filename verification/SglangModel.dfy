/** The patched SGLang scheduler: hot knobs under ceilings, and the warm reinit that moves to a new generation of
    pools while keeping the old ones referenced. */
module SglangModel {
  import opened Wrappers
  import opened PyValues
  import opened MemoryTags

  type Knobs = map<Field, Value>

  /** The pools of one build. */
  type PoolId = nat

  /** What the workers report once pools are built. `running` is the request allocation of those pools. */
  datatype WorkerInfo = WorkerInfo(total: int, prefill: int, running: int, queued: int)

  datatype Tracker = Tracker(init: real, min: real, decay: real, current: real)

  /** The three environment settings of the new-token-ratio tracker. */
  datatype RatioEnv = RatioEnv(init: real, minFactor: real, decaySteps: real)

  /** The memory saver adapter, with the counter kept on its class. */
  datatype Adapter = Adapter(on: bool, saver: Saver, classGen: nat)

  /** The model runner: its pools, the request allocation they were built with, the sizing configuration. */
  datatype Runner = Runner(pools: Option<PoolId>, nextPool: PoolId, alloc: int, config: Knobs, memFraction: real)

  datatype Scheduler = Scheduler(
    adapter: Adapter, runner: Runner, gen: nat, retained: seq<Option<PoolId>>,
    maxRunning: int, ceilings: Option<int>, maxTotal: int, maxPrefill: int, maxQueued: int, chunked: int,
    policy: Option<(Value, string)>, conservativeness: Option<real>, logLevel: Option<string>, tracker: Tracker)

  // ------------------------------------------------------------------- reinit

  const WARM: set<Field> := {MemFractionStatic, MaxTotalTokens, KvCacheDtype, MaxRunningRequests}

  /** How far a rebuild that failed had come: its override was refused before anything was stored, or it was stored
      and then memory was allocated under these tags. */
  datatype Failure = AtOverride | AfterOverride(tags: seq<string>)

  /** How the engine's rebuilds go, with the tags each allocates under. */
  datatype Rebuild =
    | Succeeds(tags: seq<string>, info: WorkerInfo)
    | FailsThenRestores(first: Failure, tags: seq<string>, info: WorkerInfo)
    | FailsTwice(first: Failure, second: Failure)

  datatype Refusal = NotWarm | NoSaver | Busy

  datatype Outcome = Refused(why: Refusal) | Built | Restored | Raises

  function RefusalOf(s: Scheduler, fields: Knobs, busy: bool): Option<Refusal> {
    if !(fields.Keys <= WARM) then Some(NotWarm) else if !s.adapter.on then Some(NoSaver) else if busy
        then Some(Busy) else None
  }

  predicate MemConverts(fields: Knobs) {
    MemFractionStatic in fields ==> IsNumber(fields[MemFractionStatic])
  }

  function ReinitOutcome(s: Scheduler, fields: Knobs, busy: bool, r: Rebuild): Outcome {
    if RefusalOf(s, fields, busy).Some? then Refused(RefusalOf(s, fields, busy).value)
    else if !MemConverts(fields) || r.FailsTwice? then Raises
    else if r.Succeeds? then Built
    else Restored
  }

  /** What a failed rebuild is retried with: the live sizes, of the fields that were asked for. */
  function PreviousOf(memFraction: real, maxTotal: int, maxRunning: int, fields: Knobs): Knobs {
    var previous := map[MemFractionStatic := Float(memFraction), MaxTotalTokens := Int(maxTotal),
        MaxRunningRequests := Int(maxRunning)];
    map k | k in previous && (k in fields || k == MemFractionStatic) :: previous[k]
  }

  function Previous(s: Scheduler, fields: Knobs): Knobs {
    PreviousOf(s.runner.memFraction, s.maxTotal, s.maxRunning, fields)
  }

  /** The old pools paused under their generation's tags and kept, the counters moved on together. */
  function TearDown(s: Scheduler): Scheduler {
    s.(adapter := s.adapter.(saver := Pause(Pause(s.adapter.saver, PauseTag(KV, s.gen)), PauseTag(GRAPH, s.gen)),
        classGen := s.gen + 1),
       gen := s.gen + 1, retained := s.retained + [s.runner.pools], runner := s.runner.(pools := None))
  }

  function WithMem(s: Scheduler, values: Knobs): Scheduler {
    if MemFractionStatic in values && IsNumber(values[MemFractionStatic])
    then s.(runner := s.runner.(memFraction := NumOf(values[MemFractionStatic])))
    else s
  }

  function Override(s: Scheduler, values: Knobs, tags: seq<string>): Scheduler {
    var t := WithMem(s, values);
    t.(runner := t.runner.(config := s.runner.config + values),
       adapter := s.adapter.(saver := Allocate(s.adapter.saver, tags, s.adapter.classGen)))
  }

  /** What a failed rebuild leaves. */
  function Try(s: Scheduler, values: Knobs, f: Failure): Scheduler {
    match f
    case AtOverride => s
    case AfterOverride(tags) => Override(s, values, tags)
  }

  /** Sizes, caps and ceilings as the new pools report them. */
  function Adopt(s: Scheduler, info: WorkerInfo): Scheduler {
    s.(runner := s.runner.(pools := Some(s.runner.nextPool), nextPool := s.runner.nextPool + 1, alloc := info.running),
       maxRunning := info.running, ceilings := Some(info.running),
       maxTotal := info.total, maxPrefill := info.prefill, maxQueued := info.queued,
       tracker := s.tracker.(current := s.tracker.init))
  }

  /** The rebuild, and the restore when it fails. */
  function Rebuilt(down: Scheduler, fields: Knobs, previous: Knobs, r: Rebuild): Scheduler {
    match r
    case Succeeds(tags, info) => Adopt(Override(down, fields, tags), info)
    case FailsThenRestores(first, tags, info) => Adopt(Override(Try(down, fields, first), previous, tags), info)
    case FailsTwice(first, second) => Try(Try(down, fields, first), previous, second)
  }

  function Reinit(s: Scheduler, fields: Knobs, busy: bool, r: Rebuild): Scheduler {
    if RefusalOf(s, fields, busy).Some? then s
    else if !MemConverts(fields) then s.(runner := s.runner.(pools := None))
    else
      Rebuilt(WithMem(TearDown(s), fields), fields, Previous(s, fields), r)
  }

  // --------------------------------------------------------------- hot knobs

  const HOT: set<Field> :=
    {MaxRunningRequests, MaxQueuedRequests, ChunkedPrefillSize, MaxPrefillTokens, SchedulePolicy,
        ScheduleConservativeness, LogLevel}

  function Ceiling(s: Scheduler): int {
    s.ceilings.GetOr(s.maxRunning)
  }

  /** The policy the engine would run for a requested one, if it accepts it. */
  type PolicyCheck = Value -> Option<string>

  predicate Accepts(s: Scheduler, check: PolicyCheck, k: Field, v: Value) {
    match k
    case MaxRunningRequests => IsNumber(v) && 1 <= IntOf(v) <= Ceiling(s)
    case MaxQueuedRequests => IsNumber(v) && IntOf(v) >= 0
    case ChunkedPrefillSize => IsNumber(v) && IntOf(v) > 0
    case MaxPrefillTokens => IsNumber(v) && 1 <= IntOf(v) <= s.maxTotal
    case SchedulePolicy => check(v).Some?
    case ScheduleConservativeness => IsNumber(v) && NumOf(v) > 0.0
    case LogLevel => LevelOf(v).Some?
    case _ => false
  }

  predicate Takes(s: Scheduler, check: PolicyCheck, args: Knobs, k: Field) {
    k in args && Accepts(s, check, k, args[k])
  }

  function Min(a: real, b: real): real {
    if a < b then a else b
  }

  function Watermarks(env: RatioEnv, v: real): Tracker
    requires env.decaySteps > 0.0
  {
    var init := Min(env.init * v, 1.0);
    var low := Min(init * env.minFactor, 1.0);
    Tracker(init, low, (init - low) / env.decaySteps, init)
  }

  /** A hot update as one simultaneous update; `ok` and the keys left over are below. */
  function ApplyHot(s: Scheduler, check: PolicyCheck, env: RatioEnv, args: Knobs): Scheduler
    requires env.decaySteps > 0.0
  {
    s.(
    ceilings := Some(Ceiling(s)),
    maxRunning := if Takes(s, check, args, MaxRunningRequests) then IntOf(args[MaxRunningRequests]) else s.maxRunning,
    maxQueued := if Takes(s, check, args, MaxQueuedRequests) then IntOf(args[MaxQueuedRequests]) else s.maxQueued,
    chunked := if Takes(s, check, args, ChunkedPrefillSize) then IntOf(args[ChunkedPrefillSize]) else s.chunked,
    maxPrefill := if Takes(s, check, args, MaxPrefillTokens) then IntOf(args[MaxPrefillTokens]) else s.maxPrefill,
    policy := if Takes(s, check, args, SchedulePolicy)
        then Some((args[SchedulePolicy], check(args[SchedulePolicy]).value)) else s.policy,
    conservativeness := if Takes(s, check, args, ScheduleConservativeness)
        then Some(NumOf(args[ScheduleConservativeness])) else s.conservativeness,
    tracker := if Takes(s, check, args, ScheduleConservativeness)
        then Watermarks(env, NumOf(args[ScheduleConservativeness])) else s.tracker,
    logLevel := if Takes(s, check, args, LogLevel) then LevelOf(args[LogLevel]) else s.logLevel)
  }

  /** No knob of the call is refused. */
  predicate AllTaken(s: Scheduler, check: PolicyCheck, args: Knobs) {
    forall k | k in args && k in HOT :: Accepts(s, check, k, args[k])
  }

  /** The order in which the patch looks for the hot knobs. */
  const ORDER: seq<Field> :=
    [MaxRunningRequests, MaxQueuedRequests, ChunkedPrefillSize, MaxPrefillTokens, SchedulePolicy,
        ScheduleConservativeness, LogLevel]

  /** Writing one accepted knob. */
  function Put(s: Scheduler, check: PolicyCheck, env: RatioEnv, k: Field, v: Value): Scheduler
    requires env.decaySteps > 0.0 && Accepts(s, check, k, v)
  {
    match k
    case MaxRunningRequests => s.(maxRunning := IntOf(v))
    case MaxQueuedRequests => s.(maxQueued := IntOf(v))
    case ChunkedPrefillSize => s.(chunked := IntOf(v))
    case MaxPrefillTokens => s.(maxPrefill := IntOf(v))
    case SchedulePolicy => s.(policy := Some((v, check(v).value)))
    case ScheduleConservativeness => s.(conservativeness := Some(NumOf(v)), tracker := Watermarks(env, NumOf(v)))
    case LogLevel => s.(logLevel := LevelOf(v))
    case _ => s
  }

  function Turn(s: Scheduler, check: PolicyCheck, env: RatioEnv, args: Knobs, k: Field): Scheduler
    requires env.decaySteps > 0.0
  {
    if Takes(s, check, args, k) then Put(s, check, env, k, args[k]) else s
  }

  /** The first `n` knobs of the order, one after the other. */
  function Turns(s: Scheduler, check: PolicyCheck, env: RatioEnv, args: Knobs, n: nat): Scheduler
    requires env.decaySteps > 0.0 && n <= |ORDER|
  {
    if n == 0 then s else Turn(Turns(s, check, env, args, n - 1), check, env, args, ORDER[n - 1])
  }

  lemma TurnsUnfold(s: Scheduler, check: PolicyCheck, env: RatioEnv, args: Knobs, n: nat)
    requires env.decaySteps > 0.0 && n < |ORDER|
    ensures Turns(s, check, env, args, n + 1) == Turn(Turns(s, check, env, args, n), check, env, args, ORDER[n])
  {
  }

  /** The first four knobs of the order are the sizes, the first two of them those of the request queues. */
  lemma QueueTurns(s: Scheduler, check: PolicyCheck, env: RatioEnv, args: Knobs)
    requires env.decaySteps > 0.0 && s.ceilings.Some?
    ensures var all := ApplyHot(s, check, env, args);
            Turns(s, check, env, args, 2) == s.(maxRunning := all.maxRunning, maxQueued := all.maxQueued)
  {
    TurnsUnfold(s, check, env, args, 0);
    TurnsUnfold(s, check, env, args, 1);
  }

  lemma SizeTurns(s: Scheduler, check: PolicyCheck, env: RatioEnv, args: Knobs)
    requires env.decaySteps > 0.0 && s.ceilings.Some?
    ensures var all := ApplyHot(s, check, env, args);
            Turns(s, check, env, args, 4)
            == s.(maxRunning := all.maxRunning, maxQueued := all.maxQueued, chunked := all.chunked,
                maxPrefill := all.maxPrefill)
  {
    QueueTurns(s, check, env, args);
    TurnsUnfold(s, check, env, args, 2);
    TurnsUnfold(s, check, env, args, 3);
  }

  /** One knob after the other is all of them at once: no write changes what another is judged by. */
  lemma TurnsAreSimultaneous(s: Scheduler, check: PolicyCheck, env: RatioEnv, args: Knobs)
    requires env.decaySteps > 0.0 && s.ceilings.Some?
    ensures Turns(s, check, env, args, |ORDER|) == ApplyHot(s, check, env, args)
  {
    SizeTurns(s, check, env, args);
    TurnsUnfold(s, check, env, args, 4);
    TurnsUnfold(s, check, env, args, 5);
    TurnsUnfold(s, check, env, args, 6);
  }

  lemma OrderIsHot()
    ensures forall k :: k in HOT <==> exists j :: 0 <= j < |ORDER| && ORDER[j] == k
  {
    assert ORDER[0] == MaxRunningRequests && ORDER[1] == MaxQueuedRequests && ORDER[2] == ChunkedPrefillSize;
    assert ORDER[3] == MaxPrefillTokens && ORDER[4] == SchedulePolicy && ORDER[5] == ScheduleConservativeness
        && ORDER[6] == LogLevel;
  }

  /** What a knob is judged by is the same all along. */
  lemma {:induction false} JudgedAlike(s: Scheduler, check: PolicyCheck, env: RatioEnv, args: Knobs, n: nat)
    requires env.decaySteps > 0.0 && n <= |ORDER| && s.ceilings.Some?
    ensures var t := Turns(s, check, env, args, n);
            t.ceilings == s.ceilings && t.maxTotal == s.maxTotal
            && forall k, v :: Accepts(t, check, k, v) == Accepts(s, check, k, v)
  {
    if n > 0 {
      JudgedAlike(s, check, env, args, n - 1);
    }
  }

  // ----------------------------------------------------- one set_internal_state

  function Recorded(s: Scheduler): Scheduler {
    s.(ceilings := Some(Ceiling(s)))
  }

  /** After the "reinit." keys of a call, if it has any. */
  function AfterReinit(s: Scheduler, reinit: Knobs, busy: bool, r: Rebuild): Scheduler {
    if IsEmpty(reinit) then Recorded(s) else Reinit(Recorded(s), reinit, busy, r)
  }

  function CallOutcome(s: Scheduler, reinit: Knobs, busy: bool, r: Rebuild): Outcome {
    if IsEmpty(reinit) then Built else ReinitOutcome(Recorded(s), reinit, busy, r)
  }

  /** The scheduler after one call: its reinit, then its hot knobs under the ceilings the reinit left. */
  function CallState(s: Scheduler, reinit: Knobs, args: Knobs, busy: bool, r: Rebuild, check: PolicyCheck,
                     env: RatioEnv): Scheduler
    requires env.decaySteps > 0.0
  {
    var t := AfterReinit(s, reinit, busy, r);
    if CallOutcome(s, reinit, busy, r).Raises? then t else ApplyHot(t, check, env, args)
  }

  /** Whether everything asked for was done, and the keys left for the stock allowlist; None when it raised. */
  function CallAnswer(s: Scheduler, reinit: Knobs, args: Knobs, busy: bool, r: Rebuild,
                      check: PolicyCheck): Option<(bool, Knobs)> {
    if CallOutcome(s, reinit, busy, r).Raises? then None
    else Some((CallOutcome(s, reinit, busy, r).Built?
        && AllTaken(AfterReinit(s, reinit, busy, r), check, args), args - HOT))
  }

  lemma CeilingsStay(s: Scheduler, reinit: Knobs, busy: bool, r: Rebuild)
    requires s.ceilings.Some?
    ensures Reinit(s, reinit, busy, r).ceilings.Some?
  {
  }

  // --------------------------------------------------------------------- runs

  /** One set_internal_state call: "reinit." keys, other keys, and how the engine behaves. */
  datatype Action = Call(reinit: Knobs, args: Knobs, busy: bool, r: Rebuild)

  function Step(s: Scheduler, check: PolicyCheck, env: RatioEnv, a: Action): Scheduler
    requires env.decaySteps > 0.0
  {
    CallState(s, a.reinit, a.args, a.busy, a.r, check, env)
  }

  function Run(s: Scheduler, check: PolicyCheck, env: RatioEnv, run: seq<Action>): Scheduler
    requires env.decaySteps > 0.0
  {
    if run == [] then s else Step(Run(s, check, env, run[..|run| - 1]), check, env, run[|run| - 1])
  }
}
