/** The patched vLLM engine core as a state machine: the live cap on running requests, the pending target that
    schedule() tightens towards, the ceilings, and the warm reinit that replaces the scheduler. */
module VllmModel {
  import opened Wrappers
  import opened PyValues

  type ReqId = nat

  datatype Ceilings = Ceilings(seqs: int, batched: int)

  /** One scheduler generation. `cap` is max_num_running_reqs, `tokens` is max_num_scheduled_tokens. */
  datatype Sched = Sched(
    cap: int,
    pending: Option<int>,
    tokens: int,
    logLevel: Option<string>,
    ceilings: Option<Ceilings>,
    running: seq<ReqId>,
    waiting: seq<ReqId>)

  /** The engine's own configuration, which a scheduler is sized from. */
  datatype Config = Config(gpu: real, seqs: int, batched: int, longPrefill: int)

  datatype Core = Core(cfg: Config, sched: Sched, sleepMode: bool)

  datatype Reason = NegativeThreshold | NotALevel | UnknownKnob | OutOfRange(ceiling: int)

  datatype Verdict = Accept(value: Value) | Reject(reason: Reason)

  /** A scheduler built from the configuration: empty queues, nothing pending, no ceilings recorded yet. */
  function Boot(cfg: Config): Sched {
    Sched(cfg.seqs, None, cfg.batched, None, None, [], [])
  }

  // ---------------------------------------------------------------- set_knobs

  /** The ceilings once a set_knobs call has recorded them. */
  function Recorded(s: Sched): Ceilings {
    s.ceilings.GetOr(Ceilings(s.cap, s.tokens))
  }

  predicate InRange(v: Value, ceiling: int) {
    IsNumber(v) && 1 <= IntOf(v) <= ceiling
  }

  /** What becomes of one key, whatever else the call carries. */
  function Judge(c: Ceilings, key: Field, v: Value): Verdict {
    if key == LongPrefillTokenThreshold then
      if IsNumber(v) && IntOf(v) >= 0 then Accept(Int(IntOf(v))) else Reject(NegativeThreshold)
    else if key == LogLevel then
      if LevelOf(v).Some? then Accept(Str(LevelOf(v).value)) else Reject(NotALevel)
    else if key == MaxNumSeqs then
      if InRange(v, c.seqs) then Accept(Int(IntOf(v))) else Reject(OutOfRange(c.seqs))
    else if key == MaxNumBatchedTokens then
      if InRange(v, c.batched) then Accept(Int(IntOf(v))) else Reject(OutOfRange(c.batched))
    else Reject(UnknownKnob)
  }

  type Knobs = map<Field, Value>

  /** The knob's new value when the call names it and it is accepted. */
  function Taken(c: Ceilings, m: Knobs, key: Field): Option<Value> {
    if key in m && Judge(c, key, m[key]).Accept? then Some(Judge(c, key, m[key]).value) else None
  }

  function Max(a: int, b: int): int {
    if a > b then a else b
  }

  /** The writes of a call, given what it takes for each knob. */
  function Write(core: Core, seqs: Option<Value>, batched: Option<Value>, level: Option<Value>,
                 threshold: Option<Value>): Core
    requires seqs.Some? ==> seqs.value.Int?
    requires batched.Some? ==> batched.value.Int?
    requires level.Some? ==> level.value.Str?
    requires threshold.Some? ==> threshold.value.Int?
  {
    var s := core.sched;
    core.(
    cfg := if threshold.Some? then core.cfg.(longPrefill := threshold.value.n) else core.cfg,
    sched := s.(
    ceilings := Some(Recorded(s)),
    cap := if seqs.Some? then Max(seqs.value.n, |s.running|) else s.cap,
    pending := if seqs.Some? then Some(seqs.value.n) else s.pending,
    tokens := if batched.Some? then batched.value.n else s.tokens,
    logLevel := if level.Some? then Some(level.value.s) else s.logLevel))
  }

  /** A set_knobs call as one simultaneous update, with no order between the keys. */
  function SetKnobs(core: Core, m: Knobs): Core {
    var c := Recorded(core.sched);
    Write(core, Taken(c, m, MaxNumSeqs), Taken(c, m, MaxNumBatchedTokens), Taken(c, m, LogLevel),
        Taken(c, m, LongPrefillTokenThreshold))
  }

  function AppliedBy(c: Ceilings, m: Knobs): map<Field, Value> {
    map k | k in m && Judge(c, k, m[k]).Accept? :: Judge(c, k, m[k]).value
  }

  function RejectedBy(c: Ceilings, m: Knobs): map<Field, Reason> {
    map k | k in m && Judge(c, k, m[k]).Reject? :: Judge(c, k, m[k]).reason
  }

  /** The target get_knobs reports as max_num_seqs. */
  function Reported(s: Sched): int {
    s.pending.GetOr(s.cap)
  }

  // ----------------------------------------------------------------- schedule

  /** The patch at the top of schedule(). */
  function Tighten(s: Sched): Sched {
    match s.pending
    case None => s
    case Some(p) => s.(cap := Max(p, |s.running|), pending := if |s.running| <= p then None else s.pending)
  }

  /** How many waiting requests one step admits: below the cap, at most `budget`. */
  function Admitted(s: Sched, budget: nat): (n: nat)
    ensures n <= |s.waiting|
  {
    var room := Max(0, s.cap - |s.running|);
    if |s.waiting| <= budget && |s.waiting| <= room then |s.waiting| else if budget <= room then budget else room
  }

  function Admit(s: Sched, budget: nat): Sched {
    var n := Admitted(s, budget);
    s.(running := s.running + s.waiting[..n], waiting := s.waiting[n..])
  }

  function Schedule(s: Sched, budget: nat): Sched {
    Admit(Tighten(s), budget)
  }

  /** A running request leaves. */
  function Leave(s: Sched, i: nat): Sched {
    if i < |s.running| then s.(running := s.running[..i] + s.running[i + 1..]) else s
  }

  // ------------------------------------------------------------------- reinit

  /** How the engine's own rebuild goes. `failAt` is how many of the conversions at the head of
      `_rebuild` had been stored when it raised. Releasing the old KV cache can raise too: before the first try, or
      before the restore. */
  datatype Rebuild =
    | ReleaseFails
    | Succeeds
    | FailsThenRestores(failAt: nat)
    | FailsTwice(failAt: nat)
    | SecondReleaseFails(failAt: nat)

  datatype Refusal = NotWarm | NoSleepMode | Busy

  /** `Stranded` is a raise that leaves what the first try stored. */
  datatype Outcome = Refused(why: Refusal) | Rebuilt | Restored | Raises | Stranded

  const WARM: set<Field> := {GpuMemoryUtilization, MaxNumSeqs, MaxNumBatchedTokens}

  function Previous(cfg: Config): Knobs {
    map[GpuMemoryUtilization := Float(cfg.gpu), MaxNumSeqs := Int(cfg.seqs), MaxNumBatchedTokens := Int(cfg.batched)]
  }

  /** `cfg` after the first `n` of the three conversions of `_rebuild(values)`; one that cannot convert raises
      and ends the list. */
  function Store(cfg: Config, values: Knobs, n: nat): Config {
    var c0 := cfg;
    if n == 0 || (GpuMemoryUtilization in values && !IsNumber(values[GpuMemoryUtilization])) then c0 else
    var c1 := if GpuMemoryUtilization in values then c0.(gpu := NumOf(values[GpuMemoryUtilization])) else c0;
    if n == 1 || (MaxNumSeqs in values && !IsNumber(values[MaxNumSeqs])) then c1 else
    var c2 := if MaxNumSeqs in values then c1.(seqs := IntOf(values[MaxNumSeqs])) else c1;
    if n == 2 || (MaxNumBatchedTokens in values && !IsNumber(values[MaxNumBatchedTokens])) then c2 else
    if MaxNumBatchedTokens in values then c2.(batched := IntOf(values[MaxNumBatchedTokens])) else c2
  }

  predicate Converts(values: Knobs) {
    forall k | k in values && k in WARM :: IsNumber(values[k])
  }

  function RefusalOf(core: Core, fields: Knobs): Option<Refusal> {
    if !(fields.Keys <= WARM) then Some(NotWarm)
    else if !core.sleepMode then Some(NoSleepMode)
    else if core.sched.running != [] || core.sched.waiting != [] then Some(Busy)
    else None
  }

  function Generation(cfg: Config): Sched {
    Boot(cfg).(ceilings := Some(Ceilings(cfg.seqs, cfg.batched)))
  }

  function ReinitOutcome(core: Core, fields: Knobs, r: Rebuild): Outcome {
    if RefusalOf(core, fields).Some? then Refused(RefusalOf(core, fields).value)
    else if r.Succeeds? && Converts(fields) then Rebuilt
    else if r.ReleaseFails? || r.FailsTwice? then Raises
    else if r.SecondReleaseFails? then Stranded
    else Restored
  }

  /** The configuration left behind by the first `_rebuild`, failed or not. */
  function FirstTry(core: Core, fields: Knobs, r: Rebuild): Config {
    Store(core.cfg, fields, if r.Succeeds? then 3 else if r.ReleaseFails? then 0 else r.failAt)
  }

  function Reinit(core: Core, fields: Knobs, r: Rebuild): Core {
    match ReinitOutcome(core, fields, r)
    case Refused(_) => core
    case Rebuilt =>
      var cfg := FirstTry(core, fields, r);
      core.(cfg := cfg, sched := Generation(cfg))
    case Restored =>
      var cfg := Store(FirstTry(core, fields, r), Previous(core.cfg), 3);
      core.(cfg := cfg, sched := Generation(cfg))
    case Raises => core.(cfg := Store(FirstTry(core, fields, r), Previous(core.cfg), 3))
    case Stranded => core.(cfg := FirstTry(core, fields, r))
  }

  // --------------------------------------------------------------------- runs

  datatype Action =
    | DoSetKnobs(m: Knobs)
    | DoSchedule(budget: nat)
    | DoArrive(id: ReqId)
    | DoLeave(i: nat)
    | DoReinit(fields: Knobs, r: Rebuild)

  function Step(core: Core, a: Action): Core {
    match a
    case DoSetKnobs(m) => SetKnobs(core, m)
    case DoSchedule(b) => core.(sched := Schedule(core.sched, b))
    case DoArrive(id) => core.(sched := core.sched.(waiting := core.sched.waiting + [id]))
    case DoLeave(i) => core.(sched := Leave(core.sched, i))
    case DoReinit(f, r) => Reinit(core, f, r)
  }

  function Run(core: Core, run: seq<Action>): Core {
    if run == [] then core else Step(Run(core, run[..|run| - 1]), run[|run| - 1])
  }

  lemma {:induction false} RunConcat(core: Core, a: seq<Action>, b: seq<Action>)
    ensures Run(core, a + b) == Run(Run(core, a), b)
  {
    if b == [] {
      assert a + b == a;
    } else {
      var n := |b| - 1;
      assert (a + b)[..|a + b| - 1] == a + b[..n];
      RunConcat(core, a, b[..n]);
    }
  }
}
