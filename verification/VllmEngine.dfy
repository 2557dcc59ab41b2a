/** The patched EngineCore and Scheduler, updating their fields step by step as the patch does. */
module VllmEngine {
  import opened Wrappers
  import opened PyValues
  import M = VllmModel

  class Scheduler {
    var maxNumRunningReqs: int
    var pendingMaxNumSeqs: Option<int>
    var maxNumScheduledTokens: int
    var logLevel: Option<string>
    var ceilings: Option<M.Ceilings>
    var running: seq<M.ReqId>
    var waiting: seq<M.ReqId>

    ghost function Model(): M.Sched
      reads this
    {
      M.Sched(maxNumRunningReqs, pendingMaxNumSeqs, maxNumScheduledTokens, logLevel, ceilings, running, waiting)
    }

    constructor (cfg: M.Config)
      ensures Model() == M.Boot(cfg)
    {
      maxNumRunningReqs, maxNumScheduledTokens := cfg.seqs, cfg.batched;
      pendingMaxNumSeqs, logLevel, ceilings := None, None, None;
      running, waiting := [], [];
    }

    /** One engine step: the patch tightens the cap, then the engine admits waiting requests below it. */
    method Schedule(budget: nat)
      modifies this
      ensures Model() == M.Schedule(old(Model()), budget)
      ensures old(|running| <= maxNumRunningReqs) ==> |running| <= maxNumRunningReqs
    {
      Tighten();
      Admit(budget);
    }

    method Tighten()
      modifies this
      ensures Model() == M.Tighten(old(Model()))
      ensures old(|running| <= maxNumRunningReqs) ==> |running| <= maxNumRunningReqs
    {
      if pendingMaxNumSeqs.Some? {
        var pending := pendingMaxNumSeqs.value;
        maxNumRunningReqs := M.Max(pending, |running|);
        if |running| <= pending {
          pendingMaxNumSeqs := None;
        }
      }
    }

    method Admit(budget: nat)
      modifies this
      ensures Model() == M.Admit(old(Model()), budget)
      ensures old(|running| <= maxNumRunningReqs) ==> |running| <= maxNumRunningReqs
    {
      ghost var t := Model();
      var n := 0;
      while n < budget && |running| < maxNumRunningReqs && waiting != []
        invariant 0 <= n <= budget && n <= |t.waiting|
        invariant Model() == t.(running := t.running + t.waiting[..n], waiting := t.waiting[n..])
        invariant n > 0 ==> |running| <= maxNumRunningReqs
      {
        AdmitOne(t.running, t.waiting, n);
        running := running + [waiting[0]];
        waiting := waiting[1..];
        n := n + 1;
      }
      assert n == M.Admitted(t, budget);
    }

    /** A running request finishes or is aborted. */
    method Leave(i: nat)
      modifies this
      ensures Model() == M.Leave(old(Model()), i)
    {
      if i < |running| {
        running := running[..i] + running[i + 1..];
      }
    }
  }

  lemma AdmitOne(running: seq<M.ReqId>, waiting: seq<M.ReqId>, n: nat)
    requires n < |waiting|
    ensures waiting[n..][0] == waiting[n] && waiting[n..][1..] == waiting[n + 1..]
    ensures running + waiting[..n] + [waiting[n]] == running + waiting[..n + 1]
  {
  }

  class EngineCore {
    var scheduler: Scheduler
    var config: M.Config
    const sleepMode: bool

    ghost function Model(): M.Core
      reads this, scheduler
    {
      M.Core(config, scheduler.Model(), sleepMode)
    }

    constructor (cfg: M.Config, sleepMode: bool)
      ensures Model() == M.Core(cfg, M.Boot(cfg), sleepMode) && fresh(scheduler)
    {
      config, this.sleepMode := cfg, sleepMode;
      scheduler := new Scheduler(cfg);
    }

    /** One turn of the set_knobs loop. */
    method SetKnob(c: M.Ceilings, key: Field, value: Value) returns (verdict: M.Verdict)
      modifies this`config, scheduler
      ensures verdict == M.Judge(c, key, value)
      ensures Model() == WriteOne(old(Model()), key, verdict)
    {
      var sched := scheduler;
      if key == LongPrefillTokenThreshold {
        if !IsNumber(value) || IntOf(value) < 0 { return M.Reject(M.NegativeThreshold); }
        config := config.(longPrefill := IntOf(value));
        return M.Accept(Int(IntOf(value)));
      }
      if key == LogLevel {
        var level := LevelOf(value);
        if level.None? { return M.Reject(M.NotALevel); }
        sched.logLevel := level;
        return M.Accept(Str(level.value));
      }
      if key != MaxNumSeqs && key != MaxNumBatchedTokens { return M.Reject(M.UnknownKnob); }
      var ceiling := if key == MaxNumSeqs then c.seqs else c.batched;
      if !IsNumber(value) || !(1 <= IntOf(value) <= ceiling) { return M.Reject(M.OutOfRange(ceiling)); }
      if key == MaxNumSeqs {
        var target := IntOf(value);
        sched.pendingMaxNumSeqs := Some(target);
        sched.maxNumRunningReqs := M.Max(target, |sched.running|);
      } else {
        sched.maxNumScheduledTokens := IntOf(value);
      }
      return M.Accept(Int(IntOf(value)));
    }

    /** trimtab_set_knobs: the loop writes the scheduler one key at a time, and what it computes is the
        simultaneous update of the whole dict, so the order of the keys does not matter. */
    method SetKnobs(knobs: Items<Field, Value>)
      returns (ok: bool, applied: map<Field, Value>, rejected: map<Field, M.Reason>)
      requires DistinctKeys(knobs)
      modifies this`config, scheduler
      ensures Model() == M.SetKnobs(old(Model()), ToMap(knobs))
      ensures applied == M.AppliedBy(M.Recorded(old(Model()).sched), ToMap(knobs))
      ensures rejected == M.RejectedBy(M.Recorded(old(Model()).sched), ToMap(knobs))
      ensures ok == (IsEmpty(rejected))
    {
      var sched := scheduler;
      if sched.ceilings.None? {
        sched.ceilings := Some(M.Ceilings(sched.maxNumRunningReqs, sched.maxNumScheduledTokens));
      }
      var c := sched.ceilings.value;
      applied, rejected := map[], map[];
      for i := 0 to |knobs|
        invariant sched == scheduler && sched.ceilings == Some(c) && c == M.Recorded(old(Model()).sched)
        invariant Model() == M.SetKnobs(old(Model()), ToMap(knobs[..i]))
        invariant applied == M.AppliedBy(c, ToMap(knobs[..i]))
        invariant rejected == M.RejectedBy(c, ToMap(knobs[..i]))
      {
        var key, value := knobs[i].0, knobs[i].1;
        ToMapSnoc(knobs, i);
        KnobStep(old(Model()), ToMap(knobs[..i]), key, value);
        AnswerStep(c, ToMap(knobs[..i]), key, value);
        var verdict := SetKnob(c, key, value);
        match verdict {
          case Reject(reason) => rejected := rejected[key := reason];
          case Accept(w) => applied := applied[key := w];
        }
      }
      assert knobs[..|knobs|] == knobs;
      ok := IsEmpty(rejected);
    }

    /** The target and the enforced cap that trimtab_get_knobs reports. */
    method GetKnobs() returns (maxNumSeqs: int, effective: int)
      ensures maxNumSeqs == M.Reported(Model().sched) && effective == Model().sched.cap
    {
      var pending := scheduler.pendingMaxNumSeqs;
      maxNumSeqs := if pending.Some? then pending.value else scheduler.maxNumRunningReqs;
      effective := scheduler.maxNumRunningReqs;
    }

    /** `_rebuild`: the conversions in order, then the engine's own work, which fails when `fails`. A failure
        leaves what was stored before it. Returns whether it came to the end. */
    method Rebuild(values: map<Field, Value>, stored: nat, fails: bool) returns (done: bool)
      modifies this
      ensures config == M.Store(old(config), values, stored)
      ensures done == (stored >= 3 && M.Converts(values) && !fails)
      ensures if done then fresh(scheduler) && scheduler.Model() == M.Boot(config) else scheduler == old(scheduler)
    {
      if stored == 0 { return false; }
      if GpuMemoryUtilization in values {
        if !IsNumber(values[GpuMemoryUtilization]) { return false; }
        config := config.(gpu := NumOf(values[GpuMemoryUtilization]));
      }
      if stored == 1 { return false; }
      if MaxNumSeqs in values {
        if !IsNumber(values[MaxNumSeqs]) { return false; }
        config := config.(seqs := IntOf(values[MaxNumSeqs]));
      }
      if stored == 2 { return false; }
      if MaxNumBatchedTokens in values {
        if !IsNumber(values[MaxNumBatchedTokens]) { return false; }
        config := config.(batched := IntOf(values[MaxNumBatchedTokens]));
      }
      if fails { return false; }
      scheduler := new Scheduler(config);
      return true;
    }

    /** trimtab_reinit, with `r` saying how the engine's own rebuild went. */
    method Reinit(fields: map<Field, Value>, r: M.Rebuild) returns (out: M.Outcome)
      modifies this, scheduler
      ensures Model() == M.Reinit(old(Model()), fields, r)
      ensures out == M.ReinitOutcome(old(Model()), fields, r)
      ensures out.Rebuilt? || out.Restored? ==> fresh(scheduler)
      ensures out.Refused? || out.Raises? || out.Stranded? ==> scheduler == old(scheduler)
    {
      if !(fields.Keys <= M.WARM) { return M.Refused(M.NotWarm); }
      if !sleepMode { return M.Refused(M.NoSleepMode); }
      if scheduler.running != [] || scheduler.waiting != [] { return M.Refused(M.Busy); }
      var previous := M.Previous(config);
      if r.ReleaseFails? { return M.Raises; }
      var rebuilt := Rebuild(fields, if r.Succeeds? then 3 else r.failAt, !r.Succeeds?);
      out := M.Rebuilt;
      if !rebuilt {
        if r.SecondReleaseFails? { return M.Stranded; }
        var restored := Rebuild(previous, 3, r.FailsTwice?);
        if !restored { return M.Raises; }
        out := M.Restored;
      }
      scheduler.ceilings := Some(M.Ceilings(scheduler.maxNumRunningReqs, scheduler.maxNumScheduledTokens));
    }
  }

  /** Writing one knob of a scheduler whose ceilings are recorded. */
  ghost function WriteOne(core: M.Core, key: Field, verdict: M.Verdict): M.Core
    requires verdict.Accept? ==> if key == LogLevel then verdict.value.Str? else verdict.value.Int?
  {
    var s := core.sched;
    if verdict.Reject? then core
    else
      match key
      case MaxNumSeqs =>
        var n := verdict.value.n;
        core.(sched := s.(pending := Some(n), cap := M.Max(n, |s.running|)))
      case MaxNumBatchedTokens => core.(sched := s.(tokens := verdict.value.n))
      case LogLevel => core.(sched := s.(logLevel := Some(verdict.value.s)))
      case LongPrefillTokenThreshold => core.(cfg := core.cfg.(longPrefill := verdict.value.n))
      case _ => core
  }

  /** One more key in the dict is one more write after the others. */
  lemma KnobStep(core: M.Core, m: M.Knobs, key: Field, v: Value)
    requires key !in m
    ensures M.SetKnobs(core, m[key := v]) == WriteOne(M.SetKnobs(core, m), key, M.Judge(M.Recorded(core.sched), key, v))
  {
  }

  lemma AnswerStep(c: M.Ceilings, m: M.Knobs, key: Field, v: Value)
    requires key !in m
    ensures match M.Judge(c, key, v)
            case Reject(reason) =>
              && M.AppliedBy(c, m[key := v]) == M.AppliedBy(c, m)
              && M.RejectedBy(c, m[key := v]) == M.RejectedBy(c, m)[key := reason]
            case Accept(w) =>
              && M.AppliedBy(c, m[key := v]) == M.AppliedBy(c, m)[key := w]
              && M.RejectedBy(c, m[key := v]) == M.RejectedBy(c, m)
  {
  }

  /** `applied` and `rejected` split the keys of the dict, and the rejected keys might as well not have been
      sent: dropping them changes neither the state nor what is applied. */
  lemma RejectedKeysAreInert(core: M.Core, m: M.Knobs)
    ensures var c := M.Recorded(core.sched); var rest := m - M.RejectedBy(c, m).Keys;
            && M.AppliedBy(c, m).Keys !! M.RejectedBy(c, m).Keys
            && M.AppliedBy(c, m).Keys + M.RejectedBy(c, m).Keys == m.Keys
            && M.SetKnobs(core, m) == M.SetKnobs(core, rest)
            && M.AppliedBy(c, rest) == M.AppliedBy(c, m) && IsEmpty(M.RejectedBy(c, rest))
  {
  }

  /** One call with two dicts is the two calls, in either order. */
  lemma SetKnobsSplits(core: M.Core, m: M.Knobs, m': M.Knobs)
    requires m.Keys !! m'.Keys
    ensures M.SetKnobs(core, m + m') == M.SetKnobs(M.SetKnobs(core, m), m')
    ensures M.SetKnobs(core, m + m') == M.SetKnobs(M.SetKnobs(core, m'), m)
  {
  }
}
