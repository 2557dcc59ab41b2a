/** The patched SGLang scheduler updating its fields in place. */
module SglangEngine {
  import opened Wrappers
  import opened PyValues
  import opened MemoryTags
  import M = SglangModel

  class SaverAdapter {
    const on: bool
    var saver: Saver
    var classGen: nat

    constructor (on: bool, saver: Saver)
      ensures this.on == on && this.saver == saver && classGen == 0
    {
      this.on, this.saver, classGen := on, saver, 0;
    }
  }

  class ModelRunner {
    var pools: Option<M.PoolId>
    var nextPool: M.PoolId
    var alloc: int
    var config: M.Knobs
    var memFraction: real

    constructor (alloc: int, config: M.Knobs, memFraction: real)
      ensures M.Runner(pools, nextPool, this.alloc, this.config, this.memFraction)
              == M.Runner(Some(0), 1, alloc, config, memFraction)
    {
      pools, nextPool, this.alloc, this.config, this.memFraction := Some(0), 1, alloc, config, memFraction;
    }
  }

  class Scheduler {
    const adapter: SaverAdapter
    const runner: ModelRunner
    var gen: nat
    var retained: seq<Option<M.PoolId>>
    var maxRunning: int
    var ceilings: Option<int>
    var maxTotal: int
    var maxPrefill: int
    var maxQueued: int
    var chunked: int
    var policy: Option<(Value, string)>
    var conservativeness: Option<real>
    var logLevel: Option<string>
    var tracker: M.Tracker

    ghost function Model(): M.Scheduler
      reads this, adapter, runner
    {
      M.Scheduler(M.Adapter(adapter.on, adapter.saver, adapter.classGen),
                  M.Runner(runner.pools, runner.nextPool, runner.alloc, runner.config, runner.memFraction),
                  gen, retained, maxRunning, ceilings, maxTotal, maxPrefill, maxQueued, chunked,
                  policy, conservativeness, logLevel, tracker)
    }

    /** A booted scheduler: pools built under the plain tags, nothing paused, the cap at the allocation. */
    constructor (on: bool, saver: Saver, config: M.Knobs, memFraction: real, info: M.WorkerInfo, chunked: int,
        tracker: M.Tracker)
      ensures Model() == M.Scheduler(
                M.Adapter(on, saver, 0), M.Runner(Some(0), 1, info.running, config, memFraction), 0, [], info.running,
                None, info.total, info.prefill, info.queued, chunked, None, None, None, tracker)
    {
      adapter := new SaverAdapter(on, saver);
      runner := new ModelRunner(info.running, config, memFraction);
      gen, retained, maxRunning, ceilings := 0, [], info.running, None;
      maxTotal, maxPrefill, maxQueued, this.chunked := info.total, info.prefill, info.queued, chunked;
      policy, conservativeness, logLevel, this.tracker := None, None, None, tracker;
    }

    method SetMem(values: M.Knobs)
      modifies runner
      ensures Model() == M.WithMem(old(Model()), values)
    {
      if MemFractionStatic in values && IsNumber(values[MemFractionStatic]) {
        runner.memFraction := NumOf(values[MemFractionStatic]);
      }
    }

    /** `_rebuild(values)` that fails: when its override is refused nothing has been stored. */
    method FailedRebuild(values: M.Knobs, f: M.Failure)
      modifies runner, adapter
      ensures Model() == M.Try(old(Model()), values, f)
    {
      match f {
        case AtOverride =>
        case AfterOverride(tags) => Rebuild(values, tags);
      }
    }

    /** `_rebuild(values)` once its override is stored, up to where it fails or comes to its end. */
    method Rebuild(values: M.Knobs, tags: seq<string>)
      modifies runner, adapter
      ensures Model() == M.Override(old(Model()), values, tags)
    {
      runner.config := runner.config + values;
      SetMem(values);
      adapter.saver := Allocate(adapter.saver, tags, adapter.classGen);
    }

    /** The scheduler's sizes, cap and ceiling from what the workers report. */
    method Adopt(info: M.WorkerInfo)
      modifies this, runner
      ensures Model() == M.Adopt(old(Model()), info)
    {
      runner.pools, runner.nextPool, runner.alloc := Some(runner.nextPool), runner.nextPool + 1, info.running;
      maxTotal, maxPrefill, maxRunning, maxQueued := info.total, info.prefill, info.running, info.queued;
      tracker := tracker.(current := tracker.init);
      ceilings := Some(maxRunning);
    }

    /** The old pools dropped, paused under the tags of their generation and kept; both counters moved on. */
    method TearDown()
      modifies this, runner, adapter
      ensures Model() == M.TearDown(old(Model()))
    {
      var kept := runner.pools;
      runner.pools := None;
      adapter.saver := Pause(adapter.saver, PauseTag(KV, gen));
      adapter.saver := Pause(adapter.saver, PauseTag(GRAPH, gen));
      gen := gen + 1;
      adapter.classGen := gen;
      retained := retained + [kept];
    }

    /** trimtab_reinit, with `r` saying how the engine's rebuilds go. */
    method Reinit(fields: M.Knobs, busy: bool, r: M.Rebuild) returns (out: M.Outcome)
      modifies this, runner, adapter
      ensures Model() == M.Reinit(old(Model()), fields, busy, r)
      ensures out == M.ReinitOutcome(old(Model()), fields, busy, r)
    {
      if !(fields.Keys <= M.WARM) { return M.Refused(M.NotWarm); }
      if !adapter.on { return M.Refused(M.NoSaver); }
      if busy { return M.Refused(M.Busy); }
      var previous := M.PreviousOf(runner.memFraction, maxTotal, maxRunning, fields);
      if !M.MemConverts(fields) {
        runner.pools := None;
        return M.Raises;
      }
      TearDown();
      SetMem(fields);
      out := RebuildOrRestore(fields, previous, r);
    }

    /** The rebuild, and when it fails, the one with the previous sizing. */
    method RebuildOrRestore(fields: M.Knobs, previous: M.Knobs, r: M.Rebuild) returns (out: M.Outcome)
      modifies this, runner, adapter
      ensures Model() == M.Rebuilt(old(Model()), fields, previous, r)
      ensures out == if r.Succeeds? then M.Built else if r.FailsTwice? then M.Raises else M.Restored
    {
      match r {
        case Succeeds(tags, info) =>
          Rebuild(fields, tags);
          Adopt(info);
          return M.Built;
        case FailsThenRestores(first, tags, info) =>
          FailedRebuild(fields, first);
          Rebuild(previous, tags);
          Adopt(info);
          return M.Restored;
        case FailsTwice(first, second) =>
          FailedRebuild(fields, first);
          FailedRebuild(previous, second);
          return M.Raises;
      }
    }

    /** _trimtab_apply_hot_knobs: the "reinit." keys first, then each hot knob it knows, popped and written or
        refused on its own. What is left of the arguments falls through to the stock allowlist. */
    method ApplyHotKnobs(reinit: M.Knobs, args: M.Knobs, busy: bool, r: M.Rebuild, check: M.PolicyCheck,
                         env: M.RatioEnv)
      returns (res: Option<(bool, M.Knobs)>)
      requires env.decaySteps > 0.0
      modifies this, runner, adapter
      ensures Model() == M.CallState(old(Model()), reinit, args, busy, r, check, env)
      ensures res == M.CallAnswer(old(Model()), reinit, args, busy, r, check)
    {
      if ceilings.None? {
        ceilings := Some(maxRunning);
      }
      assert Model() == M.Recorded(old(Model()));
      var out := M.Built;
      if !IsEmpty(reinit) {
        out := Reinit(reinit, busy, r);
      }
      if out.Raises? { return None; }
      assert Model() == M.AfterReinit(old(Model()), reinit, busy, r);
      M.CeilingsStay(M.Recorded(old(Model())), reinit, busy, r);
      var taken := ApplyKnobs(args, check, env);
      return Some((out.Built? && taken, args - M.HOT));
    }

    /** The hot knobs in the order the patch looks for them. */
    method ApplyKnobs(args: M.Knobs, check: M.PolicyCheck, env: M.RatioEnv) returns (ok: bool)
      requires env.decaySteps > 0.0 && ceilings.Some?
      modifies this
      ensures Model() == M.ApplyHot(old(Model()), check, env, args)
      ensures ok == M.AllTaken(old(Model()), check, args)
    {
      ghost var s := Model();
      ok := true;
      for i := 0 to |M.ORDER|
        invariant ceilings.Some? && Model() == M.Turns(s, check, env, args, i)
        invariant ok == forall j | 0 <= j < i && M.ORDER[j] in args :: M.Accepts(s, check, M.ORDER[j], args[M.ORDER[j]])
      {
        M.JudgedAlike(s, check, env, args, i);
        if M.ORDER[i] in args {
          var taken := ApplyKnob(M.ORDER[i], args[M.ORDER[i]], check, env);
          ok := ok && taken;
        }
      }
      M.TurnsAreSimultaneous(s, check, env, args);
      M.OrderIsHot();
    }

    /** One hot knob: judged, and written when it is accepted. */
    method ApplyKnob(k: Field, v: Value, check: M.PolicyCheck, env: M.RatioEnv) returns (ok: bool)
      requires env.decaySteps > 0.0 && ceilings.Some? && k in M.ORDER
      modifies this
      ensures ok == M.Accepts(old(Model()), check, k, v)
      ensures Model() == if ok then M.Put(old(Model()), check, env, k, v) else old(Model())
    {
      if k == SchedulePolicy {
        ok := ApplyPolicy(v, check, env);
      } else if k == ScheduleConservativeness {
        ok := ApplyConservativeness(v, check, env);
      } else if k == LogLevel {
        ok := ApplyLevel(v, check, env);
      } else if k == MaxRunningRequests || k == MaxPrefillTokens {
        ok := ApplyCapped(k, v, check, env);
      } else {
        ok := ApplyCount(k, v, check, env);
      }
    }

    /** The two knobs under a ceiling. */
    method ApplyCapped(k: Field, v: Value, check: M.PolicyCheck, env: M.RatioEnv) returns (ok: bool)
      requires env.decaySteps > 0.0 && ceilings.Some? && (k == MaxRunningRequests || k == MaxPrefillTokens)
      modifies this
      ensures ok == M.Accepts(old(Model()), check, k, v)
      ensures Model() == if ok then M.Put(old(Model()), check, env, k, v) else old(Model())
    {
      var hi := if k == MaxRunningRequests then ceilings.value else maxTotal;
      if !IsNumber(v) || !(1 <= IntOf(v) <= hi) { return false; }
      if k == MaxRunningRequests {
        maxRunning := IntOf(v);
      } else {
        maxPrefill := IntOf(v);
      }
      return true;
    }

    /** The two knobs with a floor alone. */
    method ApplyCount(k: Field, v: Value, check: M.PolicyCheck, env: M.RatioEnv) returns (ok: bool)
      requires env.decaySteps > 0.0 && (k == MaxQueuedRequests || k == ChunkedPrefillSize)
      modifies this
      ensures ok == M.Accepts(old(Model()), check, k, v)
      ensures Model() == if ok then M.Put(old(Model()), check, env, k, v) else old(Model())
    {
      if !IsNumber(v) || IntOf(v) < (if k == MaxQueuedRequests then 0 else 1) { return false; }
      if k == MaxQueuedRequests {
        maxQueued := IntOf(v);
      } else {
        chunked := IntOf(v);
      }
      return true;
    }

    method ApplyPolicy(v: Value, check: M.PolicyCheck, env: M.RatioEnv) returns (ok: bool)
      requires env.decaySteps > 0.0
      modifies this
      ensures ok == M.Accepts(old(Model()), check, SchedulePolicy, v)
      ensures Model() == if ok then M.Put(old(Model()), check, env, SchedulePolicy, v) else old(Model())
    {
      var effective := check(v);
      if effective.None? { return false; }
      policy := Some((v, effective.value));
      return true;
    }

    method ApplyConservativeness(v: Value, check: M.PolicyCheck, env: M.RatioEnv) returns (ok: bool)
      requires env.decaySteps > 0.0
      modifies this
      ensures ok == M.Accepts(old(Model()), check, ScheduleConservativeness, v)
      ensures Model() == if ok then M.Put(old(Model()), check, env, ScheduleConservativeness, v) else old(Model())
    {
      if !IsNumber(v) || NumOf(v) <= 0.0 { return false; }
      tracker := M.Watermarks(env, NumOf(v));
      conservativeness := Some(NumOf(v));
      return true;
    }

    method ApplyLevel(v: Value, check: M.PolicyCheck, env: M.RatioEnv) returns (ok: bool)
      requires env.decaySteps > 0.0
      modifies this
      ensures ok == M.Accepts(old(Model()), check, LogLevel, v)
      ensures Model() == if ok then M.Put(old(Model()), check, env, LogLevel, v) else old(Model())
    {
      var level := LevelOf(v);
      if level.None? { return false; }
      logLevel := level;
      return true;
    }
  }
}
