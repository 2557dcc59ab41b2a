/** The supervisor object: tick() as the daemon makes it, and the adapters' bounded drain-and-retry. */
module SupervisorEngine {
  import opened Wrappers
  import opened PyValues
  import opened Manifest
  import opened Targets
  import M = SupervisorModel

  class Supervisor {
    const env: M.Env
    var proc: M.Proc
    var coldApplied: Changes
    var applied: Option<VersionId>
    ghost var launches: nat
    ghost var dirty: bool

    ghost function Model(): M.Sup
      reads this
    {
      M.Sup(proc, coldApplied, applied, launches, dirty)
    }

    constructor (env: M.Env)
      ensures this.env == env && Model() == M.Sup(M.Dead, map[], None, 0, false)
    {
      this.env, proc, coldApplied, applied := env, M.Dead, map[], None;
      launches, dirty := 0, false;
    }

    /** `split`: every field goes to exactly one side, by the class the manifest gives it. */
    method Split(fields: Items<Field, Value>) returns (hot: Changes, cold: Changes)
      requires DistinctKeys(fields)
      ensures hot == M.HotPart(env, ToMap(fields)) && cold == M.ColdPart(env, ToMap(fields))
    {
      hot, cold := map[], map[];
      for i := 0 to |fields|
        invariant hot == M.HotPart(env, ToMap(fields[..i])) && cold == M.ColdPart(env, ToMap(fields[..i]))
      {
        ToMapSnoc(fields, i);
        SplitSnoc(env, ToMap(fields[..i]), fields[i].0, fields[i].1);
        if M.IsCold(env, fields[i].0) {
          cold := cold[fields[i].0 := fields[i].1];
        } else {
          hot := hot[fields[i].0 := fields[i].1];
        }
      }
      assert fields[..|fields|] == fields;
    }

    /** The process may die by itself at any time. */
    method Die(crash: bool)
      modifies this
      ensures Model() == M.Crash(old(Model()), crash)
    {
      if crash { proc := M.Dead; }
    }

    /** launch(): refuses a cold field that has no flag, waits for health, remembers what it launched with. */
    method Launch(cold: Changes, l: M.Launching) returns (ok: bool)
      modifies this
      ensures Model() == M.Launch(env, old(Model()), cold, l) && ok == M.LaunchOk(env, cold, l)
    {
      launches, dirty := launches + 1, true;
      proc := M.Dead;
      if !(cold.Keys <= env.flags) { return false; }
      if l.BootFails? { return false; }
      proc := M.Live(M.EngineNames(cold), l.hot);
      coldApplied := cold;
      return true;
    }

    /** The adapter's reinit_warm with the changed fields, under the engine's names. */
    method ReinitWarm(cold: Changes, engineNames: Changes, w: M.Warming) returns (raised: bool)
      requires proc.Live? && engineNames == M.EngineNames(M.Changed(Model(), cold))
      modifies this
      ensures Model() == M.Reinit(old(Model()), cold, w) && raised == w.WarmRaises?
    {
      dirty := true;
      match w {
        case WarmOk(c, hot) =>
          proc := M.Live(c, hot);
          coldApplied := cold;
        case WarmRefused(c, hot) => proc := M.Live(c, hot);
        case WarmRaises(left) => proc := left;
      }
      raised := w.WarmRaises?;
    }

    /** The warm attempt of tick(), when the difference is one the running engine can take. */
    method TryWarm(cold: Changes, script: M.Script) returns (raised: bool)
      modifies this
      ensures M.Stage(Model(), raised) == M.Warmed(env, old(Model()), cold, script)
    {
      var changed := map k | k in cold && M.Differs(coldApplied, k, cold[k]) :: cold[k];
      var removed := coldApplied.Keys - cold.Keys;
      var engineNames := M.EngineNames(changed);
      Die(script.crash2);
      assert changed == M.Changed(Model(), cold);
      raised := false;
      if proc.Live? && !IsEmpty(changed) && removed == {} && engineNames.Keys <= env.warm {
        raised := ReinitWarm(cold, engineNames, script.warm);
      }
    }

    /** The relaunch of tick(), when the cold settings still differ or nothing is running. */
    method RelaunchIfNeeded(cold: Changes, script: M.Script) returns (raised: bool)
      modifies this
      ensures M.Stage(Model(), raised) == M.Relaunched(env, old(Model()), cold, script)
    {
      Die(script.crash3);
      raised := false;
      if !MapEq(cold, coldApplied) || proc.Dead? {
        var ok := Launch(cold, script.launch);
        raised := !ok;
      }
    }

    /** The part of tick() that converges the cold settings. */
    method ConvergeCold(cold: Changes, script: M.Script) returns (raised: bool)
      modifies this
      ensures M.Stage(Model(), raised) == M.ColdStage(env, old(Model()), cold, script)
    {
      Die(script.crash1);
      raised := false;
      if proc.Dead? || !MapEq(cold, coldApplied) {
        raised := TryWarm(cold, script);
        if !raised {
          raised := RelaunchIfNeeded(cold, script);
        }
      }
    }

    /** The part of tick() that pushes the hot fields; None is a raise. */
    method PushHot(hot: Changes, items: Items<Field, Value>, p: M.Pushing) returns (status: Option<M.Status>)
      requires DistinctKeys(items) && ToMap(items) == hot
      modifies this
      ensures (Model(), status) == M.HotStage(env, old(Model()), hot, p)
    {
      if IsEmpty(hot) { return Some(M.Healthy); }
      var accepted, rejected := Validate(env.manifest, items);
      if !IsEmpty(rejected) { return Some(M.Failed); }
      dirty := true;
      if proc.Dead? || p.PushRaises? { return None; }
      proc := proc.(hot := p.hot);
      return Some(if p.PushOk? then M.Healthy else M.Failed);
    }

    method Tick(desired: Option<Target>, fields: Items<Field, Value>,
                script: M.Script) returns (status: Option<M.Status>)
      requires DistinctKeys(fields) && (desired.Some? ==> ToMap(fields) == desired.value.fields)
      modifies this
      ensures (Model(), status) == M.Tick(env, old(Model()), desired, script)
    {
      Die(script.crash0);
      if desired.None? {
        if proc.Dead? {
          var ok := Launch(coldApplied, script.launch);
          return if ok then Some(M.Healthy) else None;
        }
        return Some(M.Healthy);
      }
      if applied == Some(desired.value.id) && proc.Live? { return Some(M.Healthy); }
      status := Converge(desired.value, fields, script);
    }

    /** The rest of tick(): cold settings first, then the hot ones, then the version is remembered. */
    method Converge(desired: Target, fields: Items<Field, Value>, script: M.Script) returns (status: Option<M.Status>)
      requires DistinctKeys(fields) && ToMap(fields) == desired.fields
      modifies this
      ensures (Model(), status) == M.Converge(env, old(Model()), desired, script)
    {
      var hot, cold := Split(fields);
      var raised := ConvergeCold(cold, script);
      if raised { return None; }
      var items := HotItems(env, fields, hot);
      status := PushHot(hot, items, script.push);
      if status == Some(M.Healthy) {
        applied, dirty := Some(desired.id), false;
      }
    }
  }

  /** The hot dict in the order its fields were met. */
  method HotItems(env: M.Env, fields: Items<Field, Value>, hot: Changes) returns (items: Items<Field, Value>)
    requires DistinctKeys(fields) && hot == M.HotPart(env, ToMap(fields))
    ensures DistinctKeys(items) && ToMap(items) == hot
  {
    KeptItems(fields, hot.Keys);
    assert Restrict(ToMap(fields), hot.Keys) == hot;
    items := KeepItems(fields, hot.Keys);
  }

  lemma SplitSnoc(env: M.Env, c: Changes, k: Field, v: Value)
    ensures M.ColdPart(env, c[k := v]) == if M.IsCold(env, k) then M.ColdPart(env, c)[k := v] else M.ColdPart(env, c)
    ensures M.HotPart(env, c[k := v]) == if M.IsCold(env, k) then M.HotPart(env, c) else M.HotPart(env, c)[k := v]
  {
  }

  // ---------------------------------------------------------------- adapters

  /** The engine's answer to one reinit request. */
  datatype Answer = Done | BusyNow | RefusedFor(error: string)

  const ATTEMPTS := 20

  /** `reinit_warm`'s loop: asks again while the engine is busy, at most twenty times. The answer reported is the
      first one that is not busy, or busy when all twenty were. */
  method AskUntilIdle(answers: seq<Answer>) returns (last: Answer, asked: nat)
    requires |answers| == ATTEMPTS
    ensures 1 <= asked <= ATTEMPTS && last == answers[asked - 1]
    ensures forall i | 0 <= i < asked - 1 :: answers[i] == BusyNow
    ensures last == BusyNow <==> forall a | a in answers :: a == BusyNow
  {
    last, asked := answers[0], 1;
    while asked < ATTEMPTS && last == BusyNow
      invariant 1 <= asked <= ATTEMPTS && last == answers[asked - 1]
      invariant forall i | 0 <= i < asked - 1 :: answers[i] == BusyNow
    {
      last, asked := answers[asked], asked + 1;
    }
    assert last in answers;
  }

  /** One entry of SGLang's answer, per rank: a bool, or a dict whose "updated" may be missing. */
  datatype Entry = Bare(b: bool) | Updated(u: Option<bool>)

  /** `_all_updated`: some rank answered, and every rank took the update. */
  method AllUpdated(body: seq<Entry>) returns (ok: bool)
    ensures ok <==> body != [] && forall e | e in body :: e == Bare(true) || e == Updated(Some(true))
  {
    if body == [] { return false; }
    for i := 0 to |body|
      invariant forall j | 0 <= j < i :: body[j] == Bare(true) || body[j] == Updated(Some(true))
    {
      var yes := match body[i] case Bare(b) => b case Updated(u) => u == Some(true);
      if !yes { assert body[i] in body; return false; }
    }
    return true;
  }
}
