/** trimtabd: one engine process converged on a target by hot updates, warm reinits and relaunches. What the engine
    and the machine do during a tick is a script. */
module SupervisorModel {
  import opened Wrappers
  import opened PyValues
  import opened Manifest
  import opened Targets

  /** The engine process: gone, or running with these cold and warm settings, in the engine's names, and these hot
      knobs. */
  datatype Proc = Dead | Live(cold: Changes, hot: Changes)

  /** The supervisor's fields, the process it owns, how many launches it has made, and whether the engine has been
      touched since `applied` was last set. */
  datatype Sup = Sup(proc: Proc, coldApplied: Changes, applied: Option<VersionId>, launches: nat, dirty: bool)

  /** The manifest, the launcher's flag table and the adapter's warm fields. */
  datatype Env = Env(manifest: Manifest, flags: set<Field>, warm: set<Field>)

  datatype Launching = Boots(hot: Changes) | BootFails

  /** A warm reinit request can be answered either way, or raise with the engine in any state, as on a timeout. The
      settings the engine then has are part of the answer: an ok need not mean that it took them as asked, and a refused
      request may have been tried and restored. */
  datatype Warming =
    | WarmOk(cold: Changes, hot: Changes)
    | WarmRefused(cold: Changes, hot: Changes)
    | WarmRaises(left: Proc)

  datatype Pushing = PushOk(hot: Changes) | PushRejected(hot: Changes) | PushRaises

  /** Where the process dies by itself, before each of the four `alive()` checks, and how each call goes. */
  datatype Script = Script(crash0: bool, crash1: bool, crash2: bool, crash3: bool, warm: Warming, launch: Launching,
                           push: Pushing)

  datatype Status = Healthy | Failed

  // ------------------------------------------------------------- cold and hot

  predicate IsCold(env: Env, k: Field) {
    k in env.manifest && (env.manifest[k].klass.ColdK? || env.manifest[k].klass.WarmK?)
  }

  function ColdPart(env: Env, fields: Changes): Changes {
    map k | k in fields && IsCold(env, k) :: fields[k]
  }

  function HotPart(env: Env, fields: Changes): Changes {
    map k | k in fields && !IsCold(env, k) :: fields[k]
  }

  /** The engines call the token pool size by another name than the manifest. */
  function EngineName(k: Field): Field {
    if k == MaxTotalNumTokens then MaxTotalTokens else k
  }

  function PlaneName(k: Field): Field {
    if k == MaxTotalTokens then MaxTotalNumTokens else k
  }

  function EngineNames(c: Changes): Changes {
    map n | n in (set k | k in c :: EngineName(k)) && PlaneName(n) in c :: c[PlaneName(n)]
  }

  /** `d.get(k)`. */
  function Get(d: Changes, k: Field): Value {
    if k in d then d[k] else Null
  }

  /** `d.get(k) != v`. */
  predicate Differs(d: Changes, k: Field, v: Value) {
    !Eq(Get(d, k), v)
  }

  function Changed(s: Sup, cold: Changes): Changes {
    map k | k in cold && Differs(s.coldApplied, k, cold[k]) :: cold[k]
  }

  function Removed(s: Sup, cold: Changes): set<Field> {
    s.coldApplied.Keys - cold.Keys
  }

  /** The cold part differs in a way the running engine can take. */
  predicate WarmPath(env: Env, s: Sup, cold: Changes) {
    s.proc.Live? && !IsEmpty(Changed(s, cold)) && Removed(s, cold) == {}
        && EngineNames(Changed(s, cold)).Keys <= env.warm
  }

  // ------------------------------------------------------------------- steps

  function Crash(s: Sup, crash: bool): Sup {
    if crash then s.(proc := Dead) else s
  }

  predicate LaunchOk(env: Env, cold: Changes, l: Launching) {
    cold.Keys <= env.flags && l.Boots?
  }

  /** stop() and launch(): a cold field without a flag, or a failed boot, raises with no process left. */
  function Launch(env: Env, s: Sup, cold: Changes, l: Launching): Sup {
    var t := s.(launches := s.launches + 1, dirty := true);
    if LaunchOk(env, cold, l) then t.(proc := Live(EngineNames(cold), l.hot), coldApplied := cold) else t.(proc := Dead)
  }

  function Reinit(s: Sup, cold: Changes, w: Warming): Sup
    requires s.proc.Live?
  {
    var t := s.(dirty := true);
    match w
    case WarmOk(c, hot) => t.(proc := Live(c, hot), coldApplied := cold)
    case WarmRefused(c, hot) => t.(proc := Live(c, hot))
    case WarmRaises(left) => t.(proc := left)
  }

  /** A tick in three stages, each of which can raise: the state, and whether it raised. */
  datatype Stage = Stage(s: Sup, raised: bool)

  function Warmed(env: Env, s: Sup, cold: Changes, script: Script): Stage {
    var t := Crash(s, script.crash2);
    if WarmPath(env, t, cold) then Stage(Reinit(t, cold, script.warm), script.warm.WarmRaises?) else Stage(t, false)
  }

  function Relaunched(env: Env, s: Sup, cold: Changes, script: Script): Stage {
    var t := Crash(s, script.crash3);
    if !MapEq(cold, t.coldApplied) || t.proc.Dead?
    then Stage(Launch(env, t, cold, script.launch), !LaunchOk(env, cold, script.launch))
    else Stage(t, false)
  }

  function ColdStage(env: Env, s: Sup, cold: Changes, script: Script): Stage {
    var t := Crash(s, script.crash1);
    if t.proc.Dead? || !MapEq(cold, t.coldApplied) then
      var w := Warmed(env, t, cold, script);
      if w.raised then w else Relaunched(env, w.s, cold, script)
    else Stage(t, false)
  }

  /** The hot part: refused by the manifest, or pushed with one of three outcomes. None is a raise. */
  function HotStage(env: Env, s: Sup, hot: Changes, p: Pushing): (Sup, Option<Status>) {
    if IsEmpty(hot) then (s, Some(Healthy))
    else if !IsEmpty(Rejected(env.manifest, hot)) then (s, Some(Failed))
    else if s.proc.Dead? || p.PushRaises? then (s.(dirty := true), None)
    else (s.(proc := s.proc.(hot := p.hot), dirty := true), Some(if p.PushOk? then Healthy else Failed))
  }

  predicate NoOp(s: Sup, t: Option<Target>, script: Script) {
    t.Some? && s.applied == Some(t.value.id) && Crash(s, script.crash0).proc.Live?
  }

  /** The tick past the no-op branch. */
  function Converge(env: Env, s: Sup, t: Target, script: Script): (Sup, Option<Status>) {
    var c := ColdStage(env, s, ColdPart(env, t.fields), script);
    if c.raised then (c.s, None)
    else
      var (h, status) := HotStage(env, c.s, HotPart(env, t.fields), script.push);
      if status == Some(Healthy) then (h.(applied := Some(t.id), dirty := false), status) else (h, status)
  }

  /** One tick; the status is None when it raised. */
  function Tick(env: Env, s: Sup, t: Option<Target>, script: Script): (Sup, Option<Status>) {
    var s1 := Crash(s, script.crash0);
    if t.None? then
      if s1.proc.Live? then (s1, Some(Healthy))
      else (Launch(env, s1, s1.coldApplied, script.launch), if LaunchOk(env, s1.coldApplied, script.launch)
          then Some(Healthy) else None)
    else if NoOp(s, t, script) then (s1, Some(Healthy))
    else Converge(env, s1, t.value, script)
  }
}
