/** Convergence of the supervisor over crashes, refused reinits, failed launches and rejected updates. */
module SupervisorSafety {
  import opened Wrappers
  import opened PyValues
  import opened Manifest
  import opened Targets
  import opened SupervisorModel

  /** The engine holds the value asked for; a log level is held in upper case. */
  ghost predicate Same(k: Field, held: Value, asked: Value) {
    Eq(held, asked) || (k == LogLevel && asked.Str? && held == Str(Upper(asked.s)))
  }

  ghost predicate Holds(hot: Changes, asked: Changes) {
    forall k | k in asked :: k in hot && Same(k, hot[k], asked[k])
  }

  /** The same settings, where an absent one is None. */
  ghost predicate SameSettings(a: Changes, b: Changes) {
    forall k :: Eq(Get(a, k), Get(b, k))
  }

  /** The process agrees with a version on every field it names. */
  ghost predicate Agrees(env: Env, proc: Proc, fields: Changes) {
    proc.Live? &&
    (forall k | k in ColdPart(env, fields) :: Eq(Get(proc.cold, EngineName(k)), fields[k])) &&
    Holds(proc.hot, HotPart(env, fields))
  }

  /** True of both shipped manifests: the engine's own name of the token pool is not a cold field beside the
      plane's. */
  ghost predicate NoClash(env: Env) {
    !IsCold(env, MaxTotalTokens)
  }

  /** An ok from the adapter on a hot part that the manifest let through means the engine holds it; EngineHonesty shows
      that this is what the ok of every engine means. */
  ghost predicate HonestPush(env: Env, t: Option<Target>, script: Script) {
    t.Some? && script.push.PushOk? && IsEmpty(Rejected(env.manifest, HotPart(env, t.value.fields))) ==>
      Holds(script.push.hot, HotPart(env, t.value.fields))
  }

  /** An ok to a warm reinit means the engine now runs with what it had, overlaid by what it was sent. */
  ghost predicate HonestWarm(env: Env, s: Sup, cold: Changes, script: Script) {
    WarmPath(env, s, cold) && script.warm.WarmOk? ==>
      SameSettings(script.warm.cold, s.proc.cold + EngineNames(Changed(s, cold)))
  }

  /** Both oks of a tick mean what they should. EngineHonesty shows which engines give such oks. */
  ghost predicate HonestTick(env: Env, s: Sup, t: Option<Target>, script: Script) {
    HonestPush(env, t, script) && (t.Some? ==> HonestWarm(env, s, ColdPart(env, t.value.fields), script))
  }

  /** A live process runs with the cold settings the supervisor believes in; and while the engine has not been
      touched since the last success, it agrees with the version the supervisor names. */
  ghost predicate Inv(env: Env, vs: Versions, s: Sup) {
    && MaxTotalTokens !in s.coldApplied
    && (s.proc.Live? ==> SameSettings(s.proc.cold, EngineNames(s.coldApplied)))
    && (s.applied.Some? ==> s.applied.value in vs)
    && (s.proc.Live? && s.applied.Some? && !s.dirty ==> Agrees(env, s.proc, vs[s.applied.value]))
  }

  // ---------------------------------------------------------------- cold maps

  lemma GetNames(c: Changes, n: Field)
    requires MaxTotalTokens !in c
    ensures Get(EngineNames(c), n) == if n == MaxTotalNumTokens then Null else Get(c, PlaneName(n))
    ensures n in EngineNames(c) <==> n != MaxTotalNumTokens && PlaneName(n) in c
  {
  }

  /** The engine is sent the plane's token count under its own name, and every other setting under the same. */
  lemma NamesAreTheEngines(c: Changes)
    requires MaxTotalTokens !in c
    ensures MaxTotalNumTokens !in EngineNames(c)
    ensures MaxTotalTokens in EngineNames(c) <==> MaxTotalNumTokens in c
    ensures MaxTotalNumTokens in c ==> EngineNames(c)[MaxTotalTokens] == c[MaxTotalNumTokens]
    ensures forall k | k != MaxTotalTokens && k != MaxTotalNumTokens ::
              (k in EngineNames(c) <==> k in c) && (k in c ==> EngineNames(c)[k] == c[k])
  {
    GetNames(c, MaxTotalTokens);
    GetNames(c, MaxTotalNumTokens);
  }

  /** On the warm path the engine is sent only what changed, under its own names, and that turns the settings it was
      launched with into exactly the new ones. */
  lemma ChangedIsEnough(s: Sup, cold: Changes, engine: Changes)
    requires MaxTotalTokens !in cold && MaxTotalTokens !in s.coldApplied && Removed(s, cold) == {}
    requires SameSettings(engine, EngineNames(s.coldApplied))
    ensures SameSettings(engine + EngineNames(Changed(s, cold)), EngineNames(cold))
  {
    var changed := Changed(s, cold);
    var names := EngineNames(changed);
    forall n ensures Eq(Get(engine + names, n), Get(EngineNames(cold), n)) {
      GetNames(cold, n);
      GetNames(changed, n);
      GetNames(s.coldApplied, n);
      assert Get(engine + names, n) == if n in names then names[n] else Get(engine, n);
      assert Eq(Get(engine, n), Get(EngineNames(s.coldApplied), n));
      var k := PlaneName(n);
      assert k in s.coldApplied && k !in cold ==> k in Removed(s, cold);
    }
  }

  // -------------------------------------------------------------- cold stage

  /** What the supervisor believes of the live process is true. */
  ghost predicate Believed(s: Sup) {
    MaxTotalTokens !in s.coldApplied && (s.proc.Live? ==> SameSettings(s.proc.cold, EngineNames(s.coldApplied)))
  }

  /** Settled means that nothing more need be done for this cold part; then what is believed is true. */
  ghost predicate TrueWhenSettled(s: Sup, cold: Changes) {
    && MaxTotalTokens !in s.coldApplied
    && (s.proc.Live? && MapEq(cold, s.coldApplied) ==> Believed(s))
  }

  lemma WarmedBelieved(env: Env, s: Sup, cold: Changes, script: Script)
    requires Believed(s) && MaxTotalTokens !in cold && HonestWarm(env, s, cold, script)
    ensures var w := Warmed(env, s, cold, script);
            && TrueWhenSettled(w.s, cold) && w.s.applied == s.applied
            && (!w.s.dirty ==> w.s.proc == s.proc || w.s.proc.Dead?)
  {
    var t := Crash(s, script.crash2);
    if WarmPath(env, t, cold) {
      ReinitBelieved(env, t, cold, script);
    }
  }

  lemma ReinitBelieved(env: Env, s: Sup, cold: Changes, script: Script)
    requires Believed(s) && MaxTotalTokens !in cold && HonestWarm(env, s, cold, script) && WarmPath(env, s, cold)
    ensures TrueWhenSettled(Reinit(s, cold, script.warm), cold)
  {
    WarmPathDiffers(env, s, cold);
    if script.warm.WarmOk? {
      ChangedIsEnough(s, cold, s.proc.cold);
    }
  }

  lemma RelaunchedBelieved(env: Env, s: Sup, cold: Changes, script: Script)
    requires TrueWhenSettled(s, cold) && MaxTotalTokens !in cold
    ensures var r := Relaunched(env, s, cold, script);
            && MaxTotalTokens !in r.s.coldApplied && r.s.applied == s.applied
            && (!r.raised ==> Believed(r.s) && r.s.proc.Live? && MapEq(cold, r.s.coldApplied))
            && (!r.s.dirty ==> r.s.proc == s.proc || r.s.proc.Dead?)
  {
    var t := Crash(s, script.crash3);
    if !MapEq(cold, t.coldApplied) || t.proc.Dead? {
      LaunchAny(env, t, cold, script.launch);
    }
  }

  /** The cold stage, when it does not raise: what the supervisor believes is true, the process is live and was given
      this cold part, and an engine not marked as touched is the one there was. */
  lemma ColdStageBelieved(env: Env, s: Sup, cold: Changes, script: Script)
    requires Believed(s) && MaxTotalTokens !in cold && HonestWarm(env, s, cold, script)
    ensures var c := ColdStage(env, s, cold, script);
            && Believed(c.s.(proc := Dead)) && c.s.applied == s.applied
            && (!c.raised ==> Believed(c.s) && c.s.proc.Live? && MapEq(cold, c.s.coldApplied))
            && (!c.s.dirty ==> c.s.proc == s.proc || c.s.proc.Dead?)
  {
    var t := Crash(s, script.crash1);
    if t.proc.Dead? || !MapEq(cold, t.coldApplied) {
      WarmedBelieved(env, t, cold, script);
      RelaunchedBelieved(env, Warmed(env, t, cold, script).s, cold, script);
    }
  }

  lemma LaunchAny(env: Env, s: Sup, cold: Changes, l: Launching)
    requires MaxTotalTokens !in cold && MaxTotalTokens !in s.coldApplied
    ensures Believed(Launch(env, s, cold, l))
    ensures LaunchOk(env, cold, l) ==>
              Launch(env, s, cold, l).proc.Live? && MapEq(cold, Launch(env, s, cold, l).coldApplied)
  {
  }

  lemma ColdAgrees(env: Env, s: Sup, fields: Changes)
    requires NoClash(env) && Believed(s) && s.proc.Live? && MapEq(ColdPart(env, fields), s.coldApplied)
    ensures forall k | k in ColdPart(env, fields) :: Eq(Get(s.proc.cold, EngineName(k)), fields[k])
  {
  }

  // ------------------------------------------------------------------- ticks

  /** A tick that ends healthy past the no-op branch leaves a live engine that agrees with the target on all its
      fields, cold and hot, remembers it, and the manifest had nothing against its hot part. */
  lemma HealthyTickAgrees(env: Env, vs: Versions, s: Sup, t: Target, script: Script)
    requires NoClash(env) && Inv(env, vs, s) && HonestTick(env, s, Some(t), script)
    requires !NoOp(s, Some(t), script) && Tick(env, s, Some(t), script).1 == Some(Healthy)
    ensures var after := Tick(env, s, Some(t), script).0;
            && Agrees(env, after.proc, t.fields) && after.applied == Some(t.id) && !after.dirty && Believed(after)
            && IsEmpty(Rejected(env.manifest, HotPart(env, t.fields)))
  {
    var c := ColdStage(env, Crash(s, script.crash0), ColdPart(env, t.fields), script);
    ColdStageBelieved(env, Crash(s, script.crash0), ColdPart(env, t.fields), script);
    ColdAgrees(env, c.s, t.fields);
    HotStageHolds(env, c.s, HotPart(env, t.fields), script.push);
  }

  lemma HotStageHolds(env: Env, s: Sup, hot: Changes, p: Pushing)
    requires s.proc.Live? && (p.PushOk? && IsEmpty(Rejected(env.manifest, hot)) ==> Holds(p.hot, hot))
            && HotStage(env, s, hot, p).1 == Some(Healthy)
    ensures var h := HotStage(env, s, hot, p).0;
            && h.proc.Live? && h.proc.cold == s.proc.cold && h.coldApplied == s.coldApplied
            && Holds(h.proc.hot, hot) && IsEmpty(Rejected(env.manifest, hot))
  {
  }

  /** Every tick that returns keeps the invariant, whatever the script: belief is true, and a clean engine agrees with
      the version the supervisor names. One that raises keeps it once the engine has been stopped. */
  lemma TickKeeps(env: Env, vs: Versions, s: Sup, t: Option<Target>, script: Script)
    requires NoClash(env) && Inv(env, vs, s) && HonestTick(env, s, t, script)
    requires t.Some? ==> t.value.id in vs && vs[t.value.id] == t.value.fields
    ensures Tick(env, s, t, script).1.Some? ==> Inv(env, vs, Tick(env, s, t, script).0)
    ensures Inv(env, vs, Tick(env, s, t, script).0.(proc := Dead))
  {
    var s1 := Crash(s, script.crash0);
    if t.None? {
      if s1.proc.Dead? { LaunchAny(env, s1, s1.coldApplied, script.launch); }
    } else if !NoOp(s, t, script) {
      var fields := t.value.fields;
      if Tick(env, s, t, script).1 == Some(Healthy) {
        HealthyTickAgrees(env, vs, s, t.value, script);
      } else {
        ColdStageBelieved(env, s1, ColdPart(env, fields), script);
        var c := ColdStage(env, s1, ColdPart(env, fields), script);
        if !c.raised {
          HotStageKeeps(env, c.s, HotPart(env, fields), script.push);
        }
      }
    }
  }

  lemma HotStageKeeps(env: Env, s: Sup, hot: Changes, p: Pushing)
    requires Believed(s)
    ensures var h := HotStage(env, s, hot, p).0;
            Believed(h) && h.applied == s.applied && (!h.dirty ==> h == s)
  {
  }

  // --------------------------------------------------------------------- runs

  datatype Action = DoTick(target: Option<VersionId>, script: Script) | DoCrash

  /** What the store answers; naming a version that is not there makes the read raise. */
  predicate Readable(vs: Versions, v: Option<VersionId>) {
    v.Some? ==> v.value in vs
  }

  function TargetOf(vs: Versions, v: Option<VersionId>): Option<Target> {
    if v.Some? && v.value in vs then Some(Target(v.value, vs[v.value])) else None
  }

  /** A tick that raises ends `run`, which stops the engine on the way out. */
  function Step(env: Env, vs: Versions, s: Sup, a: Action): Sup {
    match a
    case DoCrash => s.(proc := Dead)
    case DoTick(v, script) =>
      if !Readable(vs, v) then s.(proc := Dead)
      else
        var (after, status) := Tick(env, s, TargetOf(vs, v), script);
        if status.None? then after.(proc := Dead) else after
  }

  ghost predicate HonestAction(env: Env, vs: Versions, s: Sup, a: Action) {
    a.DoTick? ==> HonestTick(env, s, TargetOf(vs, a.target), a.script)
  }

  function Run(env: Env, vs: Versions, s: Sup, run: seq<Action>): Sup {
    if run == [] then s else Step(env, vs, Run(env, vs, s, run[..|run| - 1]), run[|run| - 1])
  }

  /** Every ok of the run means what it should. */
  ghost predicate HonestRun(env: Env, vs: Versions, s: Sup, run: seq<Action>) {
    forall i | 0 <= i < |run| :: HonestAction(env, vs, Run(env, vs, s, run[..i]), run[i])
  }

  /** Over every interleaving of target changes, engine crashes, refused and failed reinits, failed launches,
      rejected updates and ticks. */
  lemma {:induction false} RunKeeps(env: Env, vs: Versions, s: Sup, run: seq<Action>)
    requires NoClash(env) && Inv(env, vs, s) && HonestRun(env, vs, s, run)
    ensures Inv(env, vs, Run(env, vs, s, run))
  {
    if run != [] {
      var n := |run| - 1;
      var before := Run(env, vs, s, run[..n]);
      assert forall i | 0 <= i < n :: run[..n][..i] == run[..i];
      RunKeeps(env, vs, s, run[..n]);
      assert HonestAction(env, vs, before, run[n]);
      ActionKeeps(env, vs, before, run[n]);
    }
  }

  lemma ActionKeeps(env: Env, vs: Versions, s: Sup, a: Action)
    requires NoClash(env) && Inv(env, vs, s) && HonestAction(env, vs, s, a)
    ensures Inv(env, vs, Step(env, vs, s, a))
  {
    if a.DoTick? && Readable(vs, a.target) {
      TickKeeps(env, vs, s, TargetOf(vs, a.target), a.script);
    }
  }

  lemma FreshIsSafe(env: Env, vs: Versions)
    ensures Inv(env, vs, Sup(Dead, map[], None, 0, false))
  {
  }

  // ------------------------------------------------------ when it relaunches

  /** The one relaunch rule: whether a live process is replaced for this cold part, absent crashes. */
  ghost predicate Replaces(env: Env, s: Sup, cold: Changes, w: Warming) {
    && !MapEq(cold, s.coldApplied)
    && (|| Removed(s, cold) != {} || IsEmpty(Changed(s, cold))
        || !(EngineNames(Changed(s, cold)).Keys <= env.warm) || w.WarmRefused?)
  }

  lemma WarmedLaunches(env: Env, s: Sup, cold: Changes, script: Script)
    ensures var w := Warmed(env, s, cold, script);
            && w.s.launches == s.launches
            && (s.proc.Live? && !script.crash2 && !w.raised ==>
                  (WarmPath(env, s, cold) && script.warm.WarmOk? ==> w.s.coldApplied == cold && w.s.proc.Live?)
                  && (!(WarmPath(env, s, cold) && script.warm.WarmOk?) ==>
                         w.s.coldApplied == s.coldApplied && w.s.proc.Live?))
  {
  }

  lemma RelaunchedLaunches(env: Env, s: Sup, cold: Changes, script: Script)
    ensures var launches := Relaunched(env, s, cold, script).s.launches;
            && s.launches <= launches <= s.launches + 1
            && (s.proc.Live? && !script.crash3 ==> (launches == s.launches + 1 <==> !MapEq(cold, s.coldApplied)))
  {
  }

  lemma ColdStageLaunches(env: Env, s: Sup, cold: Changes, script: Script)
    ensures s.launches <= ColdStage(env, s, cold, script).s.launches <= s.launches + 1
    ensures s.proc.Live? && !script.crash1 && !script.crash2 && !script.crash3 ==>
              (ColdStage(env, s, cold, script).s.launches == s.launches + 1 <==> Replaces(env, s, cold, script.warm))
  {
    var t := Crash(s, script.crash1);
    if t.proc.Dead? || !MapEq(cold, t.coldApplied) {
      WarmedLaunches(env, t, cold, script);
      RelaunchedLaunches(env, Warmed(env, t, cold, script).s, cold, script);
    }
  }

  lemma HotStageLaunches(env: Env, s: Sup, hot: Changes, p: Pushing)
    ensures HotStage(env, s, hot, p).0.launches == s.launches
  {
  }

  lemma TickLaunches(env: Env, s: Sup, t: Target, script: Script)
    requires !NoOp(s, Some(t), script)
    ensures Tick(env, s, Some(t), script).0.launches
            == ColdStage(env, Crash(s, script.crash0), ColdPart(env, t.fields), script).s.launches
  {
    HotStageLaunches(env, ColdStage(env, Crash(s, script.crash0), ColdPart(env, t.fields), script).s,
        HotPart(env, t.fields), script.push);
  }

  /** A tick launches at most one process, whatever crashes; and with no crash during it, it replaces a live process
      exactly when it is past the no-op, the cold part differs, and either the difference is not one the running
      engine can take (a field was removed, a changed one is not warm, or only None values were added) or the warm
      reinit was refused. */
  lemma RelaunchIff(env: Env, s: Sup, t: Option<Target>, script: Script)
    ensures s.launches <= Tick(env, s, t, script).0.launches <= s.launches + 1
    ensures s.proc.Live? && t.Some? && !script.crash0 && !script.crash1 && !script.crash2 && !script.crash3 ==>
              (Tick(env, s, t, script).0.launches == s.launches + 1 <==>
                 s.applied != Some(t.value.id) && Replaces(env, s, ColdPart(env, t.value.fields), script.warm))
  {
    if t.Some? && !NoOp(s, t, script) {
      TickLaunches(env, s, t.value, script);
      ColdStageLaunches(env, Crash(s, script.crash0), ColdPart(env, t.value.fields), script);
    }
  }

  // ------------------------------------------------------ what is remembered

  /** What the supervisor remembers launching with changes only to the target's cold part, and only when a launch with
      it booted or a warm reinit with it was acknowledged: a launch that is refused or fails leaves the old belief. */
  lemma BeliefMoves(env: Env, s: Sup, t: Target, script: Script)
    ensures var after := Tick(env, s, Some(t), script).0; var cold := ColdPart(env, t.fields);
            after.coldApplied == s.coldApplied
            || (after.coldApplied == cold && (LaunchOk(env, cold, script.launch) || script.warm.WarmOk?))
  {
    if !NoOp(s, Some(t), script) {
      var c := ColdStage(env, Crash(s, script.crash0), ColdPart(env, t.fields), script);
      ColdStageMoves(env, Crash(s, script.crash0), ColdPart(env, t.fields), script);
      HotStageKeepsBelief(env, c.s, HotPart(env, t.fields), script.push);
    }
  }

  lemma ColdStageMoves(env: Env, s: Sup, cold: Changes, script: Script)
    ensures var after := ColdStage(env, s, cold, script).s;
            after.coldApplied == s.coldApplied
            || (after.coldApplied == cold && (LaunchOk(env, cold, script.launch) || script.warm.WarmOk?))
  {
    var t := Crash(s, script.crash1);
    WarmedMoves(env, t, cold, script);
    RelaunchedMoves(env, Warmed(env, t, cold, script).s, cold, script);
  }

  lemma WarmedMoves(env: Env, s: Sup, cold: Changes, script: Script)
    ensures var after := Warmed(env, s, cold, script).s;
            after.coldApplied == s.coldApplied || (after.coldApplied == cold && script.warm.WarmOk?)
  {
  }

  lemma RelaunchedMoves(env: Env, s: Sup, cold: Changes, script: Script)
    ensures var after := Relaunched(env, s, cold, script).s;
            after.coldApplied == s.coldApplied || (after.coldApplied == cold && LaunchOk(env, cold, script.launch))
  {
  }

  lemma HotStageKeepsBelief(env: Env, s: Sup, hot: Changes, p: Pushing)
    ensures HotStage(env, s, hot, p).0.coldApplied == s.coldApplied
  {
  }

  /** So when the target goes away after an update that could not be launched, the engine comes back with the settings
      that last worked. */
  lemma OldSettingsComeBack(env: Env, s: Sup, t: Target, script: Script, none: Script)
    requires !LaunchOk(env, ColdPart(env, t.fields), script.launch) && !script.warm.WarmOk?
    requires Tick(env, s, Some(t), script).0.proc.Dead? || none.crash0
    requires LaunchOk(env, s.coldApplied, none.launch)
    ensures var (after, status) := Tick(env, Tick(env, s, Some(t), script).0, None, none);
            status == Some(Healthy) && after.proc == Live(EngineNames(s.coldApplied), none.launch.hot)
  {
    BeliefMoves(env, s, t, script);
  }

  // ----------------------------------------------------------------- progress

  predicate NoCrash(script: Script) {
    !script.crash0 && !script.crash1 && !script.crash2 && !script.crash3
  }

  /** The tick must start a process: there is none, or the live one cannot be brought to this cold part. */
  ghost predicate MustLaunch(env: Env, s: Sup, cold: Changes, w: Warming) {
    s.proc.Dead? || Replaces(env, s, cold, w)
  }

  /** The cold part does not come through: the warm reinit is tried and raises, or a launch is needed and fails. */
  ghost predicate ColdFails(env: Env, s: Sup, cold: Changes, script: Script) {
    || (WarmPath(env, s, cold) && script.warm.WarmRaises?)
    || (MustLaunch(env, s, cold, script.warm) && !LaunchOk(env, cold, script.launch))
  }

  lemma WarmPathDiffers(env: Env, s: Sup, cold: Changes)
    requires WarmPath(env, s, cold)
    ensures !MapEq(cold, s.coldApplied)
  {
    var k :| k in Changed(s, cold);
    assert Differs(s.coldApplied, k, cold[k]);
  }

  lemma ColdStageRaises(env: Env, s: Sup, cold: Changes, script: Script)
    requires NoCrash(script)
    ensures ColdStage(env, s, cold, script).raised <==> ColdFails(env, s, cold, script)
    ensures !ColdStage(env, s, cold, script).raised ==> ColdStage(env, s, cold, script).s.proc.Live?
  {
    if WarmPath(env, s, cold) {
      WarmPathDiffers(env, s, cold);
    }
  }

  lemma HotStageStatus(env: Env, s: Sup, hot: Changes, p: Pushing)
    requires s.proc.Live?
    ensures HotStage(env, s, hot, p).1 == HotStatus(env, hot, p)
  {
  }

  function HotStatus(env: Env, hot: Changes, p: Pushing): Option<Status> {
    if IsEmpty(hot) then Some(Healthy)
    else if !IsEmpty(Rejected(env.manifest, hot)) then Some(Failed)
    else match p case PushOk(_) => Some(Healthy) case PushRejected(_) => Some(Failed) case PushRaises => None
  }

  /** How a tick past the no-op ends when the process does not die under it: it raises exactly when its cold part does
      not come through or its push raises, and otherwise the hot part alone decides. */
  lemma TickOutcome(env: Env, s: Sup, t: Target, script: Script)
    requires NoCrash(script) && !NoOp(s, Some(t), script)
    ensures Tick(env, s, Some(t), script).1 ==
            if ColdFails(env, s, ColdPart(env, t.fields), script) then None
                else HotStatus(env, HotPart(env, t.fields), script.push)
  {
    var cold := ColdPart(env, t.fields);
    ColdStageRaises(env, s, cold, script);
    if !ColdStage(env, s, cold, script).raised {
      HotStageStatus(env, ColdStage(env, s, cold, script).s, HotPart(env, t.fields), script.push);
    }
  }

  /** Nothing dies, a launch boots, a reinit answers and the engine takes the push. */
  predicate Cooperates(script: Script) {
    NoCrash(script) && script.launch.Boots? && !script.warm.WarmRaises? && script.push.PushOk?
  }

  /** Progress: from any state a run can reach, whatever crashes and failures it has behind it, one tick under which
      nothing goes wrong converges on the target, unless the manifest refuses its hot part or a launch is needed and
      one of its cold fields has no flag. */
  lemma Progress(env: Env, vs: Versions, s: Sup, t: Target, script: Script)
    requires NoClash(env) && Inv(env, vs, s) && HonestTick(env, s, Some(t), script)
    requires Cooperates(script) && !NoOp(s, Some(t), script)
    ensures var (after, status) := Tick(env, s, Some(t), script); var cold := ColdPart(env, t.fields);
            && (status == Some(Healthy) <==>
                  && IsEmpty(Rejected(env.manifest, HotPart(env, t.fields)))
                  && (MustLaunch(env, s, cold, script.warm) ==> cold.Keys <= env.flags))
            && (status == Some(Healthy) ==>
                   Agrees(env, after.proc, t.fields) && after.applied == Some(t.id) && !after.dirty)
  {
    TickOutcome(env, s, t, script);
    if Tick(env, s, Some(t), script).1 == Some(Healthy) {
      HealthyTickAgrees(env, vs, s, t, script);
    }
  }

  // ------------------------------------------------ where "healthy" is not enough

  /** The no-op branch looks at the version id and the process alone, so a healthy no-op agrees with the target
      exactly when the engine already did. */
  lemma NoOpIsBlind(env: Env, s: Sup, t: Target, script: Script)
    requires NoOp(s, Some(t), script)
    ensures Tick(env, s, Some(t), script) == (s, Some(Healthy))
  {
  }

  /** Cold settings, by the plane's names, have the values this version gives them. */
  ghost predicate ColdIs(env: Env, cold: Changes, fields: Changes) {
    forall k | k in ColdPart(env, fields) :: Eq(Get(cold, k), fields[k])
  }

  /** A live process agrees with a version's cold fields exactly when what the supervisor remembers launching with
      does. */
  lemma ColdGet(env: Env, s: Sup, k: Field)
    requires NoClash(env) && Believed(s) && s.proc.Live? && IsCold(env, k)
    ensures Eq(Get(s.proc.cold, EngineName(k)), Get(s.coldApplied, k))
  {
    GetNames(s.coldApplied, EngineName(k));
  }

  lemma AgreesIff(env: Env, s: Sup, fields: Changes)
    requires NoClash(env) && Believed(s) && s.proc.Live?
    ensures Agrees(env, s.proc, fields) <==>
              ColdIs(env, s.coldApplied, fields) && Holds(s.proc.hot, HotPart(env, fields))
  {
    forall k | k in ColdPart(env, fields)
      ensures Eq(Get(s.proc.cold, EngineName(k)), fields[k]) <==> Eq(Get(s.coldApplied, k), fields[k])
    {
      ColdGet(env, s, k);
    }
  }

  lemma ColdIsMapEq(env: Env, cold: Changes, cold': Changes, fields: Changes)
    requires MapEq(cold, cold')
    ensures ColdIs(env, cold, fields) <==> ColdIs(env, cold', fields)
  {
    forall k | k in ColdPart(env, fields) ensures Eq(Get(cold, k), fields[k]) <==> Eq(Get(cold', k), fields[k]) {
      assert Eq(Get(cold, k), Get(cold', k));
    }
  }

  /** A relaunch while the group has no desired version keeps the old applied id: when that version comes back the
      next tick is a healthy no-op, and the engine agrees with it exactly when the settings it was last launched with
      and the boot knobs happen to. */
  lemma RelaunchWithoutTarget(env: Env, vs: Versions, s: Sup, v: VersionId, none: Script, back: Script)
    requires NoClash(env) && Believed(s) && s.applied == Some(v) && v in vs
    requires none.crash0 && LaunchOk(env, s.coldApplied, none.launch) && !back.crash0
    ensures var s1 := Tick(env, s, None, none).0; var (s2, status) := Tick(env, s1, Some(Target(v, vs[v])), back);
            && status == Some(Healthy) && s2 == s1
            && (Agrees(env, s2.proc, vs[v]) <==>
                   ColdIs(env, s.coldApplied, vs[v]) && Holds(none.launch.hot, HotPart(env, vs[v])))
  {
    var s1 := Tick(env, s, None, none).0;
    LaunchAny(env, Crash(s, true), s.coldApplied, none.launch);
    assert s1.coldApplied == s.coldApplied;
    AgreesIff(env, s1, vs[v]);
  }

  /** The hot knobs of a process; one that is gone has none. */
  function HotOf(p: Proc): Changes {
    if p.Live? then p.hot else map[]
  }

  /** The hot knobs the cold stage leaves when it does not raise: those there were, when nothing was to be done; those
      of the warm reinit, when it went through; and otherwise those of the launch. */
  function HotAfterCold(env: Env, s: Sup, cold: Changes, script: Script): Changes {
    if s.proc.Live? && !script.crash1 && MapEq(cold, s.coldApplied) then s.proc.hot
    else if !script.crash1 && !script.crash2 && !script.crash3 && WarmPath(env, s, cold) && script.warm.WarmOk?
        then script.warm.hot
    else if script.launch.Boots? then script.launch.hot
    else map[]
  }

  lemma ColdStageHot(env: Env, s: Sup, cold: Changes, script: Script)
    ensures var c := ColdStage(env, s, cold, script); !c.raised ==>
            HotOf(c.s.proc) == HotAfterCold(env, s, cold, script)
  {
  }

  /** The hot knobs a failed tick leaves: those of the cold stage when the manifest refused the hot part, and what the
      engine reads back when it refused it itself. */
  function HotLeft(env: Env, s: Sup, t: Target, script: Script): Changes {
    if !IsEmpty(Rejected(env.manifest, HotPart(env, t.fields)))
        then HotAfterCold(env, s, ColdPart(env, t.fields), script)
    else if script.push.PushRaises? then map[]
    else script.push.hot
  }

  lemma HotStageFails(env: Env, s: Sup, hot: Changes, p: Pushing)
    requires Believed(s) && s.proc.Live? && HotStage(env, s, hot, p).1 == Some(Failed)
    ensures var h := HotStage(env, s, hot, p).0;
            && Believed(h) && h.proc.Live? && h.applied == s.applied && h.coldApplied == s.coldApplied
            && (if !IsEmpty(Rejected(env.manifest, hot)) then HotOf(h.proc) == HotOf(s.proc) else
                   !p.PushRaises? && HotOf(h.proc) == p.hot)
  {
  }

  lemma FailedConverge(env: Env, s: Sup, t: Target, script: Script)
    requires NoClash(env) && Believed(s) && HonestWarm(env, s, ColdPart(env, t.fields), script)
    requires Converge(env, s, t, script).1 == Some(Failed)
    ensures var s1 := Converge(env, s, t, script).0;
            Believed(s1) && s1.proc.Live? && s1.applied == s.applied && MapEq(ColdPart(env, t.fields), s1.coldApplied)
    ensures HotOf(Converge(env, s, t, script).0.proc) == HotLeft(env, s, t, script)
  {
    ColdStageBelieved(env, s, ColdPart(env, t.fields), script);
    ColdStageHot(env, s, ColdPart(env, t.fields), script);
    HotStageFails(env, ColdStage(env, s, ColdPart(env, t.fields), script).s, HotPart(env, t.fields), script.push);
  }

  /** The tick did not raise and did not converge. */
  ghost predicate EndsFailed(env: Env, s: Sup, t: Target, script: Script) {
    Tick(env, s, Some(t), script).1 == Some(Failed)
  }

  /** A tick that ends failed got its cold settings through: the process is live with the new version's, while the
      version the supervisor names is still the old one. */
  lemma FailedTick(env: Env, s: Sup, t: Target, script: Script)
    requires NoClash(env) && Believed(s) && HonestWarm(env, s, ColdPart(env, t.fields), script)
            && EndsFailed(env, s, t, script)
    ensures var s1 := Tick(env, s, Some(t), script).0;
            Believed(s1) && s1.proc.Live? && s1.applied == s.applied && MapEq(ColdPart(env, t.fields), s1.coldApplied)
    ensures HotOf(Tick(env, s, Some(t), script).0.proc) == HotLeft(env, Crash(s, script.crash0), t, script)
  {
    FailedConverge(env, Crash(s, script.crash0), t, script);
  }

  /** After any update that ends failed, refused by the manifest or by the engine, on the running process or after a
      reinit or a relaunch, going back to the version the supervisor still names is a healthy no-op. The engine agrees
      with that version exactly when the failed version's cold part gives each of its cold fields the same value, and
      the hot knobs the failed tick left still hold its hot part. */
  lemma BackAfterFailure(env: Env, vs: Versions, s: Sup, v: VersionId, t: Target, script: Script, back: Script)
    requires NoClash(env) && Believed(s) && s.applied == Some(v) && v in vs && t.id != v
    requires HonestWarm(env, s, ColdPart(env, t.fields), script) && EndsFailed(env, s, t, script) && !back.crash0
    ensures var s1 := Tick(env, s, Some(t), script).0;
            && Tick(env, s1, Some(Target(v, vs[v])), back) == (s1, Some(Healthy))
            && (Agrees(env, s1.proc, vs[v]) <==>
                  && ColdIs(env, ColdPart(env, t.fields), vs[v])
                  && Holds(HotLeft(env, Crash(s, script.crash0), t, script), HotPart(env, vs[v])))
  {
    FailedTick(env, s, t, script);
    var s1 := Tick(env, s, Some(t), script).0;
    NoOpIsBlind(env, s1, Target(v, vs[v]), back);
    AgreesIff(env, s1, vs[v]);
    ColdIsMapEq(env, ColdPart(env, t.fields), s1.coldApplied, vs[v]);
  }
}
