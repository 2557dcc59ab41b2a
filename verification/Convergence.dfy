/** The convergence of the supervisor over the engines modelled: nothing is assumed of an ok but that one of them gave
    it. */
module Convergence {
  import opened Wrappers
  import opened PyValues
  import opened Manifest
  import opened Targets
  import opened SupervisorModel
  import opened SupervisorSafety
  import opened EngineHonesty
  import opened WarmHonesty

  /** An ok push was answered by some engine that the manifest is for, in whatever state it was. */
  ghost predicate PushFromEngine(env: Env, t: Target, script: Script) {
    script.push.PushOk? ==>
      exists g: Engine :: Matches(env.manifest, g) && script.push == Answer(g, HotPart(env, t.fields))
  }

  /** What the supervisor sends in a warm reinit. */
  function Sent(env: Env, s: Sup, t: Target): Changes {
    EngineNames(Changed(s, ColdPart(env, t.fields)))
  }

  /** This engine took the warm reinit, and the process has the settings it then holds. */
  ghost predicate WarmBy(env: Env, s: Sup, t: Target, script: Script, g: Engine, how: How) {
    && s.proc.Live? && script.warm.WarmOk? && Matches(env.manifest, g)
    && Took(g, Sent(env, s, t), how)
    && script.warm.cold == Settled(s.proc.cold, g, AfterWarm(g, Sent(env, s, t), how), Sent(env, s, t))
  }

  /** An ok warm reinit was answered by some engine that the manifest is for. A mock is only asked for what it keeps. */
  ghost predicate WarmFromEngine(env: Env, s: Sup, t: Target, script: Script) {
    WarmPath(env, s, ColdPart(env, t.fields)) && script.warm.WarmOk? ==>
      exists g: Engine, how: How :: WarmBy(env, s, t, script, g, how) && (g.Mock? ==> Truthful(g, Sent(env, s, t)))
  }

  ghost predicate FromEngines(env: Env, s: Sup, t: Target, script: Script) {
    PushFromEngine(env, t, script) && WarmFromEngine(env, s, t, script)
  }

  // ------------------------------------------------------------- warm reinits

  lemma SentNames(env: Env, s: Sup, t: Target, n: Field)
    requires NoClash(env)
    ensures n in Sent(env, s, t) <==> n != MaxTotalNumTokens && PlaneName(n) in Changed(s, ColdPart(env, t.fields))
    ensures n in Sent(env, s, t) ==> Sent(env, s, t)[n] == t.fields[PlaneName(n)] && IsCold(env, PlaneName(n))
  {
    GetNames(Changed(s, ColdPart(env, t.fields)), n);
  }

  /** Only what differs from the settings there are is sent. */
  lemma SentDiffers(env: Env, s: Sup, t: Target)
    requires NoClash(env) && Believed(s) && WarmPath(env, s, ColdPart(env, t.fields))
    ensures !IsEmpty(Sent(env, s, t)) && forall n | n in Sent(env, s, t) :: !Eq(Get(s.proc.cold, n), Sent(env, s, t)[n])
  {
    var changed := Changed(s, ColdPart(env, t.fields));
    var k :| k in changed;
    SentNames(env, s, t, EngineName(k));
    forall n | n in Sent(env, s, t) ensures !Eq(Get(s.proc.cold, n), Sent(env, s, t)[n]) {
      SentNames(env, s, t, n);
      GetNames(s.coldApplied, n);
      assert Differs(s.coldApplied, PlaneName(n), changed[PlaneName(n)]);
      assert Eq(Get(s.proc.cold, n), Get(EngineNames(s.coldApplied), n));
    }
  }

  /** With its manifest, vLLM is never sent a size: those fields are hot. */
  lemma SizesAreHot(env: Env, s: Sup, t: Target, g: Engine)
    requires NoClash(env) && Matches(env.manifest, g) && !g.Mock?
    ensures Truthful(g, Sent(env, s, t))
  {
    SentNames(env, s, t, MaxNumSeqs);
    SentNames(env, s, t, MaxNumBatchedTokens);
  }

  lemma WarmEnginesAreHonest(env: Env, s: Sup, t: Target, script: Script)
    requires NoClash(env) && Believed(s) && WarmFromEngine(env, s, t, script)
    ensures HonestWarm(env, s, ColdPart(env, t.fields), script)
  {
    if WarmPath(env, s, ColdPart(env, t.fields)) && script.warm.WarmOk? {
      var g: Engine, how: How :| WarmBy(env, s, t, script, g, how) && (g.Mock? ==> Truthful(g, Sent(env, s, t)));
      SentDiffers(env, s, t);
      WarmOkIff(s.proc.cold, g, Sent(env, s, t), how);
      if !g.Mock? {
        SizesAreHot(env, s, t, g);
      }
      DoneIsOverlay(s.proc.cold, script.warm.cold, Sent(env, s, t));
    }
  }

  lemma PushEnginesAreHonest(env: Env, t: Target, script: Script)
    requires PushFromEngine(env, t, script)
    ensures HonestPush(env, Some(t), script)
  {
    if script.push.PushOk? && IsEmpty(Rejected(env.manifest, HotPart(env, t.fields))) {
      var g: Engine :| Matches(env.manifest, g) && script.push == Answer(g, HotPart(env, t.fields));
      OkHolds(env.manifest, g, HotPart(env, t.fields));
    }
  }

  // --------------------------------------------------------- ticks and runs

  /** A healthy tick past the no-op leaves an engine that agrees with the target, hot and cold. */
  lemma HealthyTickOverEngines(env: Env, vs: Versions, s: Sup, t: Target, script: Script)
    requires NoClash(env) && Inv(env, vs, s) && FromEngines(env, s, t, script)
    requires !NoOp(s, Some(t), script) && Tick(env, s, Some(t), script).1 == Some(Healthy)
    ensures var after := Tick(env, s, Some(t), script).0;
            && Agrees(env, after.proc, t.fields) && after.applied == Some(t.id) && !after.dirty && Believed(after)
            && IsEmpty(Rejected(env.manifest, HotPart(env, t.fields)))
  {
    PushEnginesAreHonest(env, t, script);
    WarmEnginesAreHonest(env, s, t, script);
    HealthyTickAgrees(env, vs, s, t, script);
  }

  ghost predicate EngineAction(env: Env, vs: Versions, s: Sup, a: Action) {
    a.DoTick? && TargetOf(vs, a.target).Some? ==> FromEngines(env, s, TargetOf(vs, a.target).value, a.script)
  }

  ghost predicate EngineRun(env: Env, vs: Versions, s: Sup, run: seq<Action>) {
    forall i | 0 <= i < |run| :: EngineAction(env, vs, Run(env, vs, s, run[..i]), run[i])
  }

  /** Over every run of the supervisor with these engines: whenever the engine is live and untouched since the last
      success, it agrees with the version the supervisor names. */
  lemma {:induction false} RunsOverEngines(env: Env, vs: Versions, s: Sup, run: seq<Action>)
    requires NoClash(env) && Inv(env, vs, s) && EngineRun(env, vs, s, run)
    ensures Inv(env, vs, Run(env, vs, s, run))
  {
    if run != [] {
      var n := |run| - 1;
      assert forall i | 0 <= i < n :: run[..n][..i] == run[..i];
      RunsOverEngines(env, vs, s, run[..n]);
      OneAction(env, vs, Run(env, vs, s, run[..n]), run[n]);
    }
  }

  lemma OneAction(env: Env, vs: Versions, s: Sup, a: Action)
    requires NoClash(env) && Inv(env, vs, s) && EngineAction(env, vs, s, a)
    ensures Inv(env, vs, Step(env, vs, s, a))
  {
    if a.DoTick? && Readable(vs, a.target) {
      var t := TargetOf(vs, a.target);
      if t.Some? {
        PushEnginesAreHonest(env, t.value, a.script);
        WarmEnginesAreHonest(env, s, t.value, a.script);
      }
      TickKeeps(env, vs, s, t, a.script);
    }
  }

  /** In particular from the start. */
  lemma FreshRunsOverEngines(env: Env, vs: Versions, run: seq<Action>)
    requires NoClash(env) && EngineRun(env, vs, Sup(Dead, map[], None, 0, false), run)
    ensures Inv(env, vs, Run(env, vs, Sup(Dead, map[], None, 0, false), run))
  {
    FreshIsSafe(env, vs);
    RunsOverEngines(env, vs, Sup(Dead, map[], None, 0, false), run);
  }

  // ---------------------------------------------- when a healthy tick is wrong

  lemma WarmStage(env: Env, s: Sup, cold: Changes, script: Script)
    requires NoCrash(script) && WarmPath(env, s, cold) && script.warm.WarmOk?
    ensures ColdStage(env, s, cold, script)
            == Stage(s.(proc := Live(script.warm.cold, script.warm.hot), coldApplied := cold, dirty := true), false)
  {
    WarmPathDiffers(env, s, cold);
  }

  ghost predicate DoneAt(settled: Changes, sent: Changes, n: Field) {
    n in sent ==> Eq(Get(settled, n), sent[n])
  }

  /** The settings have these fields, by the engine's names. */
  ghost predicate Has(settled: Changes, fields: Changes) {
    forall k | k in fields :: Eq(Get(settled, EngineName(k)), fields[k])
  }

  ghost predicate AsDone(settled: Changes, cold: Changes, sent: Changes) {
    forall k | k in cold :: Eq(Get(settled, EngineName(k)), cold[k]) <==> DoneAt(settled, sent, EngineName(k))
  }

  ghost predicate NamesOf(cold: Changes, sent: Changes) {
    forall n | n in sent :: PlaneName(n) in cold && EngineName(PlaneName(n)) == n
  }

  lemma HasIffDone(settled: Changes, cold: Changes, sent: Changes)
    requires AsDone(settled, cold, sent) && NamesOf(cold, sent)
    ensures Has(settled, cold) <==> Done(settled, sent)
  {
    if Has(settled, cold) {
      forall n | n in sent ensures Eq(Get(settled, n), sent[n]) {
        assert DoneAt(settled, sent, EngineName(PlaneName(n)));
      }
    }
  }

  /** The process has the version's cold fields exactly when the reinit that was to bring them is done. */
  lemma ColdIffDone(env: Env, s: Sup, t: Target, settled: Changes)
    requires NoClash(env) && Believed(s) && WarmPath(env, s, ColdPart(env, t.fields))
    requires forall n | n !in Sent(env, s, t) :: Get(settled, n) == Get(s.proc.cold, n)
    ensures Has(settled, ColdPart(env, t.fields)) <==> Done(settled, Sent(env, s, t))
  {
    AllAsDone(env, s, t, settled);
    SentNamesOf(env, s, t);
    HasIffDone(settled, ColdPart(env, t.fields), Sent(env, s, t));
  }

  lemma AllAsDone(env: Env, s: Sup, t: Target, settled: Changes)
    requires NoClash(env) && Believed(s) && s.proc.Live?
    requires forall n | n !in Sent(env, s, t) :: Get(settled, n) == Get(s.proc.cold, n)
    ensures AsDone(settled, ColdPart(env, t.fields), Sent(env, s, t))
  {
    forall k | k in ColdPart(env, t.fields)
      ensures Eq(Get(settled, EngineName(k)), ColdPart(env, t.fields)[k]) <==>
              DoneAt(settled, Sent(env, s, t), EngineName(k))
    {
      ColdFieldIff(env, s, t, settled, k);
    }
  }

  lemma SentNamesOf(env: Env, s: Sup, t: Target)
    requires NoClash(env)
    ensures NamesOf(ColdPart(env, t.fields), Sent(env, s, t))
  {
    forall n | n in Sent(env, s, t) ensures PlaneName(n) in ColdPart(env, t.fields) && EngineName(PlaneName(n)) == n {
      SentNames(env, s, t, n);
    }
  }

  lemma ColdFieldIff(env: Env, s: Sup, t: Target, settled: Changes, k: Field)
    requires NoClash(env) && Believed(s) && s.proc.Live? && k in ColdPart(env, t.fields)
    requires EngineName(k) !in Sent(env, s, t) ==> Get(settled, EngineName(k)) == Get(s.proc.cold, EngineName(k))
    ensures Eq(Get(settled, EngineName(k)), t.fields[k]) <==> DoneAt(settled, Sent(env, s, t), EngineName(k))
  {
    SentNames(env, s, t, EngineName(k));
    ColdGet(env, s, k);
  }

  /** A healthy tick that went through a warm reinit agrees with its target exactly when the reinit is one the engine
      stores as it is: always for the two real engines with their manifests; for the mocks when it is a whole size. */
  lemma WarmTickIff(env: Env, s: Sup, t: Target, script: Script, g: Engine, how: How)
    requires NoClash(env) && Believed(s) && NoCrash(script) && !NoOp(s, Some(t), script)
    requires WarmPath(env, s, ColdPart(env, t.fields)) && WarmBy(env, s, t, script, g, how)
            && PushFromEngine(env, t, script)
    requires Tick(env, s, Some(t), script).1 == Some(Healthy)
    ensures Agrees(env, Tick(env, s, Some(t), script).0.proc, t.fields) <==> Truthful(g, Sent(env, s, t))
    ensures !g.Mock? ==> Truthful(g, Sent(env, s, t))
  {
    var c := ColdStage(env, s, ColdPart(env, t.fields), script);
    WarmStage(env, s, ColdPart(env, t.fields), script);
    PushEnginesAreHonest(env, t, script);
    HotStageHolds(env, c.s, HotPart(env, t.fields), script.push);
    SentDiffers(env, s, t);
    WarmOkIff(s.proc.cold, g, Sent(env, s, t), how);
    ColdIffDone(env, s, t, script.warm.cold);
    if !g.Mock? {
      SizesAreHot(env, s, t, g);
    }
  }

  // ------------------------------------------------- versions that never land

  /** Pushes of this version that are acknowledged come from an SGLang server. */
  ghost predicate PushFromSglang(env: Env, t: Target, script: Script) {
    script.push.PushOk? ==> exists g: Engine :: SpeaksSglang(g) && script.push == Answer(g, HotPart(env, t.fields))
  }

  lemma TickStaysFailed(env: Env, s: Sup, t: Target, script: Script, k: Field)
    requires k in HotPart(env, t.fields) && k !in SGLANG_HOT && s.applied != Some(t.id)
            && PushFromSglang(env, t, script)
    ensures var (after, status) := Tick(env, s, Some(t), script);
            status != Some(Healthy) && after.applied == s.applied
  {
    var hot := HotPart(env, t.fields);
    if IsEmpty(Rejected(env.manifest, hot)) && script.push.PushOk? {
      var g: Engine :| SpeaksSglang(g) && script.push == Answer(g, hot);
      NeverAcknowledged(env.manifest, g, hot, k);
    }
    var c := ColdStage(env, Crash(s, script.crash0), ColdPart(env, t.fields), script);
    ColdStageApplied(env, Crash(s, script.crash0), ColdPart(env, t.fields), script);
    HotStageApplied(env, c.s, hot, script.push);
  }

  lemma ColdStageApplied(env: Env, s: Sup, cold: Changes, script: Script)
    ensures ColdStage(env, s, cold, script).s.applied == s.applied
  {
  }

  lemma HotStageApplied(env: Env, s: Sup, hot: Changes, p: Pushing)
    ensures HotStage(env, s, hot, p).0.applied == s.applied
    ensures !IsEmpty(hot) && (!IsEmpty(Rejected(env.manifest, hot)) || !p.PushOk?) ==>
            HotStage(env, s, hot, p).1 != Some(Healthy)
  {
  }

  lemma TickApplies(env: Env, s: Sup, t: Option<Target>, script: Script)
    ensures Tick(env, s, t, script).0.applied in {s.applied, if t.Some? then Some(t.value.id) else s.applied}
  {
    if t.Some? && !NoOp(s, t, script) {
      var c := ColdStage(env, Crash(s, script.crash0), ColdPart(env, t.value.fields), script);
      ColdStageApplied(env, Crash(s, script.crash0), ColdPart(env, t.value.fields), script);
      HotStageApplied(env, c.s, HotPart(env, t.value.fields), script.push);
    }
  }

  /** A version of an SGLang group that names a hot field outside the patched seven stays failed for ever: over every
      run, however often it is tried and whatever the engine is, it is never applied. */
  lemma {:induction false} StaysFailed(env: Env, vs: Versions, s: Sup, run: seq<Action>, v: VersionId, k: Field)
    requires v in vs && k in HotPart(env, vs[v]) && k !in SGLANG_HOT && s.applied != Some(v)
    requires forall a | a in run && a.DoTick? && a.target == Some(v) :: PushFromSglang(env, Target(v, vs[v]), a.script)
    ensures Run(env, vs, s, run).applied != Some(v)
  {
    if run != [] {
      var n := |run| - 1;
      var mid, a := Run(env, vs, s, run[..n]), run[n];
      StaysFailed(env, vs, s, run[..n], v, k);
      assert a in run;
      if a.DoTick? && Readable(vs, a.target) {
        if a.target == Some(v) {
          TickStaysFailed(env, mid, Target(v, vs[v]), a.script, k);
        } else {
          TickApplies(env, mid, TargetOf(vs, a.target), a.script);
        }
      }
    }
  }
}
