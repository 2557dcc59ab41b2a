/** A run of the supervisor in which a healthy tick leaves the wrong settings. */
module StaleHealthy {
  import opened Wrappers
  import opened PyValues
  import opened Manifest
  import opened Targets
  import opened SupervisorModel
  import opened SupervisorSafety

  /** A launch setting and some hot knobs, all of which the manifest lets through. */
  ghost predicate Launchable(env: Env, fields: Changes, q: Field) {
    && q in fields && IsCold(env, q) && q in env.flags
    && (exists k :: k in fields && !IsCold(env, k))
    && forall k | k in fields && k != q :: !IsCold(env, k) && Judge(env.manifest, k, fields[k]).None?
  }

  /** A tick of such a version, on no process or on one launched with this setting, ends as its push does. */
  lemma LaunchableTick(env: Env, s: Sup, t: Target, script: Script, q: Field)
    requires Launchable(env, t.fields, q) && s.applied != Some(t.id)
    requires s.proc.Dead? || MapEq(ColdPart(env, t.fields), s.coldApplied)
    requires NoCrash(script) && script.launch.Boots? && !script.push.PushRaises?
    ensures var (after, status) := Tick(env, s, Some(t), script);
            && status == Some(if script.push.PushOk? then Healthy else Failed)
            && after.proc.Live? && after.proc.hot == script.push.hot
                && MapEq(ColdPart(env, t.fields), after.coldApplied)
            && after.applied == if script.push.PushOk? then Some(t.id) else s.applied
  {
    var cold, hot := ColdPart(env, t.fields), HotPart(env, t.fields);
    LaunchableParts(env, t.fields, q);
    ColdFine(env, s, cold, script);
    HotFine(env, ColdStage(env, s, cold, script).s, hot, script.push);
  }

  lemma LaunchableParts(env: Env, fields: Changes, q: Field)
    requires Launchable(env, fields, q)
    ensures ColdPart(env, fields).Keys <= env.flags
    ensures !IsEmpty(HotPart(env, fields)) && IsEmpty(Rejected(env.manifest, HotPart(env, fields)))
  {
    var k :| k in fields && !IsCold(env, k);
    assert k in HotPart(env, fields);
    NothingRejected(env.manifest, HotPart(env, fields));
  }

  lemma NothingRejected(m: Manifest, c: Changes)
    requires forall k | k in c :: Judge(m, k, c[k]).None?
    ensures IsEmpty(Rejected(m, c))
  {
  }

  lemma ColdFine(env: Env, s: Sup, cold: Changes, script: Script)
    requires s.proc.Dead? || MapEq(cold, s.coldApplied)
    requires NoCrash(script) && script.launch.Boots? && cold.Keys <= env.flags
    ensures var c := ColdStage(env, s, cold, script);
            !c.raised && c.s.proc.Live? && MapEq(cold, c.s.coldApplied) && c.s.applied == s.applied
  {
  }

  lemma HotFine(env: Env, s: Sup, hot: Changes, p: Pushing)
    requires s.proc.Live? && !IsEmpty(hot) && IsEmpty(Rejected(env.manifest, hot)) && !p.PushRaises?
    ensures HotStage(env, s, hot, p) == (s.(proc := s.proc.(hot := p.hot), dirty := true),
            Some(if p.PushOk? then Healthy else Failed))
  {
  }

  lemma SameLaunch(env: Env, a: Changes, b: Changes, q: Field, applied: Changes)
    requires Launchable(env, a, q) && Launchable(env, b, q) && a[q] == b[q] && MapEq(ColdPart(env, a), applied)
    ensures MapEq(ColdPart(env, b), applied)
  {
    assert ColdPart(env, a).Keys == {q} == ColdPart(env, b).Keys;
  }

  /** A healthy version, one that is rejected leaving the engine with `left`, and the first again. */
  lemma BackAgain(env: Env, first: Changes, second: Changes, q: Field, script: Script, hot: Changes, left: Changes)
    requires Launchable(env, first, q) && Launchable(env, second, q) && first[q] == second[q]
    requires NoCrash(script) && script.launch.Boots?
    ensures var (s1, healthy) := Tick(env, Sup(Dead, map[], None, 0, false), Some(Target(1, first)),
            script.(push := PushOk(hot)));
            var (s2, failed) := Tick(env, s1, Some(Target(2, second)), script.(push := PushRejected(left)));
            var (s3, back) := Tick(env, s2, Some(Target(1, first)), script);
            && healthy == Some(Healthy) && failed == Some(Failed) && back == Some(Healthy)
            && s3.proc.Live? && s3.proc.hot == left
  {
    var push1, push2 := script.(push := PushOk(hot)), script.(push := PushRejected(left));
    var s0 := Sup(Dead, map[], None, 0, false);
    LaunchableTick(env, s0, Target(1, first), push1, q);
    var s1 := Tick(env, s0, Some(Target(1, first)), push1).0;
    SameLaunch(env, first, second, q, s1.coldApplied);
    LaunchableTick(env, s1, Target(2, second), push2, q);
    var s2 := Tick(env, s1, Some(Target(2, second)), push2).0;
    NoOpIsBlind(env, s2, Target(1, first), script);
  }

  lemma Wrong(env: Env, proc: Proc, fields: Changes, k: Field)
    requires proc.Live? && k in HotPart(env, fields) && k in proc.hot && !Same(k, proc.hot[k], fields[k])
    ensures !Agrees(env, proc, fields)
  {
  }

  /** A version is healthy; the next, with the same launch setting, is rejected; and going back to the first is healthy
      while the engine holds another value for one of its knobs. */
  lemma HealthyButWrong(env: Env, first: Changes, second: Changes, q: Field, script: Script, hot: Changes,
                        left: Changes, k: Field)
    requires Launchable(env, first, q) && Launchable(env, second, q) && first[q] == second[q]
    requires NoCrash(script) && script.launch.Boots?
    requires k in HotPart(env, first) && k in left && !Same(k, left[k], first[k])
    ensures var (s1, healthy) := Tick(env, Sup(Dead, map[], None, 0, false), Some(Target(1, first)),
            script.(push := PushOk(hot)));
            var (s2, failed) := Tick(env, s1, Some(Target(2, second)), script.(push := PushRejected(left)));
            var (s3, back) := Tick(env, s2, Some(Target(1, first)), script);
            && healthy == Some(Healthy) && failed == Some(Failed) && back == Some(Healthy)
            && !Agrees(env, s3.proc, first)
  {
    BackAgain(env, first, second, q, script, hot, left);
    var s1 := Tick(env, Sup(Dead, map[], None, 0, false), Some(Target(1, first)), script.(push := PushOk(hot))).0;
    var s2 := Tick(env, s1, Some(Target(2, second)), script.(push := PushRejected(left))).0;
    Wrong(env, Tick(env, s2, Some(Target(1, first)), script).0.proc, first, k);
  }

  /** An input: with the shipped vLLM manifest and any launch setting, 16 sequences, then 8 sequences and 999999 tokens,
      of which vLLM takes the 8 and rejects the rest, as EngineHonesty.TakesHalf shows. */
  lemma StaleInput(env: Env, q: Field)
    requires Ships(env.manifest, VLLM_HOT) && IsCold(env, q) && q in env.flags
    ensures var first := map[q := Int(2), MaxNumSeqs := Int(16)];
            var second := map[q := Int(2), MaxNumSeqs := Int(8), MaxNumBatchedTokens := Int(999999)];
            && Launchable(env, first, q) && Launchable(env, second, q) && first[q] == second[q]
            && MaxNumSeqs in HotPart(env, first) && !Same(MaxNumSeqs, Int(8), first[MaxNumSeqs])
  {
    var first := map[q := Int(2), MaxNumSeqs := Int(16)];
    var second := map[q := Int(2), MaxNumSeqs := Int(8), MaxNumBatchedTokens := Int(999999)];
    IntsLaunch(env, first, q);
    IntsLaunch(env, second, q);
    assert env.manifest[MaxNumSeqs] == VLLM_HOT[MaxNumSeqs];
  }

  lemma IntsLaunch(env: Env, fields: Changes, q: Field)
    requires Ships(env.manifest, VLLM_HOT) && IsCold(env, q) && q in env.flags
    requires q in fields && MaxNumSeqs in fields && fields.Keys <= {q, MaxNumSeqs, MaxNumBatchedTokens}
    requires forall k | k in fields :: fields[k].Int? && fields[k].n >= 1
    ensures Launchable(env, fields, q)
  {
    assert env.manifest[MaxNumSeqs] == VLLM_HOT[MaxNumSeqs]
        && env.manifest[MaxNumBatchedTokens] == VLLM_HOT[MaxNumBatchedTokens];
  }
}
