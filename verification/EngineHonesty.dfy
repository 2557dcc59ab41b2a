/** What an adapter's ok to a hot update means, for every engine it can speak to. */
module EngineHonesty {
  import opened Wrappers
  import opened PyValues
  import opened Manifest
  import opened Targets
  import opened SupervisorModel
  import opened SupervisorSafety
  import V = VllmModel
  import S = SglangModel
  import E = MockEngine
  import EngineAgreement

  /** An engine when a hot update reaches it: a patched vLLM core, a patched SGLang scheduler, or the mock of either.
      `stock` is what SGLang's own allowlist says of the keys the patch leaves to it. */
  datatype Engine =
    | Vllm(core: V.Core)
    | Sglang(s: S.Scheduler, check: S.PolicyCheck, ratio: S.RatioEnv, stock: bool)
    | Mock(e: E.State)

  /** The knobs GET /trimtab/knobs reports. */
  function VllmLive(core: V.Core): Changes {
    map[MaxNumSeqs := Int(V.Reported(core.sched)), MaxNumBatchedTokens := Int(core.sched.tokens),
        LongPrefillTokenThreshold := Int(core.cfg.longPrefill),
        LogLevel := if core.sched.logLevel.Some? then Str(core.sched.logLevel.value) else Null]
  }

  /** The knobs /get_server_info reports; a policy that was never set by an update is the boot flag, which is not
      part of the scheduler modelled here. */
  function SglangLive(s: S.Scheduler): Changes {
    map[MaxRunningRequests := Int(s.maxRunning), MaxQueuedRequests := Int(s.maxQueued),
        ChunkedPrefillSize := Int(s.chunked),
        MaxPrefillTokens := Int(s.maxPrefill),
        ScheduleConservativeness := if s.conservativeness.Some? then Float(s.conservativeness.value) else Null,
        LogLevel := if s.logLevel.Some? then Str(s.logLevel.value) else Null]
    + if s.policy.Some? then map[SchedulePolicy := s.policy.value.0] else map[]
  }

  /** Every change reads back as it was sent, an absent knob as None. */
  ghost predicate ReadsBack(live: Changes, changes: Changes) {
    forall k | k in changes :: Eq(Get(live, k), changes[k])
  }

  /** The answer to the update request: vLLM rejects nothing; SGLang takes every hot knob, or when keys are left over
      whatever its own allowlist says. */
  ghost predicate Updated(g: Engine, hot: Changes) {
    match g
    case Vllm(core) => IsEmpty(V.RejectedBy(V.Recorded(core.sched), hot))
    case Sglang(s, check, _, stock) => if hot.Keys <= S.HOT then S.AllTaken(s, check, hot) else stock
    case Mock(e) => IsEmpty(E.Refused(e, hot))
  }

  function LiveAfter(g: Engine, hot: Changes): Changes
    requires g.Sglang? ==> g.ratio.decaySteps > 0.0
  {
    match g
    case Vllm(core) => VllmLive(V.SetKnobs(core, hot))
    case Sglang(s, check, ratio, _) => SglangLive(S.ApplyHot(s, check, ratio, hot))
    case Mock(e) => E.Apply(e, hot).knobs
  }

  /** Only the SGLang adapter compares what it reads back. */
  predicate Compares(g: Engine) {
    g.Sglang? || (g.Mock? && g.e.kind.SglangMock?)
  }

  /** `set_hot` against this engine. */
  ghost function Answer(g: Engine, hot: Changes): Pushing
    requires g.Sglang? ==> g.ratio.decaySteps > 0.0
  {
    var live := LiveAfter(g, hot);
    if Updated(g, hot) && (Compares(g) ==> ReadsBack(live, hot)) then PushOk(live) else PushRejected(live)
  }

  /** The manifest is the one shipped for this engine, as far as vLLM's hot knobs go: its adapter trusts the engine's
      word, so what the manifest lets through matters. */
  ghost predicate Matches(m: Manifest, g: Engine) {
    match g
    case Vllm(_) => Ships(m, VLLM_HOT)
    case Sglang(_, _, ratio, _) => ratio.decaySteps > 0.0
    case Mock(e) => e.kind.VllmMock? ==> Ships(m, VLLM_HOT) && e.knobs.Keys == VLLM_HOT.Keys
  }

  // ------------------------------------------------------------ what ok means

  lemma ReadBackHolds(m: Manifest, live: Changes, hot: Changes)
    requires IsEmpty(Rejected(m, hot)) && ReadsBack(live, hot)
    ensures Holds(live, hot)
  {
    forall k | k in hot ensures k in live && Same(k, live[k], hot[k]) {
      AcceptedValue(m, hot, k);
      assert Eq(Get(live, k), hot[k]);
    }
  }

  /** A value the manifest accepts is never None. */
  lemma AcceptedValue(m: Manifest, hot: Changes, k: Field)
    requires IsEmpty(Rejected(m, hot)) && k in hot
    ensures Judge(m, k, hot[k]).None? && hot[k] != Null
  {
    assert k in Rejected(m, hot) <==> Judge(m, k, hot[k]).Some?;
  }

  /** The `applied` of vLLM's answer is what its get_knobs then reports. */
  lemma AppliedIsReported(core: V.Core, changes: Changes, k: Field)
    requires k in V.AppliedBy(V.Recorded(core.sched), changes)
    ensures var live := VllmLive(V.SetKnobs(core, changes));
            k in live && live[k] == V.AppliedBy(V.Recorded(core.sched), changes)[k]
  {
    VllmReports(core, changes, k);
  }

  /** vLLM: of a version the manifest lets through, every value the engine does not reject is the one it reports. */
  lemma VllmHolds(m: Manifest, core: V.Core, hot: Changes)
    requires Ships(m, VLLM_HOT) && IsEmpty(Rejected(m, hot)) && IsEmpty(V.RejectedBy(V.Recorded(core.sched), hot))
    ensures Holds(VllmLive(V.SetKnobs(core, hot)), hot)
  {
    var c := V.Recorded(core.sched);
    var live := VllmLive(V.SetKnobs(core, hot));
    forall k | k in hot ensures k in live && Same(k, live[k], hot[k]) {
      AcceptedValue(m, hot, k);
      assert k in V.RejectedBy(c, hot) <==> V.Judge(c, k, hot[k]).Reject?;
      VllmReports(core, hot, k);
      EngineAgreement.VllmAgrees(m, c, k, hot[k]);
    }
  }

  /** What vLLM reports for a knob it has just taken is the value it judged it to be. */
  lemma VllmReports(core: V.Core, hot: Changes, k: Field)
    requires k in hot && V.Judge(V.Recorded(core.sched), k, hot[k]).Accept?
    ensures var live := VllmLive(V.SetKnobs(core, hot));
            k in VLLM_HOT && k in live && live[k] == V.Judge(V.Recorded(core.sched), k, hot[k]).value
  {
  }

  lemma MockValue(m: Manifest, e: E.State, k: Field, v: Value)
    requires Ships(m, VLLM_HOT) && k in VLLM_HOT && Judge(m, k, v).None? && E.Judge(e, k, v).Store?
    ensures Same(k, E.Judge(e, k, v).value, v)
  {
    assert m[k] == VLLM_HOT[k] && k != SchedulePolicy && k != ScheduleConservativeness;
  }

  lemma MockHolds(m: Manifest, e: E.State, hot: Changes)
    requires Ships(m, VLLM_HOT) && e.knobs.Keys == VLLM_HOT.Keys
    requires IsEmpty(Rejected(m, hot)) && IsEmpty(E.Refused(e, hot))
    ensures Holds(E.Apply(e, hot).knobs, hot)
  {
    var live := E.Apply(e, hot).knobs;
    forall k | k in hot ensures k in live && Same(k, live[k], hot[k]) {
      AcceptedValue(m, hot, k);
      assert k in E.Refused(e, hot) <==> E.Judge(e, k, hot[k]).Reject?;
      assert k in E.Stored(e, hot) && live[k] == E.Judge(e, k, hot[k]).value;
      MockValue(m, e, k, hot[k]);
    }
  }

  /** An ok on a hot part the manifest let through means the engine holds every value of it, whichever engine it is. */
  lemma OkHolds(m: Manifest, g: Engine, hot: Changes)
    requires Matches(m, g) && IsEmpty(Rejected(m, hot)) && Answer(g, hot).PushOk?
    ensures Holds(Answer(g, hot).hot, hot)
  {
    if Compares(g) {
      ReadBackHolds(m, LiveAfter(g, hot), hot);
    } else if g.Vllm? {
      VllmHolds(m, g.core, hot);
    } else {
      MockHolds(m, g.e, hot);
    }
  }

  /** vLLM takes 16; then of 8 sequences and 999999 tokens it takes the one and rejects the other. */
  lemma TakesHalf(core: V.Core, first: Changes, second: Changes)
    requires first == map[MaxNumSeqs := Int(16)] && V.Recorded(core.sched).seqs >= 16
    requires second == map[MaxNumSeqs := Int(8), MaxNumBatchedTokens := Int(999999)]
            && V.Recorded(core.sched).batched < 999999
    ensures Answer(Vllm(core), first).PushOk?
    ensures Answer(Vllm(V.SetKnobs(core, first)), second).PushRejected?
    ensures Get(Answer(Vllm(V.SetKnobs(core, first)), second).hot, MaxNumSeqs) == Int(8)
  {
    var c := V.Recorded(core.sched);
    assert V.Recorded(V.SetKnobs(core, first).sched) == c;
    assert V.Judge(c, MaxNumBatchedTokens, second[MaxNumBatchedTokens]).Reject?;
    assert MaxNumBatchedTokens in V.RejectedBy(c, second);
  }

  // ------------------------------------------ which versions an SGLang takes

  /** What a version must meet beyond the manifest: the two caps, and the level as the engine spells it. */
  predicate Within(hot: Changes, running: int, prefill: int) {
    && (MaxRunningRequests in hot ==> IsNumber(hot[MaxRunningRequests]) && IntOf(hot[MaxRunningRequests]) <= running)
    && (MaxPrefillTokens in hot ==> IsNumber(hot[MaxPrefillTokens]) && IntOf(hot[MaxPrefillTokens]) <= prefill)
    && (LogLevel in hot ==> hot[LogLevel].Str? && hot[LogLevel].s == Upper(hot[LogLevel].s))
  }

  predicate KeyWithin(k: Field, v: Value, running: int, prefill: int) {
    && (k == MaxRunningRequests ==> IsNumber(v) && IntOf(v) <= running)
    && (k == MaxPrefillTokens ==> IsNumber(v) && IntOf(v) <= prefill)
    && (k == LogLevel ==> v.Str? && v.s == Upper(v.s))
  }

  lemma WithinByKey(hot: Changes, running: int, prefill: int)
    ensures Within(hot, running, prefill) <==> forall k | k in hot :: KeyWithin(k, hot[k], running, prefill)
  {
    if forall k | k in hot :: KeyWithin(k, hot[k], running, prefill) {
      assert MaxRunningRequests in hot ==> KeyWithin(MaxRunningRequests, hot[MaxRunningRequests], running, prefill);
      assert MaxPrefillTokens in hot ==> KeyWithin(MaxPrefillTokens, hot[MaxPrefillTokens], running, prefill);
      assert LogLevel in hot ==> KeyWithin(LogLevel, hot[LogLevel], running, prefill);
    }
  }

  /** One key against the mock: stored, and read back as sent. */
  predicate MockTakesKey(e: E.State, k: Field, v: Value) {
    E.Judge(e, k, v).Store? && Eq(E.Judge(e, k, v).value, v)
  }

  lemma MockTakes(m: Manifest, e: E.State, k: Field, v: Value)
    requires Ships(m, SGLANG_HOT) && k in SGLANG_HOT && Judge(m, k, v).None? && k in e.knobs
    requires e.ceilings.Keys == {MaxRunningRequests, MaxPrefillTokens}
    ensures MockTakesKey(e, k, v) <==>
            KeyWithin(k, v, e.ceilings[MaxRunningRequests], e.ceilings[MaxPrefillTokens])
  {
    assert m[k] == SGLANG_HOT[k];
    EngineAgreement.MockAgrees(m, e, k, v);
  }

  /** Of the versions the manifest lets through, the SGLang mock acknowledges exactly those that name no other knob
      than the patched seven and are within its two caps with the level in upper case. */
  lemma MockVersionAgrees(m: Manifest, e: E.State, hot: Changes)
    requires Ships(m, SGLANG_HOT) && IsEmpty(Rejected(m, hot))
    requires e.kind.SglangMock? && e.knobs.Keys == SGLANG_HOT.Keys
            && e.ceilings.Keys == {MaxRunningRequests, MaxPrefillTokens}
    ensures E.SetHotOk(e, hot) <==>
            hot.Keys <= SGLANG_HOT.Keys && Within(hot, e.ceilings[MaxRunningRequests], e.ceilings[MaxPrefillTokens])
  {
    var running, prefill := e.ceilings[MaxRunningRequests], e.ceilings[MaxPrefillTokens];
    WithinByKey(hot, running, prefill);
    MockOkByKey(e, hot);
    forall k | k in hot
      ensures MockTakesKey(e, k, hot[k]) <==> k in SGLANG_HOT && KeyWithin(k, hot[k], running, prefill)
    {
      if k in SGLANG_HOT {
        AcceptedValue(m, hot, k);
        MockTakes(m, e, k, hot[k]);
      }
    }
  }

  lemma MockOkByKey(e: E.State, hot: Changes)
    requires e.kind.SglangMock?
    ensures E.SetHotOk(e, hot) <==> forall k | k in hot :: MockTakesKey(e, k, hot[k])
  {
    var after := E.Apply(e, hot).knobs;
    forall k | k in hot
      ensures k in E.Refused(e, hot) <==> E.Judge(e, k, hot[k]).Reject?
      ensures E.Judge(e, k, hot[k]).Store? ==> k in after && after[k] == E.Judge(e, k, hot[k]).value
    {
      assert E.Judge(e, k, hot[k]).Store? ==> k in E.Stored(e, hot);
    }
    if !IsEmpty(E.Refused(e, hot)) {
      var k :| k in E.Refused(e, hot);
      assert !MockTakesKey(e, k, hot[k]);
    }
  }

  /** What the scheduler reports for a knob it has just taken, by knob. */
  function Reads(k: Field, v: Value): Value
    requires k in SGLANG_HOT && (k == LogLevel ==> v.Str?) && (k != LogLevel && k != SchedulePolicy ==> IsNumber(v))
  {
    if k == SchedulePolicy then v
    else if k == LogLevel then Str(Upper(v.s))
    else if k == ScheduleConservativeness then Float(NumOf(v))
    else Int(IntOf(v))
  }

  lemma SglangReports(s: S.Scheduler, check: S.PolicyCheck, ratio: S.RatioEnv, hot: Changes, k: Field)
    requires ratio.decaySteps > 0.0 && k in SGLANG_HOT && S.Takes(s, check, hot, k)
    requires (k == LogLevel ==> hot[k].Str?) && (k != LogLevel && k != SchedulePolicy ==> IsNumber(hot[k]))
    ensures Get(SglangLive(S.ApplyHot(s, check, ratio, hot)), k) == Reads(k, hot[k])
  {
  }

  /** One key against the scheduler: accepted, and read back as sent. */
  predicate SglangTakesKey(s: S.Scheduler, check: S.PolicyCheck, k: Field, v: Value) {
    S.Accepts(s, check, k, v) && (k == LogLevel ==> v.Str? && v.s == Upper(v.s))
  }

  lemma SglangTakes(m: Manifest, s: S.Scheduler, check: S.PolicyCheck, k: Field, v: Value)
    requires Ships(m, SGLANG_HOT) && k in SGLANG_HOT && Judge(m, k, v).None?
    ensures (k == LogLevel ==> v.Str?) && (k != LogLevel && k != SchedulePolicy ==> IsNumber(v))
    ensures Eq(Reads(k, v), v) <==> (k == LogLevel ==> v.s == Upper(v.s))
    ensures SglangTakesKey(s, check, k, v) <==>
            KeyWithin(k, v, S.Ceiling(s), s.maxTotal) && (k == SchedulePolicy ==> check(v).Some?)
  {
    assert m[k] == SGLANG_HOT[k];
    if k != SchedulePolicy {
      EngineAgreement.SglangAgrees(m, s, check, k, v);
    }
  }

  lemma SglangOkByKey(m: Manifest, s: S.Scheduler, check: S.PolicyCheck, ratio: S.RatioEnv, stock: bool, hot: Changes)
    requires Ships(m, SGLANG_HOT) && hot.Keys <= SGLANG_HOT.Keys && IsEmpty(Rejected(m, hot)) && ratio.decaySteps > 0.0
    ensures Answer(Sglang(s, check, ratio, stock), hot).PushOk? <==>
            forall k | k in hot :: SglangTakesKey(s, check, k, hot[k])
  {
    var live := SglangLive(S.ApplyHot(s, check, ratio, hot));
    assert hot.Keys <= S.HOT;
    forall k | k in hot
      ensures S.Accepts(s, check, k, hot[k]) ==> (Eq(Get(live, k), hot[k]) <==> SglangTakesKey(s, check, k, hot[k]))
    {
      AcceptedValue(m, hot, k);
      SglangTakes(m, s, check, k, hot[k]);
      if S.Accepts(s, check, k, hot[k]) {
        SglangReports(s, check, ratio, hot, k);
      }
    }
  }

  /** An SGLang server, patched or mock, with the knobs it boots with. */
  ghost predicate SpeaksSglang(g: Engine) {
    match g
    case Vllm(_) => false
    case Sglang(_, _, ratio, _) => ratio.decaySteps > 0.0
    case Mock(e) => e.kind.SglangMock? && e.knobs.Keys == SGLANG_HOT.Keys
  }

  lemma NotReadBack(live: Changes, hot: Changes, k: Field)
    requires k in hot && k !in live && hot[k] != Null
    ensures !ReadsBack(live, hot)
  {
    assert !Eq(Get(live, k), hot[k]);
  }

  lemma SglangLiveKeys(s: S.Scheduler)
    ensures SglangLive(s).Keys <= SGLANG_HOT.Keys
  {
  }

  lemma ReportsTheSeven(g: Engine, hot: Changes)
    requires SpeaksSglang(g)
    ensures LiveAfter(g, hot).Keys <= SGLANG_HOT.Keys
  {
    if g.Sglang? {
      SglangLiveKeys(S.ApplyHot(g.s, g.check, g.ratio, hot));
    } else {
      MockLiveKeys(g.e, hot);
    }
  }

  lemma MockLiveKeys(e: E.State, hot: Changes)
    ensures E.Apply(e, hot).knobs.Keys == e.knobs.Keys
  {
  }

  /** What it reports is about the patched seven alone, so a version that names another hot knob of the manifest, such
      as one of those the stock allowlist takes, is never acknowledged. */
  lemma NeverAcknowledged(m: Manifest, g: Engine, hot: Changes, k: Field)
    requires SpeaksSglang(g) && IsEmpty(Rejected(m, hot)) && k in hot && k !in SGLANG_HOT
    ensures Answer(g, hot).PushRejected?
  {
    AcceptedValue(m, hot, k);
    ReportsTheSeven(g, hot);
    NotReadBack(LiveAfter(g, hot), hot, k);
  }

  /** The patched scheduler likewise, and the policy must be one the engine can run. */
  lemma SglangVersionAgrees(m: Manifest, s: S.Scheduler, check: S.PolicyCheck, ratio: S.RatioEnv, stock: bool,
                            hot: Changes)
    requires Ships(m, SGLANG_HOT) && IsEmpty(Rejected(m, hot)) && ratio.decaySteps > 0.0
    ensures Answer(Sglang(s, check, ratio, stock), hot).PushOk? <==>
            && hot.Keys <= SGLANG_HOT.Keys && Within(hot, S.Ceiling(s), s.maxTotal)
            && (SchedulePolicy in hot ==> check(hot[SchedulePolicy]).Some?)
  {
    if hot.Keys <= SGLANG_HOT.Keys {
      SglangOkByKey(m, s, check, ratio, stock, hot);
      WithinByKey(hot, S.Ceiling(s), s.maxTotal);
      forall k | k in hot
        ensures SglangTakesKey(s, check, k, hot[k]) <==>
                KeyWithin(k, hot[k], S.Ceiling(s), s.maxTotal) && (k == SchedulePolicy ==> check(hot[k]).Some?)
      {
        AcceptedValue(m, hot, k);
        SglangTakes(m, s, check, k, hot[k]);
      }
    } else {
      var k :| k in hot && k !in SGLANG_HOT;
      NeverAcknowledged(m, Sglang(s, check, ratio, stock), hot, k);
    }
  }
}
