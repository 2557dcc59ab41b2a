/** What an adapter's ok to a warm reinit means: which settings an engine that gave it then holds. */
module WarmHonesty {
  import opened Wrappers
  import opened PyValues
  import opened Manifest
  import opened SupervisorModel
  import opened EngineHonesty
  import V = VllmModel
  import S = SglangModel
  import E = MockEngine

  /** How the rebuilds of a reinit go, and whether an SGLang scheduler is busy. */
  datatype How = How(vllm: V.Rebuild, sglang: S.Rebuild, busy: bool)

  /** The settings an engine holds, by its own names. A mock has the sizes and nothing else. */
  function Held(g: Engine): Changes {
    match g
    case Vllm(core) =>
      map[GpuMemoryUtilization := Float(core.cfg.gpu), MaxNumSeqs := Int(core.cfg.seqs),
          MaxNumBatchedTokens := Int(core.cfg.batched)]
    case Sglang(s, _, _, _) => s.runner.config[MemFractionStatic := Float(s.runner.memFraction)]
    case Mock(e) =>
      match e.kind
      case SglangMock => map[MaxTotalTokens := Int(e.tokens), MaxRunningRequests := Get(e.knobs, MaxRunningRequests)]
      case VllmMock => map[MaxNumSeqs := Get(e.knobs, MaxNumSeqs),
          MaxNumBatchedTokens := Get(e.knobs, MaxNumBatchedTokens)]
  }

  /** The request is answered with ok. */
  predicate Took(g: Engine, sent: Changes, how: How) {
    match g
    case Vllm(core) => V.ReinitOutcome(core, sent, how.vllm).Rebuilt?
    case Sglang(s, check, _, _) => S.CallAnswer(s, sent, map[], how.busy, how.sglang, check) == Some((true, map[]))
    case Mock(e) => E.ReinitOutcome(e, sent).Done?
  }

  function AfterWarm(g: Engine, sent: Changes, how: How): Engine
    requires g.Sglang? ==> g.ratio.decaySteps > 0.0
  {
    match g
    case Vllm(core) => Vllm(V.Reinit(core, sent, how.vllm))
    case Sglang(s, check, ratio, stock) => Sglang(S.CallState(s, sent, map[], how.busy, how.sglang, check, ratio),
        check, ratio, stock)
    case Mock(e) => Mock(E.Reinit(e, sent))
  }

  /** The settings of a process whose engine went from `g` to `g'`: what was asked of it, where it holds such a setting,
      and whatever else moved. */
  function Settled(was: Changes, g: Engine, g': Engine, sent: Changes): Changes {
    was + map k | k in Held(g') && (k in sent || k !in Held(g) || Held(g)[k] != Held(g')[k]) :: Held(g')[k]
  }

  predicate Whole(v: Value) {
    IsNumber(v) && NumOf(v) == IntOf(v) as real
  }

  /** What the request must be like for an ok to mean that it was done: vLLM stores a size as a whole number; a mock
      keeps nothing but sizes; the patched SGLang stores what it is sent. */
  predicate Truthful(g: Engine, sent: Changes) {
    match g
    case Vllm(_) =>
      (MaxNumSeqs in sent ==> Whole(sent[MaxNumSeqs]))
          && (MaxNumBatchedTokens in sent ==> Whole(sent[MaxNumBatchedTokens]))
    case Sglang(_, _, _, _) => true
    case Mock(e) => sent.Keys <= Held(g).Keys && forall k | k in sent :: Whole(sent[k])
  }

  /** What each engine then holds of the fields it was sent, and that no other setting of it moved. */
  ghost predicate Moved(g: Engine, g': Engine, sent: Changes) {
    && Held(g').Keys >= Held(g).Keys
    && (forall k | k in Held(g') && k !in sent :: k in Held(g) && Held(g')[k] == Held(g)[k])
  }

  lemma VllmTook(core: V.Core, sent: Changes, how: How)
    requires Took(Vllm(core), sent, how)
    ensures var g := Vllm(core); var g' := AfterWarm(g, sent, how);
            && Moved(g, g', sent) && sent.Keys <= Held(g').Keys
            && ((forall k | k in sent :: Eq(Held(g')[k], sent[k])) <==> Truthful(g, sent))
  {
    var g := Vllm(core);
    var held := Held(AfterWarm(g, sent, how));
    assert GpuMemoryUtilization in sent ==> Eq(held[GpuMemoryUtilization], sent[GpuMemoryUtilization]);
    assert MaxNumSeqs in sent ==> (Eq(held[MaxNumSeqs], sent[MaxNumSeqs]) <==> Whole(sent[MaxNumSeqs]));
    assert MaxNumBatchedTokens in sent ==>
        (Eq(held[MaxNumBatchedTokens], sent[MaxNumBatchedTokens]) <==> Whole(sent[MaxNumBatchedTokens]));
  }

  lemma SglangTook(g: Engine, sent: Changes, how: How)
    requires g.Sglang? && g.ratio.decaySteps > 0.0 && !IsEmpty(sent) && Took(g, sent, how)
    ensures var g' := AfterWarm(g, sent, how);
            Moved(g, g', sent) && sent.Keys <= Held(g').Keys && forall k | k in sent :: Eq(Held(g')[k], sent[k])
  {
    var s := g.s;
    var t := S.Reinit(S.Recorded(s), sent, how.busy, how.sglang);
    assert t.runner.config == s.runner.config + sent;
    assert t.runner.memFraction == if MemFractionStatic in sent then NumOf(sent[MemFractionStatic])
        else s.runner.memFraction;
    assert AfterWarm(g, sent, how).s.runner == t.runner;
  }

  lemma MockTook(e: E.State, sent: Changes, how: How)
    requires Took(Mock(e), sent, how)
    ensures var g := Mock(e); var g' := AfterWarm(g, sent, how);
            && Moved(g, g', sent) && Held(g').Keys == Held(g).Keys
            && forall k | k in sent && k in Held(g') :: IsNumber(sent[k]) && Held(g')[k] == Int(IntOf(sent[k]))
  {
    match e.kind {
      case SglangMock => E.SglangReinitSets(e, sent);
      case VllmMock => E.VllmReinitSets(e, sent);
    }
  }

  /** A setting that was asked for reads as what the engine holds, or as it did when the engine holds no such setting;
      no other setting moved. */
  lemma SettledAt(was: Changes, g: Engine, g': Engine, sent: Changes, k: Field)
    requires Moved(g, g', sent)
    ensures Get(Settled(was, g, g', sent), k) == if k in sent && k in Held(g') then Held(g')[k] else Get(was, k)
  {
  }

  ghost predicate Done(settled: Changes, sent: Changes) {
    forall k | k in sent :: Eq(Get(settled, k), sent[k])
  }

  /** When an ok to a warm reinit means that it was done. The supervisor sends only what differs from the settings there
      were; then for vLLM and the patched SGLang, and for the mocks, the settings asked for are the ones held exactly
      when the request is one the engine stores as it is. No other setting moves. */
  lemma WarmOkIff(was: Changes, g: Engine, sent: Changes, how: How)
    requires (g.Sglang? ==> g.ratio.decaySteps > 0.0) && !IsEmpty(sent) && Took(g, sent, how)
    requires forall k | k in sent :: !Eq(Get(was, k), sent[k])
    ensures var settled := Settled(was, g, AfterWarm(g, sent, how), sent);
            && (Done(settled, sent) <==> Truthful(g, sent))
            && (forall k | k !in sent :: Get(settled, k) == Get(was, k))
  {
    var g' := AfterWarm(g, sent, how);
    var settled := Settled(was, g, g', sent);
    match g {
      case Vllm(core) => VllmTook(core, sent, how);
      case Sglang(_, _, _, _) => SglangTook(g, sent, how);
      case Mock(e) => MockTook(e, sent, how);
    }
    forall k ensures Get(settled, k) == if k in sent && k in Held(g') then Held(g')[k] else Get(was, k) {
      SettledAt(was, g, g', sent, k);
    }
  }

  /** Done is all there is to it: the settings are then those there were, overlaid by what was asked. */
  lemma DoneIsOverlay(was: Changes, settled: Changes, sent: Changes)
    requires Done(settled, sent) && forall k | k !in sent :: Get(settled, k) == Get(was, k)
    ensures forall k :: Eq(Get(settled, k), Get(was + sent, k))
  {
  }
}
