/** What the manifest accepts, the engines accept: everything but their own ceilings has been checked before. */
module EngineAgreement {
  import opened Wrappers
  import opened PyValues
  import opened Manifest
  import V = VllmModel
  import S = SglangModel
  import E = MockEngine

  lemma CaseFolds(a: string, b: string)
    requires Lower(a) == Lower(b)
    ensures Upper(a) == Upper(b)
  {
    forall i | 0 <= i < |a| ensures Upper(a)[i] == Upper(b)[i] {
      assert Lower(a)[i] == LowerChar(a[i]) && Lower(b)[i] == LowerChar(b[i]);
    }
  }

  /** A level in any case, spelled like one of the choices, is one of the engine's four levels. */
  lemma LevelAgrees(s: string)
    requires Lower(s) in LowerAll(LEVELS)
    ensures LevelOf(Str(s)) == Some(Upper(s))
  {
    var i :| 0 <= i < |LEVELS| && LowerAll(LEVELS)[i] == Lower(s);
    CaseFolds(s, LEVELS[i]);
    assert Upper(LEVELS[i]) == LEVELS[i];
    assert LEVELS[i] in LOG_LEVELS;
  }

  /** vLLM: for every hot knob of the shipped manifest and every value it accepts, the engine accepts it exactly
      when it is within the ceiling of that scheduler generation, as the very number or level that was asked for. */
  lemma VllmAgrees(m: Manifest, c: V.Ceilings, k: Field, v: Value)
    requires Ships(m, VLLM_HOT) && k in VLLM_HOT && Judge(m, k, v).None?
    ensures V.Judge(c, k, v).Accept? <==>
            && (k == MaxNumSeqs ==> IntOf(v) <= c.seqs)
            && (k == MaxNumBatchedTokens ==> IntOf(v) <= c.batched)
    ensures V.Judge(c, k, v).Accept? && k != LogLevel ==> V.Judge(c, k, v).value == v
    ensures k == LogLevel ==> V.Judge(c, k, v).value == Str(Upper(v.s))
  {
    if k == LogLevel {
      LevelAgrees(v.s);
    }
  }

  /** SGLang: likewise for every knob but the policy, whose names the engine checks itself. */
  lemma SglangAgrees(m: Manifest, s: S.Scheduler, check: S.PolicyCheck, k: Field, v: Value)
    requires Ships(m, SGLANG_HOT) && k in SGLANG_HOT && k != SchedulePolicy && Judge(m, k, v).None?
    ensures S.Accepts(s, check, k, v) <==>
            && (k == MaxRunningRequests ==> IntOf(v) <= S.Ceiling(s))
            && (k == MaxPrefillTokens ==> IntOf(v) <= s.maxTotal)
  {
    if k == LogLevel {
      LevelAgrees(v.s);
    }
  }

  /** The mock engine, of either kind, agrees for every knob it has. */
  lemma MockAgrees(m: Manifest, e: E.State, k: Field, v: Value)
    requires (Ships(m, VLLM_HOT) && k in VLLM_HOT) || (Ships(m, SGLANG_HOT) && k in SGLANG_HOT)
    requires k in e.knobs && Judge(m, k, v).None?
    ensures E.Judge(e, k, v).Store? <==> (k in e.ceilings && m[k].vtype.IntT? ==> IntOf(v) <= e.ceilings[k])
  {
    if k == LogLevel {
      MockLevels(v.s);
    } else if k == SchedulePolicy {
      MockPolicies(v.s);
    } else if k != ScheduleConservativeness {
      IntKnobs(m, k, v);
    }
  }

  /** The other knobs are whole numbers at or above the engine's own floor. */
  lemma IntKnobs(m: Manifest, k: Field, v: Value)
    requires (Ships(m, VLLM_HOT) && k in VLLM_HOT) || (Ships(m, SGLANG_HOT) && k in SGLANG_HOT)
    requires k != LogLevel && k != SchedulePolicy && k != ScheduleConservativeness && Judge(m, k, v).None?
    ensures m[k].vtype.IntT? && v.Int? && v.n >= E.Lo(k)
  {
  }

  lemma MockLevels(s: string)
    requires Lower(s) in LowerAll(LEVELS)
    ensures E.IsLevel(Str(s))
  {
    var i :| 0 <= i < |LEVELS| && LowerAll(LEVELS)[i] == Lower(s);
    assert Lower("DEBUG") == "debug" && Lower("INFO") == "info" && Lower("WARNING") == "warning"
        && Lower("ERROR") == "error";
  }

  lemma MockPolicies(s: string)
    requires Lower(s) in LowerAll(POLICIES)
    ensures E.IsPolicy(Str(s))
  {
    var i :| 0 <= i < |POLICIES| && LowerAll(POLICIES)[i] == Lower(s);
    assert Lower(POLICIES[i]) == POLICIES[i];
  }

  /** So a whole version that the manifest accepts is rejected by vLLM in nothing but its two capped knobs. */
  lemma VllmVersionAgrees(m: Manifest, core: V.Core, fields: Changes)
    requires Ships(m, VLLM_HOT) && fields.Keys <= VLLM_HOT.Keys && IsEmpty(Rejected(m, fields))
    ensures var c := V.Recorded(core.sched);
            IsEmpty(V.RejectedBy(c, fields)) <==>
            && (MaxNumSeqs in fields ==> IsNumber(fields[MaxNumSeqs]) && IntOf(fields[MaxNumSeqs]) <= c.seqs)
            && (MaxNumBatchedTokens in fields ==>
                   IsNumber(fields[MaxNumBatchedTokens]) && IntOf(fields[MaxNumBatchedTokens]) <= c.batched)
  {
    var c := V.Recorded(core.sched);
    forall k | k in fields ensures Judge(m, k, fields[k]).None? {
      assert k in Rejected(m, fields) <==> Judge(m, k, fields[k]).Some?;
    }
    forall k | k in fields
      ensures V.Judge(c, k, fields[k]).Accept? <==>
              && (k == MaxNumSeqs ==> IntOf(fields[k]) <= c.seqs)
              && (k == MaxNumBatchedTokens ==> IntOf(fields[k]) <= c.batched)
    {
      VllmAgrees(m, c, k, fields[k]);
    }
    if !IsEmpty(V.RejectedBy(c, fields)) {
      var k :| k in V.RejectedBy(c, fields);
      assert V.Judge(c, k, fields[k]).Reject?;
    }
    forall k | k in fields && V.Judge(c, k, fields[k]).Reject? ensures !IsEmpty(V.RejectedBy(c, fields)) {
      assert k in V.RejectedBy(c, fields);
    }
  }

  // ------------------------------------------------------------ the other way

  lemma UpperLevels(s: string)
    requires Upper(s) in LOG_LEVELS
    ensures Lower(s) in LowerAll(LEVELS)
  {
    assert LEVELS[0] == "DEBUG" && LEVELS[1] == "INFO" && LEVELS[2] == "WARNING" && LEVELS[3] == "ERROR";
    var i := if Upper(s) == "DEBUG" then 0 else if Upper(s) == "INFO" then 1 else if Upper(s) == "WARNING" then 2
        else 3;
    LowerOfUpper(s);
    assert LowerAll(LEVELS)[i] == Lower(s);
  }

  lemma LowerOfUpper(s: string)
    ensures Lower(Upper(s)) == Lower(s)
  {
    forall i | 0 <= i < |s| ensures Lower(Upper(s))[i] == Lower(s)[i] {
      assert Upper(s)[i] == UpperChar(s[i]);
    }
  }

  /** vLLM takes nothing that the shipped manifest would refuse but bools and floats, which it takes as integers. */
  lemma VllmTakesNoMore(m: Manifest, c: V.Ceilings, k: Field, v: Value)
    requires Ships(m, VLLM_HOT) && V.Judge(c, k, v).Accept?
    ensures k in VLLM_HOT && (Judge(m, k, v).None? <==> !v.Bool? && !v.Float?)
  {
    if k == LogLevel {
      UpperLevels(v.s);
    }
    assert k in VLLM_HOT ==> m[k] == VLLM_HOT[k];
  }

  /** SGLang likewise for its sizes; and it takes a conservativeness below the manifest's least. */
  lemma SglangTakesNoMore(m: Manifest, s: S.Scheduler, check: S.PolicyCheck, k: Field, v: Value)
    requires Ships(m, SGLANG_HOT) && k != SchedulePolicy && S.Accepts(s, check, k, v)
    ensures k in SGLANG_HOT
    ensures k != ScheduleConservativeness ==> (Judge(m, k, v).None? <==> !v.Bool? && !v.Float?)
    ensures k == ScheduleConservativeness ==> (Judge(m, k, v).None? <==> !v.Bool? && NumOf(v) >= 0.01)
  {
    if k == LogLevel {
      UpperLevels(v.s);
    }
    assert k in SGLANG_HOT ==> m[k] == SGLANG_HOT[k];
  }

  /** And so does the mock of either kind, for the knobs it has. */
  lemma MockTakesNoMore(m: Manifest, e: E.State, k: Field, v: Value)
    requires (Ships(m, VLLM_HOT) && k in VLLM_HOT) || (Ships(m, SGLANG_HOT) && k in SGLANG_HOT)
    requires E.Judge(e, k, v).Store?
    ensures k != ScheduleConservativeness ==> (Judge(m, k, v).None? <==> !v.Bool? && !v.Float?)
    ensures k == ScheduleConservativeness ==> (Judge(m, k, v).None? <==> !v.Bool? && NumOf(v) >= 0.01)
  {
    if k == LogLevel {
      MockLevelListed(v.s);
    } else if k == SchedulePolicy {
      MockPolicyListed(v.s);
    } else if k != ScheduleConservativeness {
      IntKnobsFloor(m, k);
    }
  }

  /** The manifest's floor of a whole-number knob is the mock's, and it has no ceiling of its own. */
  lemma IntKnobsFloor(m: Manifest, k: Field)
    requires (Ships(m, VLLM_HOT) && k in VLLM_HOT) || (Ships(m, SGLANG_HOT) && k in SGLANG_HOT)
    requires k != LogLevel && k != SchedulePolicy && k != ScheduleConservativeness
    ensures m[k] == IntKnob(E.Lo(k) as real)
  {
  }

  lemma MockLevelListed(s: string)
    requires Lower(s) in E.LEVEL_NAMES
    ensures Lower(s) in LowerAll(LEVELS)
  {
    assert Lower("DEBUG") == "debug" && Lower("INFO") == "info" && Lower("WARNING") == "warning"
        && Lower("ERROR") == "error";
    assert LowerAll(LEVELS)[0] == "debug" && LowerAll(LEVELS)[1] == "info" && LowerAll(LEVELS)[2] == "warning"
        && LowerAll(LEVELS)[3] == "error";
  }

  lemma MockPolicyListed(s: string)
    requires Lower(s) in E.POLICY_NAMES
    ensures Lower(s) in LowerAll(POLICIES)
  {
    forall i | 0 <= i < |POLICIES| ensures LowerAll(POLICIES)[i] == POLICIES[i] {
      assert Lower(POLICIES[i]) == POLICIES[i];
    }
    assert POLICIES[0] == "fcfs" && POLICIES[1] == "lpm" && POLICIES[2] == "dfs-weight";
    assert POLICIES[3] == "lof" && POLICIES[4] == "random" && POLICIES[5] == "priority";
    var i :| 0 <= i < |POLICIES| && POLICIES[i] == Lower(s);
    assert LowerAll(POLICIES)[i] == Lower(s);
  }

  // ------------------------------------------------------- what a refusal says

  /** A range that vLLM names when it rejects a cap is the range it takes. */
  lemma VllmRangeIsTrue(c: V.Ceilings, k: Field, v: Value, n: int)
    requires V.Judge(c, k, v).Reject?
    ensures V.Judge(c, k, v).reason.OutOfRange? ==>
              (V.Judge(c, k, Int(n)).Accept? <==> 1 <= n <= V.Judge(c, k, v).reason.ceiling)
    ensures V.Judge(c, k, v).reason == V.NegativeThreshold ==> (V.Judge(c, k, Int(n)).Accept? <==> n >= 0)
    ensures V.Judge(c, k, v).reason == V.UnknownKnob <==> k !in VLLM_HOT
    ensures V.Judge(c, k, v).reason == V.NotALevel <==> k == LogLevel
  {
  }

  /** And so is the mock's. */
  lemma MockRangeIsTrue(e: E.State, k: Field, v: Value, n: int)
    requires E.Judge(e, k, v).Reject?
    ensures var reason := E.Judge(e, k, v).reason;
            && (reason.OutOfRange? ==>
                  (E.Judge(e, k, Int(n)).Store? <==> reason.lo <= n && (reason.hi.Some? ==> n <= reason.hi.value)))
            && (reason == E.UnknownKnob <==> k !in e.knobs)
            && (reason == E.NotAChoice ==> k in {SchedulePolicy, LogLevel} && !E.Judge(e, k, Int(n)).Store?)
            && (reason == E.NotPositive ==> k == ScheduleConservativeness && (E.Judge(e, k, Int(n)).Store? <==> n > 0))
  {
  }

  // -------------------------------------------------------------------- bools

  /** A bool is a number to every engine, 1 or 0, and reads back equal to it; the manifest lets none through. */
  lemma BoolsStopAtTheManifest(m: Manifest, k: Field, b: bool)
    ensures Judge(m, k, Bool(b)).Some?
    ensures Eq(Bool(b), Int(if b then 1 else 0)) && Eq(Bool(b), Float(if b then 1.0 else 0.0))
  {
  }

  lemma BoolsAtVllm(c: V.Ceilings, b: bool)
    ensures V.Judge(c, MaxNumSeqs, Bool(b)) == if b && c.seqs >= 1 then V.Accept(Int(1))
            else V.Reject(V.OutOfRange(c.seqs))
    ensures V.Judge(c, LongPrefillTokenThreshold, Bool(b)) == V.Accept(Int(if b then 1 else 0))
  {
  }

  lemma BoolsAtSglang(s: S.Scheduler, check: S.PolicyCheck, b: bool)
    ensures S.Accepts(s, check, MaxQueuedRequests, Bool(b)) && (S.Accepts(s, check, ChunkedPrefillSize, Bool(b)) <==> b)
    ensures S.Accepts(s, check, ScheduleConservativeness, Bool(b)) <==> b
  {
  }

  // ------------------------------------------------------------- booted mocks

  /** A booted SGLang mock has the hot knobs of its engine's manifest and no others, with its two caps at their
      ceilings. */
  lemma SglangBootShape(mrr: int, mqr: int, cps: int, tokens: int)
    ensures var e := E.Boot(E.SglangMock, mrr, mqr, cps, tokens);
            && e.knobs.Keys == SGLANG_HOT.Keys
                && e.ceilings == map[MaxRunningRequests := mrr, MaxPrefillTokens := tokens]
            && e.knobs[MaxRunningRequests] == Int(mrr) && e.knobs[MaxPrefillTokens] == Int(tokens)
            && e.knobs[MaxQueuedRequests] == Int(mqr) && e.knobs[ChunkedPrefillSize] == Int(cps)
            && e.tokens == tokens && e.calls == 0 && e.lastReinit.None?
  {
  }

  /** And so has a booted vLLM mock. */
  lemma VllmBootShape(mrr: int, mqr: int, cps: int, tokens: int)
    ensures var e := E.Boot(E.VllmMock, mrr, mqr, cps, tokens);
            && e.knobs.Keys == VLLM_HOT.Keys && e.ceilings == map[MaxNumSeqs := mrr, MaxNumBatchedTokens := tokens]
            && e.knobs[MaxNumSeqs] == Int(mrr) && e.knobs[MaxNumBatchedTokens] == Int(tokens)
            && e.tokens == tokens && e.calls == 0 && e.lastReinit.None?
  {
  }
}
