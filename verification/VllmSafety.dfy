/** What every step and every run of the vLLM live-cap protocol keeps. */
module VllmSafety {
  import opened Wrappers
  import opened PyValues
  import opened VllmModel

  /** The engine's assertion `len(running) <= cap`, the caps below what this generation was sized for, a pending target
      no higher than the cap, and a configuration that can size the next generation. */
  ghost predicate Inv(core: Core) {
    var s := core.sched;
    && |s.running| <= s.cap <= Recorded(s).seqs
    && s.tokens <= Recorded(s).batched
    && (s.pending.Some? ==> s.ceilings.Some? && 1 <= s.pending.value <= s.cap)
    && core.cfg.seqs >= 0
  }

  /** The scheduler is the one its configuration describes. */
  ghost predicate Sized(core: Core) {
    Recorded(core.sched) == Ceilings(core.cfg.seqs, core.cfg.batched)
  }

  /** The max_num_seqs a rebuild would size the next scheduler with. */
  function NextSeqs(core: Core, fields: Knobs): int
    requires Converts(fields)
  {
    if MaxNumSeqs in fields then IntOf(fields[MaxNumSeqs]) else core.cfg.seqs
  }

  /** Checkable before the call: no reinit asks for a negative number of sequences. */
  ghost predicate NoNegativeSizing(a: Action) {
    a.DoReinit? && MaxNumSeqs in a.fields && IsNumber(a.fields[MaxNumSeqs]) ==> IntOf(a.fields[MaxNumSeqs]) >= 0
  }

  lemma BootIsSafe(cfg: Config, sleepMode: bool)
    ensures Inv(Core(cfg, Boot(cfg), sleepMode)) <==> cfg.seqs >= 0
    ensures Sized(Core(cfg, Boot(cfg), sleepMode))
  {
  }

  /** A failed reinit, wherever it failed, puts the three sizing settings back, and the scheduler that comes up
      has its cap and ceilings from them, nothing pending and empty queues. One that cannot even release the failed
      try's memory leaves the old scheduler beside what that try had stored. */
  lemma RestoreIsExact(core: Core, fields: Knobs, r: Rebuild)
    ensures ReinitOutcome(core, fields, r).Restored? ==>
              && Reinit(core, fields, r).cfg == core.cfg
              && Reinit(core, fields, r).sched
                 == Sched(core.cfg.seqs, None, core.cfg.batched, None, Some(Ceilings(core.cfg.seqs, core.cfg.batched)),
                     [], [])
    ensures ReinitOutcome(core, fields, r).Raises? ==> Reinit(core, fields, r) == core
    ensures ReinitOutcome(core, fields, r).Refused? ==> Reinit(core, fields, r) == core
    ensures ReinitOutcome(core, fields, r).Stranded? ==>
              Reinit(core, fields, r).sched == core.sched
                  && Reinit(core, fields, r).cfg == Store(core.cfg, fields, r.failAt)
  {
  }

  /** Every reinit but a stranded one leaves a scheduler that is the one its configuration describes; a stranded one
      does exactly when the sizes it stored are the old ones. */
  lemma SizedIff(core: Core, fields: Knobs, r: Rebuild)
    requires Sized(core)
    ensures Sized(Reinit(core, fields, r)) <==>
            (ReinitOutcome(core, fields, r).Stranded? ==>
               && Store(core.cfg, fields, r.failAt).seqs == core.cfg.seqs
               && Store(core.cfg, fields, r.failAt).batched == core.cfg.batched)
  {
  }

  lemma ReinitKeepsUnlessNegative(core: Core, fields: Knobs, r: Rebuild)
    requires Inv(core)
    ensures Inv(Reinit(core, fields, r)) <==> Reinit(core, fields, r).cfg.seqs >= 0
  {
  }

  /** The reinit asks for a negative number of sequences, and nothing before that in its conversions raises. */
  predicate SizesBelowZero(fields: Knobs) {
    && MaxNumSeqs in fields && IsNumber(fields[MaxNumSeqs]) && IntOf(fields[MaxNumSeqs]) < 0
    && (GpuMemoryUtilization in fields ==> IsNumber(fields[GpuMemoryUtilization]))
  }

  /** What a caller can check beforehand: a reinit keeps the invariant, however the releases and rebuilds go, exactly
      when it will be refused or does not size the scheduler below zero. */
  lemma ReinitSafeIff(core: Core, fields: Knobs)
    requires Inv(core)
    ensures (forall r :: Inv(Reinit(core, fields, r))) <==> RefusalOf(core, fields).Some? || !SizesBelowZero(fields)
  {
    forall r ensures Inv(Reinit(core, fields, r)) <==> Reinit(core, fields, r).cfg.seqs >= 0 {
      ReinitKeepsUnlessNegative(core, fields, r);
    }
    if RefusalOf(core, fields).None? && SizesBelowZero(fields) {
      assert Reinit(core, fields, SecondReleaseFails(2)).cfg.seqs < 0;
    }
    if RefusalOf(core, fields).Some? || !SizesBelowZero(fields) {
      forall r ensures Reinit(core, fields, r).cfg.seqs >= 0 {
        SeqsStayPositive(core, fields, r);
      }
    }
  }

  lemma SeqsStayPositive(core: Core, fields: Knobs, r: Rebuild)
    requires Inv(core) && (RefusalOf(core, fields).Some? || !SizesBelowZero(fields))
    ensures Reinit(core, fields, r).cfg.seqs >= 0
  {
  }

  lemma StepSafe(core: Core, a: Action)
    requires Inv(core) && NoNegativeSizing(a)
    ensures Inv(Step(core, a))
  {
    if a.DoReinit? {
      ReinitKeepsUnlessNegative(core, a.fields, a.r);
      SeqsStayPositive(core, a.fields, a.r);
    }
  }

  /** Over every run: `|running| <= enforced cap <= the size of this generation`, at every point of it. */
  lemma {:induction false} RunSafe(core: Core, run: seq<Action>)
    requires Inv(core) && forall a | a in run :: NoNegativeSizing(a)
    ensures Inv(Run(core, run))
  {
    if run != [] {
      RunSafe(core, run[..|run| - 1]);
      StepSafe(Run(core, run[..|run| - 1]), run[|run| - 1]);
    }
  }

  /** No reinit of the run is stranded. */
  ghost predicate NoneStranded(core: Core, run: seq<Action>) {
    forall i | 0 <= i < |run| && run[i].DoReinit? ::
        !ReinitOutcome(Run(core, run[..i]), run[i].fields, run[i].r).Stranded?
  }

  lemma ScheduleKeepsSizes(s: Sched, budget: nat)
    ensures s.ceilings.Some? ==> Recorded(Schedule(s, budget)) == Recorded(s)
    ensures s.pending.None? ==> Recorded(Schedule(s, budget)) == Recorded(s)
  {
  }

  lemma StepSized(core: Core, a: Action)
    requires Inv(core) && Sized(core) && (a.DoReinit? ==> !ReinitOutcome(core, a.fields, a.r).Stranded?)
    ensures Sized(Step(core, a))
  {
    if a.DoReinit? {
      SizedIff(core, a.fields, a.r);
    } else if a.DoSchedule? {
      ScheduleKeepsSizes(core.sched, a.budget);
    }
  }

  /** Then the size of this generation is also the configured one, at every point of the run. */
  lemma {:induction false} RunSized(core: Core, run: seq<Action>)
    requires Inv(core) && Sized(core) && NoneStranded(core, run) && forall a | a in run :: NoNegativeSizing(a)
    ensures Sized(Run(core, run))
  {
    if run != [] {
      var n := |run| - 1;
      assert forall i | 0 <= i < n :: run[..n][..i] == run[..i];
      RunSized(core, run[..n]);
      RunSafe(core, run[..n]);
      StepSized(Run(core, run[..n]), run[n]);
    }
  }

  /** The guard is needed: an idle engine resized to -1 sequences breaks the engine's assertion on the next step. */
  lemma NegativeSizingBreaksTheAssertion(core: Core, budget: nat)
    requires Inv(core) && core.sleepMode && core.sched.running == [] && core.sched.waiting == []
    ensures var a := DoReinit(map[MaxNumSeqs := Int(-1)], Succeeds);
            && !NoNegativeSizing(a)
            && var s := Run(core, [a, DoSchedule(budget)]).sched;
               |s.running| > s.cap
  {
    var a := DoReinit(map[MaxNumSeqs := Int(-1)], Succeeds);
    var b := DoSchedule(budget);
    assert a.fields.Keys == {MaxNumSeqs};
    assert ReinitOutcome(core, a.fields, Succeeds).Rebuilt?;
    assert [a, b][..1] == [a] && [a][..0] == [];
    assert Run(core, [a]) == Step(Run(core, []), a);
    assert Run(core, [a, b]) == Step(Run(core, [a]), b);
  }

  // ------------------------------------------------------------ what is refused

  /** A reinit is refused, in this order, for a field that is none of the three, for a server without sleep mode, and
      while any request is running or waiting; otherwise it is let through. */
  lemma RefusalSays(core: Core, fields: Knobs)
    ensures var known := forall k | k in fields :: k in {GpuMemoryUtilization, MaxNumSeqs, MaxNumBatchedTokens};
            var idle := |core.sched.running| + |core.sched.waiting| == 0;
            RefusalOf(core, fields) ==
            if !known then Some(NotWarm) else if !core.sleepMode then Some(NoSleepMode) else if !idle
                then Some(Busy) else None
  {
  }

  /** A server without sleep mode is never resized, over any run and whatever its reinits ask: it keeps the sizes it was
      configured with and the ceilings of its one generation. */
  lemma {:induction false} NoSleepModeNoResize(core: Core, run: seq<Action>)
    requires !core.sleepMode && Inv(core) && Sized(core) && forall a | a in run :: NoNegativeSizing(a)
    ensures var t := Run(core, run);
            && !t.sleepMode && Sized(t) && Inv(t)
            && t.cfg.gpu == core.cfg.gpu && t.cfg.seqs == core.cfg.seqs && t.cfg.batched == core.cfg.batched
  {
    if run != [] {
      var n := |run| - 1;
      NoSleepModeNoResize(core, run[..n]);
      var mid := Run(core, run[..n]);
      StepSafe(mid, run[n]);
      StepSized(mid, run[n]);
    }
  }

  /** A step admits as many as it may: afterwards nobody waits, or the budget is used up, or the cap is reached; those
      admitted are the first that waited, in their order, behind those already running. */
  lemma ScheduleIsGreedy(s: Sched, budget: nat)
    ensures var t := Schedule(s, budget); var n := |t.running| - |s.running|;
            && 0 <= n <= |s.waiting| && n <= budget
            && t.running == s.running + s.waiting[..n] && t.waiting == s.waiting[n..]
            && (t.waiting == [] || n == budget || |t.running| >= t.cap)
            && (n > 0 ==> |t.running| <= t.cap)
  {
  }

  // ----------------------------------------------------- what get_knobs reports

  /** The cap this step asks for, if it asks: an accepted target, or the size of a new generation. */
  function Asked(core: Core, a: Action): Option<int> {
    match a
    case DoSetKnobs(m) =>
      var t := Taken(Recorded(core.sched), m, MaxNumSeqs);
      if t.Some? then Some(t.value.n) else None
    case DoReinit(f, r) =>
      match ReinitOutcome(core, f, r) {
        case Rebuilt => Some(NextSeqs(core, f))
        case Restored => Some(core.cfg.seqs)
        case _ => None
      }
    case _ => None
  }

  /** The last cap asked for in the run, or the one reported at its start. */
  function LastAsked(core: Core, run: seq<Action>): int {
    if run == [] then Reported(core.sched)
    else
      var n := |run| - 1;
      Asked(Run(core, run[..n]), run[n]).GetOr(LastAsked(core, run[..n]))
  }

  lemma ScheduleKeepsReport(core: Core, budget: nat)
    requires Inv(core)
    ensures Reported(Schedule(core.sched, budget)) == Reported(core.sched)
  {
  }

  lemma ReportStep(core: Core, a: Action)
    requires Inv(core)
    ensures Reported(Step(core, a).sched) == Asked(core, a).GetOr(Reported(core.sched))
  {
    match a {
      case DoSchedule(b) => ScheduleKeepsReport(core, b);
      case DoReinit(f, r) => RestoreIsExact(core, f, r);
      case _ =>
    }
  }

  /** get_knobs reports the operator's last accepted target (or the generation's boot value), never the
      intermediate caps the drain passes through. */
  lemma {:induction false} ReportIsLastAsked(core: Core, run: seq<Action>)
    requires Inv(core) && forall a | a in run :: NoNegativeSizing(a)
    ensures Reported(Run(core, run).sched) == LastAsked(core, run)
  {
    if run != [] {
      var n := |run| - 1;
      ReportIsLastAsked(core, run[..n]);
      RunSafe(core, run[..n]);
      ReportStep(Run(core, run[..n]), run[n]);
    }
  }

  // ------------------------------------------------------- no request is dropped

  function Queued(s: Sched): multiset<ReqId> {
    multiset(s.running) + multiset(s.waiting)
  }

  function ArrivesBy(a: Action): multiset<ReqId> {
    if a.DoArrive? then multiset{a.id} else multiset{}
  }

  function LeavesBy(s: Sched, a: Action): multiset<ReqId> {
    if a.DoLeave? && a.i < |s.running| then multiset{s.running[a.i]} else multiset{}
  }

  function Arrivals(run: seq<Action>): multiset<ReqId> {
    if run == [] then multiset{} else Arrivals(run[..|run| - 1]) + ArrivesBy(run[|run| - 1])
  }

  function Departures(core: Core, run: seq<Action>): multiset<ReqId> {
    if run == [] then multiset{}
    else
      var n := |run| - 1;
      Departures(core, run[..n]) + LeavesBy(Run(core, run[..n]).sched, run[n])
  }

  lemma AdmitConserves(s: Sched, budget: nat)
    ensures Queued(Admit(s, budget)) == Queued(s)
  {
    var n := Admitted(s, budget);
    assert s.waiting == s.waiting[..n] + s.waiting[n..];
  }

  lemma LeaveConserves(s: Sched, i: nat)
    requires i < |s.running|
    ensures Queued(Leave(s, i)) + multiset{s.running[i]} == Queued(s)
  {
    assert s.running == s.running[..i] + [s.running[i]] + s.running[i + 1..];
  }

  lemma ScheduleConserves(s: Sched, budget: nat)
    ensures Queued(Schedule(s, budget)) == Queued(s)
  {
    AdmitConserves(Tighten(s), budget);
    assert Tighten(s).running == s.running && Tighten(s).waiting == s.waiting;
  }

  lemma ArriveConserves(s: Sched, id: ReqId)
    ensures Queued(s.(waiting := s.waiting + [id])) == Queued(s) + multiset{id}
  {
  }

  lemma StepConserves(core: Core, a: Action)
    ensures Queued(Step(core, a).sched) + LeavesBy(core.sched, a) == Queued(core.sched) + ArrivesBy(a)
  {
    var s := core.sched;
    if a.DoSchedule? {
      ScheduleConserves(s, a.budget);
    } else if a.DoLeave? {
      if a.i < |s.running| { LeaveConserves(s, a.i); }
    } else if a.DoArrive? {
      ArriveConserves(s, a.id);
    } else if a.DoReinit? {
      ReinitKeepsQueue(core, a.fields, a.r);
    } else {
      SetKnobsKeepsQueue(core, a.m);
    }
  }

  lemma SetKnobsKeepsQueue(core: Core, m: Knobs)
    ensures Queued(SetKnobs(core, m).sched) == Queued(core.sched)
  {
  }

  lemma ReinitKeepsQueue(core: Core, fields: Knobs, r: Rebuild)
    ensures Queued(Reinit(core, fields, r).sched) == Queued(core.sched)
  {
  }

  lemma Shuffle(q0: multiset<ReqId>, q1: multiset<ReqId>, q2: multiset<ReqId>,
                d: multiset<ReqId>, a: multiset<ReqId>, leaves: multiset<ReqId>, arrives: multiset<ReqId>)
    requires q1 + d == q0 + a && q2 + leaves == q1 + arrives
    ensures q2 + (d + leaves) == q0 + (a + arrives)
  {
    assert q2 + (d + leaves) == (q2 + leaves) + d == (q1 + d) + arrives;
  }

  /** Zero dropped requests across hot swaps and reinits: what is queued or running is what was, plus the
      arrivals, less the requests that left by themselves. */
  lemma {:induction false} RunConserves(core: Core, run: seq<Action>)
    ensures Queued(Run(core, run).sched) + Departures(core, run) == Queued(core.sched) + Arrivals(run)
  {
    if run != [] {
      var n := |run| - 1;
      var mid := Run(core, run[..n]);
      RunConserves(core, run[..n]);
      StepConserves(mid, run[n]);
      Shuffle(Queued(core.sched), Queued(mid.sched), Queued(Step(mid, run[n]).sched), Departures(core, run[..n]),
              Arrivals(run[..n]), LeavesBy(mid.sched, run[n]), ArrivesBy(run[n]));
    }
  }
}
