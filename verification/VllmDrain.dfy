/** Lowering the cap below current occupancy: stop admitting, drain, tighten, stay there. */
module VllmDrain {
  import opened Wrappers
  import opened PyValues
  import opened VllmModel
  import opened VllmSafety

  /** Anything but a reinit or an accepted change of the cap, seen by a generation with ceilings `c`. */
  ghost predicate Quiet(c: Ceilings, a: Action) {
    && !a.DoReinit?
    && (a.DoSetKnobs? ==> Taken(c, a.m, MaxNumSeqs).None?)
  }

  ghost predicate QuietRun(c: Ceilings, run: seq<Action>) {
    forall a | a in run :: Quiet(c, a)
  }

  /** How many requests left during the run. */
  function Left(core: Core, run: seq<Action>): nat {
    if run == [] then 0
    else
      var n := |run| - 1;
      Left(core, run[..n]) + |LeavesBy(Run(core, run[..n]).sched, run[n])|
  }

  /** The drain towards `p`, `d` departures after it began with `n` running. While the target is pending nobody
      is admitted, so occupancy counts the departures exactly; once it is enforced the pending mark is gone. */
  ghost predicate Draining(s: Sched, p: int, n: nat, d: nat) {
    if s.pending.Some? then
      s.pending.value == p && |s.running| == n - d
    else
      s.cap == p && n - d <= p
  }

  lemma QuietStep(core: Core, a: Action, p: int, n: nat, d: nat)
    requires Inv(core) && Quiet(Recorded(core.sched), a)
    requires Draining(core.sched, p, n, d)
    ensures Draining(Step(core, a).sched, p, n, d + |LeavesBy(core.sched, a)|)
    ensures Step(core, a).sched.cap <= core.sched.cap
    ensures |Step(core, a).sched.running| <= Max(p, |core.sched.running|)
    ensures Recorded(Step(core, a).sched) == Recorded(core.sched)
    ensures core.sched.pending.None? ==> Step(core, a).sched.pending.None?
  {
  }

  /** Any run of a lowered core, with no other cap change or reinit in it: the enforced cap never rises, no step
      raises occupancy above the larger of the target and what was running, and above the target occupancy is
      the starting one less the departures. */
  lemma {:induction false} DrainRun(core: Core, run: seq<Action>, p: int)
    requires Inv(core) && core.sched.pending == Some(p) && QuietRun(Recorded(core.sched), run)
    ensures Inv(Run(core, run)) && Recorded(Run(core, run).sched) == Recorded(core.sched)
    ensures Draining(Run(core, run).sched, p, |core.sched.running|, Left(core, run))
    ensures p <= Run(core, run).sched.cap <= core.sched.cap
  {
    if run != [] {
      var k := |run| - 1;
      var mid := Run(core, run[..k]);
      DrainRun(core, run[..k], p);
      QuietStep(mid, run[k], p, |core.sched.running|, Left(core, run[..k]));
      StepSafe(mid, run[k]);
    }
  }

  /** Once the target is enforced it stays enforced through every quiet run. */
  lemma {:induction false} Settled(core: Core, run: seq<Action>, p: int)
    requires Inv(core) && core.sched.pending.None? && core.sched.cap == p && QuietRun(Recorded(core.sched), run)
    ensures Inv(Run(core, run)) && Recorded(Run(core, run).sched) == Recorded(core.sched)
    ensures Run(core, run).sched.pending.None? && Run(core, run).sched.cap == p
    ensures |Run(core, run).sched.running| <= p
  {
    if run != [] {
      var k := |run| - 1;
      var mid := Run(core, run[..k]);
      Settled(core, run[..k], p);
      QuietStep(mid, run[k], p, 0, 0);
      StepSafe(mid, run[k]);
    }
  }

  /** The drain completes exactly when enough requests have left. After any quiet `run`, the next schedule step
      enforces the target if and only if at least `|running| - p` of those that were running have left or the
      target was already enforced; until then that step admits nobody and the cap is the occupancy. From the
      moment it is enforced no quiet continuation leaves it. */
  lemma DrainCompletes(core: Core, run: seq<Action>, budget: nat, rest: seq<Action>, p: int)
    requires Inv(core) && core.sched.pending == Some(p)
    requires QuietRun(Recorded(core.sched), run) && QuietRun(Recorded(core.sched), rest)
    ensures var s := Run(core, run + [DoSchedule(budget)]).sched;
            if Left(core, run) >= |core.sched.running| - p
            then s.cap == p && s.pending.None?
            else s.cap == |s.running| == |core.sched.running| - Left(core, run) && s.pending == Some(p)
    ensures Left(core, run) >= |core.sched.running| - p ==>
              var s := Run(core, run + [DoSchedule(budget)] + rest).sched;
              s.cap == p && s.pending.None? && |s.running| <= p
  {
    var mid := Run(core, run);
    var sched := DoSchedule(budget);
    DrainRun(core, run, p);
    RunConcat(core, run, [sched]);
    assert [sched][..0] == [];
    assert Run(mid, [sched]) == Step(mid, sched);
    assert Quiet(Recorded(core.sched), sched);
    QuietStep(mid, sched, p, |core.sched.running|, Left(core, run));
    StepSafe(mid, sched);
    if Left(core, run) >= |core.sched.running| - p {
      RunConcat(core, run + [sched], rest);
      Settled(Step(mid, sched), rest, p);
    }
  }

  /** A target at or above occupancy, raised or lowered, is the enforced cap at once; below it the cap falls to
      the occupancy, so nobody is admitted. Either way the target is what the call asked for. */
  lemma SetTakesEffect(core: Core, m: Knobs)
    requires Inv(core) && MaxNumSeqs in m && InRange(m[MaxNumSeqs], Recorded(core.sched).seqs)
    ensures var s := SetKnobs(core, m).sched; var p := IntOf(m[MaxNumSeqs]);
            && s.pending == Some(p) && s.running == core.sched.running
            && s.cap == (if p >= |s.running| then p else |s.running|)
            && (p <= |s.running| ==> forall b: nat :: Schedule(s, b).running == s.running)
  {
  }
}
