/** The knob manifest: how validate() sorts the changes of a version before anything reaches an engine. */
module Manifest {
  import opened Wrappers
  import opened PyValues

  /** Any class that is not one of the named ones is validated like a hot knob. */
  datatype Klass = HotK | ColdK | WarmK | DeferredK | OtherK(name: string)

  datatype VType = IntT | StrT | NumberT

  datatype Knob = Knob(klass: Klass, vtype: VType, vmin: Option<real>, vmax: Option<real>, choices: seq<string>)

  type Manifest = map<Field, Knob>
  type Changes = map<Field, Value>

  datatype Reason =
    | NotInManifest | NeedsRelaunch | NeedsReinit | NotHot
    | NotAString | NotAChoice(choices: seq<string>) | NotANumber | BelowMin | AboveMax

  predicate StandsAt(s: string, w: string, i: nat) {
    i + |w| <= |s| && s[i..i + |w|] == w
  }

  /** `w in s` on strings. */
  predicate Contains(s: string, w: string) {
    exists i | 0 <= i <= |s| :: StandsAt(s, w, i)
  }

  /** Some choice is spelled with "cold" or "warm" in it. */
  predicate Mentions(choices: seq<string>) {
    exists i | 0 <= i < |choices| :: Contains(choices[i], "cold") || Contains(choices[i], "warm")
  }

  /** The reasons the reconciler reads as "cold fields pending", by their texts: they name a cold or warm knob, or list
      choices that happen to. */
  predicate Pending(r: Reason) {
    r.NeedsRelaunch? || r.NeedsReinit? || (r.NotAChoice? && Mentions(r.choices))
  }

  function LowerAll(cs: seq<string>): seq<string> {
    seq(|cs|, i requires 0 <= i < |cs| => Lower(cs[i]))
  }

  predicate HasType(t: VType, v: Value) {
    v.Int? || (t.NumberT? && v.Float?)
  }

  /** None when the value may go to the engine. */
  function Judge(m: Manifest, k: Field, v: Value): Option<Reason> {
    if k !in m then Some(NotInManifest)
    else
      var knob := m[k];
      if knob.klass.ColdK? then Some(NeedsRelaunch)
      else if knob.klass.WarmK? then Some(NeedsReinit)
      else if knob.klass.DeferredK? then Some(NotHot)
      else if knob.vtype.StrT? then
        if !v.Str? then Some(NotAString)
        else if knob.choices != [] && Lower(v.s) !in LowerAll(knob.choices) then Some(NotAChoice(knob.choices))
        else None
      else if !HasType(knob.vtype, v) then Some(NotANumber)
      else if knob.vmin.Some? && NumOf(v) < knob.vmin.value then Some(BelowMin)
      else if knob.vmax.Some? && NumOf(v) > knob.vmax.value then Some(AboveMax)
      else None
  }

  function Accepted(m: Manifest, c: Changes): Changes {
    map k | k in c && Judge(m, k, c[k]).None? :: c[k]
  }

  function Rejected(m: Manifest, c: Changes): map<Field, Reason> {
    map k | k in c && Judge(m, k, c[k]).Some? :: Judge(m, k, c[k]).value
  }

  /** `validate`, change by change: what it accepts keeps its value, and every key is in exactly one of the two. */
  method Validate(m: Manifest, changes: Items<Field, Value>) returns (accepted: Changes, rejected: map<Field, Reason>)
    requires DistinctKeys(changes)
    ensures accepted == Accepted(m, ToMap(changes)) && rejected == Rejected(m, ToMap(changes))
    ensures accepted.Keys !! rejected.Keys && accepted.Keys + rejected.Keys == ToMap(changes).Keys
    ensures forall k | k in accepted :: accepted[k] == ToMap(changes)[k]
  {
    accepted, rejected := map[], map[];
    for i := 0 to |changes|
      invariant accepted == Accepted(m, ToMap(changes[..i])) && rejected == Rejected(m, ToMap(changes[..i]))
    {
      ToMapSnoc(changes, i);
      var k, v := changes[i].0, changes[i].1;
      JudgeSnoc(m, ToMap(changes[..i]), k, v);
      var reason := ReasonFor(m, k, v);
      if reason.Some? {
        rejected := rejected[k := reason.value];
      } else {
        accepted := accepted[k := v];
      }
    }
    assert changes[..|changes|] == changes;
  }

  /** One turn of the loop. */
  method ReasonFor(m: Manifest, k: Field, v: Value) returns (r: Option<Reason>)
    ensures r == Judge(m, k, v)
  {
    if k !in m { return Some(NotInManifest); }
    var knob := m[k];
    if knob.klass == ColdK { return Some(NeedsRelaunch); }
    if knob.klass == WarmK { return Some(NeedsReinit); }
    if knob.klass == DeferredK { return Some(NotHot); }
    if knob.vtype == StrT {
      if !v.Str? { return Some(NotAString); }
      if knob.choices != [] && Lower(v.s) !in LowerAll(knob.choices) { return Some(NotAChoice(knob.choices)); }
      return None;
    }
    if v.Bool? || !(v.Int? || (knob.vtype == NumberT && v.Float?)) { return Some(NotANumber); }
    if knob.vmin.Some? && NumOf(v) < knob.vmin.value { return Some(BelowMin); }
    if knob.vmax.Some? && NumOf(v) > knob.vmax.value { return Some(AboveMax); }
    return None;
  }

  lemma JudgeSnoc(m: Manifest, c: Changes, k: Field, v: Value)
    requires k !in c
    ensures Accepted(m, c[k := v]) == if Judge(m, k, v).None? then Accepted(m, c)[k := v] else Accepted(m, c)
    ensures Rejected(m, c[k := v]) == if Judge(m, k, v).Some? then Rejected(m, c)[k := Judge(m, k, v).value]
            else Rejected(m, c)
  {
  }

  // ------------------------------------------------------ the shipped manifests

  function IntKnob(vmin: real): Knob {
    Knob(HotK, IntT, Some(vmin), None, [])
  }

  function ChoiceKnob(choices: seq<string>): Knob {
    Knob(HotK, StrT, None, None, choices)
  }

  const LEVELS := ["DEBUG", "INFO", "WARNING", "ERROR"]
  const POLICIES := ["fcfs", "lpm", "dfs-weight", "lof", "random", "priority"]

  /** The hot knobs of the vLLM manifest. */
  const VLLM_HOT: Manifest :=
    map[MaxNumSeqs := IntKnob(1.0), MaxNumBatchedTokens := IntKnob(1.0), LongPrefillTokenThreshold := IntKnob(0.0),
        LogLevel := ChoiceKnob(LEVELS)]

  /** The hot knobs of the SGLang manifest that the patch handles. */
  const SGLANG_HOT: Manifest :=
    map[MaxRunningRequests := IntKnob(1.0), MaxQueuedRequests := IntKnob(0.0), ChunkedPrefillSize := IntKnob(1.0),
        MaxPrefillTokens := IntKnob(1.0), SchedulePolicy := ChoiceKnob(POLICIES),
        ScheduleConservativeness := Knob(HotK, NumberT, Some(0.01), None, []), LogLevel := ChoiceKnob(LEVELS)]

  /** The manifest has these knobs as they stand, whatever else it has. */
  ghost predicate Ships(m: Manifest, hot: Manifest) {
    forall k | k in hot :: k in m && m[k] == hot[k]
  }
}
