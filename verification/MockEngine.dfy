/** The mock engine the control plane is developed against, and the two adapters' meaning of "ok". */
module MockEngine {
  import opened Wrappers
  import opened PyValues

  datatype Kind = SglangMock | VllmMock

  type Knobs = map<Field, Value>

  datatype Reason = UnknownKnob | NotAChoice | NotPositive | OutOfRange(lo: int, hi: Option<int>)

  datatype State = State(kind: Kind, tokens: int, knobs: Knobs, ceilings: map<Field, int>, calls: nat,
                         lastReinit: Option<Knobs>)

  function Boot(kind: Kind, mrr: int, mqr: int, cps: int, tokens: int): State {
    var knobs: Knobs :=
      match kind
      case SglangMock =>
        map[MaxRunningRequests := Int(mrr), MaxQueuedRequests := Int(mqr), ChunkedPrefillSize := Int(cps),
            MaxPrefillTokens := Int(tokens),
            SchedulePolicy := Str("fcfs"), ScheduleConservativeness := Float(1.0), LogLevel := Str("INFO")]
      case VllmMock =>
        map[MaxNumSeqs := Int(mrr), MaxNumBatchedTokens := Int(tokens), LongPrefillTokenThreshold := Int(0),
            LogLevel := Str("INFO")];
    State(kind, tokens, knobs,
          (match kind
           case SglangMock => map[MaxRunningRequests := mrr, MaxPrefillTokens := tokens]
           case VllmMock => map[MaxNumSeqs := mrr, MaxNumBatchedTokens := tokens]), 0, None)
  }

  const POLICY_NAMES: set<string> := {"fcfs", "lpm", "dfs-weight", "lof", "random", "priority"}
  const LEVEL_NAMES: set<string> := {"debug", "info", "warning", "error"}

  function Lo(k: Field): int {
    if k == MaxQueuedRequests || k == LongPrefillTokenThreshold then 0 else 1
  }

  function Hi(ceilings: map<Field, int>, k: Field): Option<int> {
    if k in ceilings then Some(ceilings[k]) else None
  }

  predicate IsPolicy(v: Value) {
    v.Str? && Lower(v.s) in POLICY_NAMES
  }

  predicate IsLevel(v: Value) {
    v.Str? && Lower(v.s) in LEVEL_NAMES
  }

  datatype Verdict = Store(value: Value) | Reject(reason: Reason)

  /** What an engine with these knobs and ceilings does with one key, whatever the knobs are set to: the value it
      stores, or why not. */
  function JudgeBy(names: set<Field>, ceilings: map<Field, int>, k: Field, v: Value): Verdict {
    if k !in names then Reject(UnknownKnob)
    else if k == SchedulePolicy then
      if IsPolicy(v) then Store(v) else Reject(NotAChoice)
    else if k == LogLevel then
      if IsLevel(v) then Store(Str(Upper(v.s))) else Reject(NotAChoice)
    else if k == ScheduleConservativeness then
      if IsNumber(v) && NumOf(v) > 0.0 then Store(Float(NumOf(v))) else Reject(NotPositive)
    else if IsNumber(v) && Lo(k) <= IntOf(v) && (Hi(ceilings, k).Some? ==> IntOf(v) <= Hi(ceilings, k).value)
        then Store(Int(IntOf(v)))
    else Reject(OutOfRange(Lo(k), Hi(ceilings, k)))
  }

  function Judge(s: State, k: Field, v: Value): Verdict {
    JudgeBy(s.knobs.Keys, s.ceilings, k, v)
  }

  function Stored(s: State, changes: Knobs): Knobs {
    map k | k in changes && Judge(s, k, changes[k]).Store? :: Judge(s, k, changes[k]).value
  }

  function Refused(s: State, changes: Knobs): map<Field, Reason> {
    map k | k in changes && Judge(s, k, changes[k]).Reject? :: Judge(s, k, changes[k]).reason
  }

  /** An apply call without reinit keys, as one simultaneous update. */
  function Apply(s: State, changes: Knobs): State {
    s.(knobs := s.knobs + Stored(s, changes), calls := s.calls + 1)
  }

  /** `set_hot`'s ok. vLLM's is that nothing was rejected; SGLang's also needs every value to read back as sent. */
  predicate SetHotOk(s: State, changes: Knobs) {
    && IsEmpty(Refused(s, changes))
    && (s.kind.SglangMock? ==> forall k | k in changes ::
           k in Apply(s, changes).knobs && Eq(Apply(s, changes).knobs[k], changes[k]))
  }

  // ------------------------------------------------------------------- reinit

  function Warm(kind: Kind): set<Field> {
    match kind
    case SglangMock => {MemFractionStatic, MaxTotalTokens, KvCacheDtype, MaxRunningRequests}
    case VllmMock => {GpuMemoryUtilization, MaxNumSeqs, MaxNumBatchedTokens}
  }

  /** The sizes a reinit sets, in its order; the other warm fields are accepted and ignored. */
  const SIZES: seq<Field> := [MaxTotalTokens, MaxRunningRequests, MaxNumSeqs, MaxNumBatchedTokens, GpuMemoryUtilization]

  function Sized(s: State, k: Field, n: int): State {
    s.(knobs := s.knobs[k := Int(n)], ceilings := s.ceilings[k := n])
  }

  function Resize(s: State, k: Field, v: Value): State
    requires IsNumber(v)
  {
    match k
    case MaxTotalTokens =>
      var t := s.(tokens := IntOf(v));
      if MaxPrefillTokens in s.knobs then Sized(t, MaxPrefillTokens, IntOf(v)) else t
    case GpuMemoryUtilization => s.(tokens := Truncate(16384.0 * NumOf(v)))
    case _ => Sized(s, k, IntOf(v))
  }

  /** The first `n` sizes; a value that does not convert raises and ends them. */
  function Resized(s: State, fields: Knobs, n: nat): (State, bool)
    requires n <= |SIZES|
  {
    if n == 0 then (s, false)
    else
      var (t, raised) := Resized(s, fields, n - 1);
      var k := SIZES[n - 1];
      if raised || k !in fields then (t, raised)
      else if !IsNumber(fields[k]) then (t, true)
      else (Resize(t, k, fields[k]), false)
  }

  datatype Outcome = NotWarm | Done | Raises

  function ReinitOutcome(s: State, fields: Knobs): Outcome {
    if !(fields.Keys <= Warm(s.kind)) then NotWarm
    else if Resized(s, fields, |SIZES|).1 then Raises
    else Done
  }

  /** State.reinit: refused without a trace, done, or raising half way. */
  function Reinit(s: State, fields: Knobs): State {
    var (t, raised) := Resized(s, fields, |SIZES|);
    match ReinitOutcome(s, fields)
    case NotWarm => s
    case Raises => t
    case Done => t.(lastReinit := Some(fields))
  }

  /** One call: the "reinit." keys first, and when they do not raise, the others under the ceilings it left. */
  function Call(s: State, reinit: Knobs, changes: Knobs): State {
    var t := if IsEmpty(reinit) then s else Reinit(s, reinit);
    if !IsEmpty(reinit) && ReinitOutcome(s, reinit).Raises? then t else Apply(t, changes)
  }

  /** What the call answers: what it stored and refused, and whether its reinit, if it had one, was done. */
  datatype Answer = Answer(applied: Knobs, rejected: map<Field, Reason>, reinit: Option<bool>)

  function CallAnswer(s: State, reinit: Knobs, changes: Knobs): Option<Answer> {
    var t := if IsEmpty(reinit) then s else Reinit(s, reinit);
    if !IsEmpty(reinit) && ReinitOutcome(s, reinit).Raises? then None
    else
      Some(Answer(Stored(t, changes), Refused(t, changes),
                  if IsEmpty(reinit) then None else Some(ReinitOutcome(s, reinit).Done?)))
  }

  class Engine {
    const kind: Kind
    var tokens: int
    var knobs: Knobs
    var ceilings: map<Field, int>
    var calls: nat
    var lastReinit: Option<Knobs>

    ghost function Model(): State
      reads this
    {
      State(kind, tokens, knobs, ceilings, calls, lastReinit)
    }

    constructor (boot: State)
      ensures Model() == boot
    {
      kind, tokens, knobs, ceilings, calls, lastReinit := boot.kind, boot.tokens, boot.knobs, boot.ceilings, boot.calls,
          boot.lastReinit;
    }

    method DoReinit(fields: Knobs) returns (out: Outcome)
      modifies this
      ensures Model() == Reinit(old(Model()), fields) && out == ReinitOutcome(old(Model()), fields)
    {
      if !(fields.Keys <= Warm(kind)) { return NotWarm; }
      ghost var s := Model();
      for i := 0 to |SIZES|
        invariant (Model(), false) == Resized(s, fields, i)
      {
        var k := SIZES[i];
        if k in fields {
          if !IsNumber(fields[k]) {
            RaisedStays(s, fields, i + 1, |SIZES|);
            return Raises;
          }
          Size(k, fields[k]);
        }
      }
      lastReinit := Some(fields);
      return Done;
    }

    method Size(k: Field, v: Value)
      requires IsNumber(v)
      modifies this
      ensures Model() == Resize(old(Model()), k, v)
    {
      if k == MaxTotalTokens {
        tokens := IntOf(v);
        if MaxPrefillTokens in knobs {
          knobs := knobs[MaxPrefillTokens := Int(tokens)];
          ceilings := ceilings[MaxPrefillTokens := tokens];
        }
      } else if k == GpuMemoryUtilization {
        tokens := Truncate(16384.0 * NumOf(v));
      } else {
        knobs := knobs[k := Int(IntOf(v))];
        ceilings := ceilings[k := IntOf(v)];
      }
    }

    /** State.apply: the reinit keys, then every other key on its own. */
    method DoApply(reinit: Knobs, changes: Items<Field, Value>) returns (answer: Option<Answer>)
      requires DistinctKeys(changes)
      modifies this
      ensures Model() == Call(old(Model()), reinit, ToMap(changes))
      ensures answer == CallAnswer(old(Model()), reinit, ToMap(changes))
    {
      var done: Option<bool> := None;
      if !IsEmpty(reinit) {
        var out := DoReinit(reinit);
        if out.Raises? { return None; }
        done := Some(out.Done?);
      }
      var applied, rejected := ApplyKnobs(changes);
      return Some(Answer(applied, rejected, done));
    }

    /** The loop over the keys that are not "reinit." ones. */
    method ApplyKnobs(changes: Items<Field, Value>) returns (applied: Knobs, rejected: map<Field, Reason>)
      requires DistinctKeys(changes)
      modifies this
      ensures Model() == Apply(old(Model()), ToMap(changes))
      ensures applied == Stored(old(Model()), ToMap(changes)) && rejected == Refused(old(Model()), ToMap(changes))
    {
      ghost var s := Model();
      applied, rejected := map[], map[];
      for i := 0 to |changes|
        invariant applied == Stored(s, ToMap(changes[..i])) && rejected == Refused(s, ToMap(changes[..i]))
        invariant ceilings == s.ceilings && calls == s.calls && knobs == s.knobs + applied && knobs.Keys == s.knobs.Keys
        invariant tokens == s.tokens && lastReinit == s.lastReinit
      {
        ToMapSnoc(changes, i);
        var k, v := changes[i].0, changes[i].1;
        var verdict := JudgeOne(k, v);
        Turn(s, ToMap(changes[..i]), k, v, verdict, knobs, applied, rejected);
        if verdict.Reject? {
          rejected := rejected[k := verdict.reason];
        } else {
          knobs := knobs[k := verdict.value];
          applied := applied[k := verdict.value];
        }
      }
      assert changes[..|changes|] == changes;
      calls := calls + 1;
    }

    /** One turn of the loop. */
    method JudgeOne(k: Field, v: Value) returns (r: Verdict)
      ensures r == JudgeBy(knobs.Keys, ceilings, k, v)
    {
      if k !in knobs { return Reject(UnknownKnob); }
      if k == SchedulePolicy || k == LogLevel {
        if !(if k == SchedulePolicy then IsPolicy(v) else IsLevel(v)) { return Reject(NotAChoice); }
        return Store(if k == LogLevel then Str(Upper(v.s)) else v);
      }
      if k == ScheduleConservativeness {
        if !IsNumber(v) || NumOf(v) <= 0.0 { return Reject(NotPositive); }
        return Store(Float(NumOf(v)));
      }
      var lo, hi := Lo(k), Hi(ceilings, k);
      if !IsNumber(v) || IntOf(v) < lo || (hi.Some? && IntOf(v) > hi.value) { return Reject(OutOfRange(lo, hi)); }
      return Store(Int(IntOf(v)));
    }
  }

  lemma {:induction false} RaisedStays(s: State, fields: Knobs, i: nat, n: nat)
    requires i <= n <= |SIZES| && Resized(s, fields, i).1
    ensures Resized(s, fields, n) == Resized(s, fields, i)
  {
    if i < n {
      RaisedStays(s, fields, i, n - 1);
    }
  }

  /** What a size is after a reinit that was done. */
  predicate SetTo(fields: Knobs, k: Field, before: Value, after: Value) {
    if k in fields then IsNumber(fields[k]) && after == Int(IntOf(fields[k])) else after == before
  }

  function KnobOf(s: State, k: Field): Value {
    if k in s.knobs then s.knobs[k] else Null
  }

  lemma ResizedUnfold(s: State, fields: Knobs, n: nat)
    requires n < |SIZES|
    ensures var (t, raised) := Resized(s, fields, n); var k := SIZES[n];
            Resized(s, fields, n + 1) ==
            if raised || k !in fields then (t, raised) else if !IsNumber(fields[k]) then (t, true)
                else (Resize(t, k, fields[k]), false)
  {
  }

  /** A knob and its ceiling are set together, to the whole number named. */
  predicate CapSetTo(fields: Knobs, named: Field, s: State, t: State, k: Field) {
    if named in fields then
      && IsNumber(fields[named]) && k in t.knobs && k in t.ceilings
      && t.knobs[k] == Int(IntOf(fields[named])) && t.ceilings[k] == IntOf(fields[named])
    else KnobOf(t, k) == KnobOf(s, k) && Hi(t.ceilings, k) == Hi(s.ceilings, k)
  }

  ghost predicate OnlyThese(s: State, t: State, ks: set<Field>) {
    && t.kind == s.kind && t.calls == s.calls
    && (forall k :: k !in ks ==> KnobOf(t, k) == KnobOf(s, k) && Hi(t.ceilings, k) == Hi(s.ceilings, k))
  }

  /** A reinit that is done has set every size it names with its ceiling, and no other: on the SGLang mock the token
      total and with it the prefill budget, and the request cap. */
  lemma SglangReinitSets(s: State, fields: Knobs)
    requires s.kind.SglangMock? && ReinitOutcome(s, fields).Done?
    ensures var t := Reinit(s, fields);
            && OnlyThese(s, t, {MaxPrefillTokens, MaxRunningRequests}) && t.lastReinit == Some(fields)
            && SetTo(fields, MaxTotalTokens, Int(s.tokens), Int(t.tokens))
            && (MaxPrefillTokens in s.knobs ==> CapSetTo(fields, MaxTotalTokens, s, t, MaxPrefillTokens))
            && CapSetTo(fields, MaxRunningRequests, s, t, MaxRunningRequests)
            && SetTo(fields, MaxRunningRequests, KnobOf(s, MaxRunningRequests), KnobOf(t, MaxRunningRequests))
  {
    ResizedUnfold(s, fields, 0);
    ResizedUnfold(s, fields, 1);
    ResizedNoMore(s, fields, 2);
  }

  /** On the vLLM mock the two caps, and from the memory fraction the tokens. */
  lemma VllmReinitSets(s: State, fields: Knobs)
    requires s.kind.VllmMock? && ReinitOutcome(s, fields).Done?
    ensures var t := Reinit(s, fields);
            && OnlyThese(s, t, {MaxNumSeqs, MaxNumBatchedTokens}) && t.lastReinit == Some(fields)
            && CapSetTo(fields, MaxNumSeqs, s, t, MaxNumSeqs)
            && CapSetTo(fields, MaxNumBatchedTokens, s, t, MaxNumBatchedTokens)
            && SetTo(fields, MaxNumSeqs, KnobOf(s, MaxNumSeqs), KnobOf(t, MaxNumSeqs))
            && SetTo(fields, MaxNumBatchedTokens, KnobOf(s, MaxNumBatchedTokens), KnobOf(t, MaxNumBatchedTokens))
            && (GpuMemoryUtilization !in fields ==> t.tokens == s.tokens)
            && (GpuMemoryUtilization in fields ==>
                  IsNumber(fields[GpuMemoryUtilization])
                      && t.tokens == Truncate(16384.0 * NumOf(fields[GpuMemoryUtilization])))
  {
    ResizedNone(s, fields, 2);
    ResizedUnfold(s, fields, 2);
    ResizedUnfold(s, fields, 3);
    ResizedUnfold(s, fields, 4);
  }

  /** The other kind's sizes do nothing. */
  lemma {:induction false} ResizedNone(s: State, fields: Knobs, n: nat)
    requires n <= 2 && MaxTotalTokens !in fields && MaxRunningRequests !in fields
    ensures Resized(s, fields, n) == (s, false)
  {
    if n > 0 {
      ResizedNone(s, fields, n - 1);
    }
  }

  lemma {:induction false} ResizedNoMore(s: State, fields: Knobs, n: nat)
    requires 2 <= n <= |SIZES| && fields.Keys <= Warm(SglangMock)
    ensures Resized(s, fields, n) == Resized(s, fields, |SIZES|)
    decreases |SIZES| - n
  {
    if n < |SIZES| {
      ResizedUnfold(s, fields, n);
      ResizedNoMore(s, fields, n + 1);
    }
  }

  // ---------------------------------------------------------------- invariants

  /** Every capped knob is a whole number at or below its ceiling. */
  ghost predicate Capped(s: State) {
    forall k | k in s.ceilings ::
      && k in s.knobs && s.knobs[k].Int? && s.knobs[k].n <= s.ceilings[k]
      && k !in {SchedulePolicy, LogLevel, ScheduleConservativeness}
  }

  lemma BootIsCapped(kind: Kind, mrr: int, mqr: int, cps: int, tokens: int)
    ensures Capped(Boot(kind, mrr, mqr, cps, tokens))
  {
  }

  lemma ResizeKeepsCapped(s: State, k: Field, v: Value)
    requires Capped(s) && k in SIZES && IsNumber(v)
    ensures Capped(Resize(s, k, v))
  {
  }

  lemma {:induction false} ResizedKeepsCapped(s: State, fields: Knobs, n: nat)
    requires Capped(s) && n <= |SIZES|
    ensures Capped(Resized(s, fields, n).0)
  {
    if n > 0 {
      ResizedKeepsCapped(s, fields, n - 1);
      var t, k := Resized(s, fields, n - 1).0, SIZES[n - 1];
      if k in fields && IsNumber(fields[k]) {
        ResizeKeepsCapped(t, k, fields[k]);
      }
    }
  }

  lemma ApplyKeepsCapped(s: State, changes: Knobs)
    requires Capped(s)
    ensures Capped(Apply(s, changes))
  {
    var stored := Stored(s, changes);
    forall k | k in s.ceilings
      ensures (s.knobs + stored)[k].Int? && (s.knobs + stored)[k].n <= s.ceilings[k]
    {
      if k in stored {
        assert stored[k] == Judge(s, k, changes[k]).value;
      }
    }
  }

  /** Like the engines it stands for: whatever a call carries and however it ends, no cap is above its ceiling. */
  lemma CallKeepsCapped(s: State, reinit: Knobs, changes: Knobs)
    requires Capped(s)
    ensures Capped(Call(s, reinit, changes))
  {
    ResizedKeepsCapped(s, reinit, |SIZES|);
    ApplyKeepsCapped(if IsEmpty(reinit) then s else Reinit(s, reinit), changes);
  }

  lemma StoredSnoc(s: State, changes: Knobs, k: Field, v: Value, w: Verdict)
    requires k !in changes && w == Judge(s, k, v)
    ensures Stored(s, changes[k := v]) == if w.Store? then Stored(s, changes)[k := w.value] else Stored(s, changes)
  {
  }

  lemma RefusedSnoc(s: State, changes: Knobs, k: Field, v: Value, w: Verdict)
    requires k !in changes && w == Judge(s, k, v)
    ensures Refused(s, changes[k := v]) == if w.Reject? then Refused(s, changes)[k := w.reason] else Refused(s, changes)
  {
  }

  /** What one turn of the apply loop keeps. */
  lemma Turn(s: State, changes: Knobs, k: Field, v: Value, w: Verdict, knobs: Knobs, applied: Knobs,
             rejected: map<Field, Reason>)
    requires k !in changes && w == JudgeBy(knobs.Keys, s.ceilings, k, v)
    requires applied == Stored(s, changes) && rejected == Refused(s, changes)
    requires knobs == s.knobs + applied && knobs.Keys == s.knobs.Keys
    ensures Stored(s, changes[k := v]) == if w.Store? then applied[k := w.value] else applied
    ensures Refused(s, changes[k := v]) == if w.Store? then rejected else rejected[k := w.reason]
    ensures w.Store? ==>
              knobs[k := w.value] == s.knobs + applied[k := w.value] && knobs[k := w.value].Keys == s.knobs.Keys
  {
    StoredSnoc(s, changes, k, v, w);
    RefusedSnoc(s, changes, k, v, w);
    assert w.Store? ==> k in s.knobs;
  }

  /** SGLang's read-back is exact: a level the engine takes is reported as applied exactly when it was sent in upper
      case, though the engine holds it either way. */
  lemma ReadBackIff(s: State, level: string)
    requires s.kind.SglangMock? && LogLevel in s.knobs && IsLevel(Str(level))
    ensures var m := map[LogLevel := Str(level)];
            && IsEmpty(Refused(s, m)) && LogLevel in Apply(s, m).knobs
                && Apply(s, m).knobs[LogLevel] == Str(Upper(level))
            && (SetHotOk(s, m) <==> level == Upper(level))
  {
  }

  /** What a call answers: nothing when its reinit raises; otherwise every key in exactly one of applied and rejected,
      judged under the ceilings its reinit left, and whether the reinit was done. */
  lemma CallSays(s: State, reinit: Knobs, changes: Knobs)
    ensures var answer := CallAnswer(s, reinit, changes);
            && (answer.None? <==> !IsEmpty(reinit) && ReinitOutcome(s, reinit).Raises?)
            && (answer.Some? ==>
                  && answer.value.applied.Keys !! answer.value.rejected.Keys
                  && answer.value.applied.Keys + answer.value.rejected.Keys == changes.Keys
                  && (answer.value.reinit.None? <==> IsEmpty(reinit))
                  && (answer.value.reinit == Some(true) <==> !IsEmpty(reinit) && ReinitOutcome(s, reinit).Done?)
                  && (forall k | k in answer.value.applied :: k in Call(s, reinit, changes).knobs
                        && Call(s, reinit, changes).knobs[k] == answer.value.applied[k]))
  {
  }

  /** A reinit is refused without a trace exactly when it names a field that its engine cannot reinit, and raises
      exactly when it is not refused and one of its sizes is no number. */
  lemma ReinitSays(s: State, fields: Knobs)
    ensures ReinitOutcome(s, fields).NotWarm? <==>
            !(fields.Keys <= (if s.kind.SglangMock?
                then {MemFractionStatic, MaxTotalTokens, KvCacheDtype, MaxRunningRequests}
                              else {GpuMemoryUtilization, MaxNumSeqs, MaxNumBatchedTokens}))
    ensures ReinitOutcome(s, fields).NotWarm? ==> Reinit(s, fields) == s
    ensures ReinitOutcome(s, fields).Raises? <==>
            !ReinitOutcome(s, fields).NotWarm? && exists k :: k in SIZES && k in fields && !IsNumber(fields[k])
  {
    RaisesIff(s, fields, |SIZES|);
    assert SIZES[..|SIZES|] == SIZES;
  }

  lemma {:induction false} RaisesIff(s: State, fields: Knobs, n: nat)
    requires n <= |SIZES|
    ensures Resized(s, fields, n).1 <==> exists k :: k in SIZES[..n] && k in fields && !IsNumber(fields[k])
  {
    if n > 0 {
      RaisesIff(s, fields, n - 1);
      assert SIZES[..n] == SIZES[..n - 1] + [SIZES[n - 1]];
    }
  }
}
