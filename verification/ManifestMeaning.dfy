/** What the manifest's verdict on a field comes from, by its class and its value, and what both loops make of it. */
module ManifestMeaning {
  import opened Wrappers
  import opened PyValues
  import opened Manifest
  import opened Targets
  import E = MockEngine
  import R = ReconcilerModel
  import S = SupervisorModel
  import Safety = SupervisorSafety

  // ------------------------------------------------------- the verdict on a value

  /** Within the bounds the manifest gives, both inclusive. */
  ghost predicate InBounds(knob: Knob, x: real) {
    (knob.vmin.Some? ==> knob.vmin.value <= x) && (knob.vmax.Some? ==> x <= knob.vmax.value)
  }

  /** A value a knob can have: for text, one of the choices in any case when there are some; for a whole number, an
      integer in bounds; for a number, an integer or a float in bounds. A bool is none of these. */
  ghost predicate GoodValue(knob: Knob, v: Value) {
    match knob.vtype
    case StrT => v.Str? && (knob.choices == [] || exists c :: c in knob.choices && Lower(c) == Lower(v.s))
    case IntT => v.Int? && InBounds(knob, v.n as real)
    case NumberT => (v.Int? && InBounds(knob, v.n as real)) || (v.Float? && InBounds(knob, v.x))
  }

  /** The manifest calls it cold or warm: not a field to push while the engine runs. */
  predicate NeedsEngine(m: Manifest, k: Field) {
    k in m && m[k].klass in {ColdK, WarmK}
  }

  /** Unknown, deferred, or of another class than cold and warm with a value it cannot have. */
  ghost predicate BadField(m: Manifest, k: Field, v: Value) {
    k !in m || m[k].klass == DeferredK || (m[k].klass !in {ColdK, WarmK} && !GoodValue(m[k], v))
  }

  lemma ListedInAnyCase(s: string, choices: seq<string>)
    ensures Lower(s) in LowerAll(choices) <==> exists c :: c in choices && Lower(c) == Lower(s)
  {
    if Lower(s) in LowerAll(choices) {
      var i :| 0 <= i < |choices| && LowerAll(choices)[i] == Lower(s);
      assert choices[i] in choices;
    }
    if exists c :: c in choices && Lower(c) == Lower(s) {
      var c :| c in choices && Lower(c) == Lower(s);
      var i :| 0 <= i < |choices| && choices[i] == c;
      assert LowerAll(choices)[i] == Lower(s);
    }
  }

  /** A choice it does not have, for a knob whose choices happen to be spelled with "cold" or "warm": the reconciler
      reads the refusal, which lists them, as that of a cold field. */
  ghost predicate Misread(m: Manifest, k: Field, v: Value) {
    && k in m && m[k].klass !in {ColdK, WarmK, DeferredK} && m[k].vtype == StrT && v.Str?
    && !GoodValue(m[k], v) && Mentions(m[k].choices)
  }

  lemma TextVerdict(m: Manifest, k: Field, v: Value)
    requires k in m && m[k].klass !in {ColdK, WarmK, DeferredK} && m[k].vtype == StrT
    ensures Judge(m, k, v).None? <==> GoodValue(m[k], v)
    ensures Judge(m, k, v).Some? ==> Judge(m, k, v).value == if v.Str? then NotAChoice(m[k].choices) else NotAString
  {
    if v.Str? {
      ListedInAnyCase(v.s, m[k].choices);
    }
  }

  lemma NumberVerdict(m: Manifest, k: Field, v: Value)
    requires k in m && m[k].klass !in {ColdK, WarmK, DeferredK} && m[k].vtype != StrT
    ensures Judge(m, k, v).None? <==> GoodValue(m[k], v)
    ensures Judge(m, k, v).Some? ==> Judge(m, k, v).value in {NotANumber, BelowMin, AboveMax}
  {
  }

  /** A field goes to the engine exactly when it is known, of no class that forbids it, and has a good value; of the
      refused ones, those of class cold or warm, whatever their value, are the ones that wait for the engine, and with
      them the misread ones. */
  lemma VerdictByClass(m: Manifest, k: Field, v: Value)
    ensures Judge(m, k, v).None? <==> !BadField(m, k, v) && !NeedsEngine(m, k)
    ensures Judge(m, k, v).Some? && Pending(Judge(m, k, v).value) <==> NeedsEngine(m, k) || Misread(m, k, v)
    ensures Judge(m, k, v).Some? && !Pending(Judge(m, k, v).value) <==> BadField(m, k, v) && !Misread(m, k, v)
  {
    if k in m && m[k].klass !in {ColdK, WarmK, DeferredK} {
      OpenVerdict(m, k, v);
    } else {
      ClosedVerdict(m, k, v);
    }
  }

  lemma ClosedVerdict(m: Manifest, k: Field, v: Value)
    requires k !in m || m[k].klass in {ColdK, WarmK, DeferredK}
    ensures Judge(m, k, v).Some? && !Misread(m, k, v)
    ensures Pending(Judge(m, k, v).value) <==> NeedsEngine(m, k)
    ensures BadField(m, k, v) <==> !NeedsEngine(m, k)
  {
  }

  lemma OpenVerdict(m: Manifest, k: Field, v: Value)
    requires k in m && m[k].klass !in {ColdK, WarmK, DeferredK}
    ensures !NeedsEngine(m, k) && (BadField(m, k, v) <==> !GoodValue(m[k], v))
    ensures Judge(m, k, v).None? <==> GoodValue(m[k], v)
    ensures Judge(m, k, v).Some? ==> (Pending(Judge(m, k, v).value) <==> Misread(m, k, v))
    ensures Misread(m, k, v) ==> Judge(m, k, v).Some?
  {
    OtherVerdict(m, k, v);
  }

  lemma OtherVerdict(m: Manifest, k: Field, v: Value)
    requires k in m && m[k].klass !in {ColdK, WarmK, DeferredK}
    ensures Judge(m, k, v).None? <==> GoodValue(m[k], v)
    ensures Judge(m, k, v).Some? ==>
              (Pending(Judge(m, k, v).value) <==> m[k].vtype == StrT && v.Str? && Mentions(m[k].choices))
  {
    if m[k].vtype == StrT {
      TextVerdict(m, k, v);
    } else {
      NumberVerdict(m, k, v);
    }
  }

  // ------------------------------------------------------------ shipped choices

  lemma ContainsLetters(s: string, w: string, c: char)
    requires Contains(s, w) && c in w
    ensures c in s
  {
    var i :| 0 <= i <= |s| && StandsAt(s, w, i);
    var j :| 0 <= j < |w| && w[j] == c;
    assert s[i + j] == s[i..i + |w|][j];
  }

  lemma Plain(s: string)
    requires 'c' !in s || 'd' !in s
    requires 'w' !in s || 'm' !in s
    ensures !Contains(s, "cold") && !Contains(s, "warm")
  {
    var cold, warm := "cold", "warm";
    assert cold[0] == 'c' && cold[3] == 'd' && warm[0] == 'w' && warm[3] == 'm';
    if Contains(s, cold) {
      ContainsLetters(s, cold, 'c');
      ContainsLetters(s, cold, 'd');
    }
    if Contains(s, warm) {
      ContainsLetters(s, warm, 'w');
      ContainsLetters(s, warm, 'm');
    }
  }

  /** None of the shipped knobs is misread. */
  lemma ShippedChoicesArePlain()
    ensures !Mentions(LEVELS) && !Mentions(POLICIES)
  {
    forall i | 0 <= i < |LEVELS| ensures !Contains(LEVELS[i], "cold") && !Contains(LEVELS[i], "warm") {
      Plain(LEVELS[i]);
    }
    forall i | 0 <= i < |POLICIES| ensures !Contains(POLICIES[i], "cold") && !Contains(POLICIES[i], "warm") {
      Plain(POLICIES[i]);
    }
  }

  /** Which of the two refusals a waiting field gets, and why a value is refused. */
  lemma ReasonByClass(m: Manifest, k: Field, v: Value)
    requires Judge(m, k, v).Some?
    ensures var reason := Judge(m, k, v).value;
            && (reason == NotInManifest <==> k !in m)
            && (reason == NeedsRelaunch <==> k in m && m[k].klass == ColdK)
            && (reason == NeedsReinit <==> k in m && m[k].klass == WarmK)
            && (reason == NotHot <==> k in m && m[k].klass == DeferredK)
            && (reason.NotAString? || reason.NotAChoice? ==>
                   k in m && m[k].vtype == StrT && (reason.NotAString? <==> !v.Str?))
            && (reason.NotAChoice? ==> reason.choices == m[k].choices)
            && (reason in {NotANumber, BelowMin, AboveMax} ==>
                  k in m && m[k].vtype != StrT
                      && (reason == NotANumber <==> !v.Int? && !(m[k].vtype == NumberT && v.Float?)))
            && (reason == BelowMin ==> IsNumber(v) && m[k].vmin.Some? && NumOf(v) < m[k].vmin.value)
            && (reason == AboveMax ==> IsNumber(v) && m[k].vmax.Some? && NumOf(v) > m[k].vmax.value)
  {
  }

  // ------------------------------------------------------------ the reconciler

  /** Past the no-op a tick is refused by the manifest, which leaves everything as it was, exactly when some field is
      bad and not misread; when it does not fail, it reports cold fields pending exactly when the version names one, or
      one that is misread. */
  lemma TickByClass(m: Manifest, r: R.Replica, t: Target)
    requires !R.Idle(r, Some(t))
    ensures (exists k :: k in t.fields && BadField(m, k, t.fields[k]) && !Misread(m, k, t.fields[k])) ==>
              R.TickStatus(m, r, Some(t)).Failed? && R.Tick(m, r, Some(t)) == r
    ensures (forall k | k in t.fields :: BadField(m, k, t.fields[k]) ==> Misread(m, k, t.fields[k])) ==>
              (R.TickStatus(m, r, Some(t)).Failed? <==> !R.PushOk(r.engine, Accepted(m, t.fields)))
    ensures !R.TickStatus(m, r, Some(t)).Failed? ==>
              && (R.TickStatus(m, r, Some(t)).ReinitPending? <==>
                    exists k :: k in t.fields && (NeedsEngine(m, k) || Misread(m, k, t.fields[k])))
              && R.Tick(m, r, Some(t)).applied == Some(t.id)
  {
    SortedByClass(m, t.fields);
  }

  lemma SortedByClass(m: Manifest, fields: Changes)
    ensures forall k :: k in R.Bad(m, fields) <==> k in fields && BadField(m, k, fields[k]) && !Misread(m, k, fields[k])
    ensures forall k :: k in R.Cold(m, fields) <==> k in fields && (NeedsEngine(m, k) || Misread(m, k, fields[k]))
  {
    forall k | k in fields
      ensures k in R.Bad(m, fields) <==> BadField(m, k, fields[k]) && !Misread(m, k, fields[k])
      ensures k in R.Cold(m, fields) <==> NeedsEngine(m, k) || Misread(m, k, fields[k])
    {
      VerdictByClass(m, k, fields[k]);
    }
  }

  /** And then every other field of the version is held by the engine: on an SGLang replica the very value, on a vLLM
      one with its manifest the value or the level in upper case. */
  lemma HotFieldsHeld(m: Manifest, r: R.Replica, t: Target, k: Field)
    requires !R.Idle(r, Some(t)) && !R.TickStatus(m, r, Some(t)).Failed?
    requires k in t.fields && !NeedsEngine(m, k) && !Misread(m, k, t.fields[k])
    requires r.engine.kind.VllmMock? ==> Ships(m, VLLM_HOT) && r.engine.knobs.Keys == VLLM_HOT.Keys
    ensures k in R.Tick(m, r, Some(t)).engine.knobs
    ensures Safety.Same(k, R.Tick(m, r, Some(t)).engine.knobs[k], t.fields[k])
  {
    R.AppliedAgrees(m, r, t);
    R.ApplyKeepsShape(r.engine, Accepted(m, t.fields));
    VerdictByClass(m, k, t.fields[k]);
    assert k !in R.Bad(m, t.fields);
    assert k in Accepted(m, t.fields);
    if r.engine.kind.VllmMock? {
      VllmValue(m, R.Tick(m, r, Some(t)).engine, k, t.fields[k]);
    }
  }

  lemma VllmValue(m: Manifest, e: E.State, k: Field, v: Value)
    requires Ships(m, VLLM_HOT) && k in VLLM_HOT && Judge(m, k, v).None? && E.Judge(e, k, v).Store?
    ensures Safety.Same(k, E.Judge(e, k, v).value, v)
  {
    assert m[k] == VLLM_HOT[k];
  }

  // ------------------------------------------------------------ the supervisor

  /** The split is by class: a field is on the cold side exactly when the manifest calls it cold or warm, with its
      value, and on the hot side otherwise. */
  lemma SplitByClass(env: S.Env, fields: Changes)
    ensures S.ColdPart(env, fields).Keys == set k | k in fields && NeedsEngine(env.manifest, k)
    ensures S.HotPart(env, fields).Keys == set k | k in fields && !NeedsEngine(env.manifest, k)
    ensures forall k | k in S.ColdPart(env, fields) :: S.ColdPart(env, fields)[k] == fields[k]
    ensures forall k | k in S.HotPart(env, fields) :: S.HotPart(env, fields)[k] == fields[k]
  {
  }

  /** The hot part is never refused for want of a relaunch or a reinit, but for a bad value or name. */
  lemma HotPartNeverPends(env: S.Env, fields: Changes, k: Field)
    requires k in Rejected(env.manifest, S.HotPart(env, fields))
    ensures var reason := Rejected(env.manifest, S.HotPart(env, fields))[k];
            !reason.NeedsRelaunch? && !reason.NeedsReinit? && BadField(env.manifest, k, fields[k])
  {
    VerdictByClass(env.manifest, k, fields[k]);
    ReasonByClass(env.manifest, k, fields[k]);
  }

  /** A version all of whose fields are cold or warm never ends failed, whatever crashes and however the calls go: it is
      healthy or the tick raises. */
  lemma ColdVersionsDoNotFail(env: S.Env, s: S.Sup, t: Target, script: S.Script)
    requires forall k | k in t.fields :: NeedsEngine(env.manifest, k)
    ensures S.Tick(env, s, Some(t), script).1 != Some(S.Failed)
  {
    assert S.HotPart(env, t.fields).Keys == {};
  }

  // ----------------------------------------------------------------- both loops

  function MisreadFields(m: Manifest, fields: Changes): (ks: set<Field>)
    ensures forall k :: k in ks <==>
              && k in fields && Judge(m, k, fields[k]).Some?
              && Judge(m, k, fields[k]).value.NotAChoice?
              && Mentions(Judge(m, k, fields[k]).value.choices)
  {
    set k | k in fields && Judge(m, k, fields[k]).Some? && Judge(m, k, fields[k]).value.NotAChoice?
            && Mentions(Judge(m, k, fields[k]).value.choices)
  }

  lemma MisreadFieldsAre(m: Manifest, fields: Changes, k: Field)
    requires k in fields
    ensures k in MisreadFields(m, fields) <==> Misread(m, k, fields[k])
  {
    if k in m && m[k].klass !in {ColdK, WarmK, DeferredK} {
      if m[k].vtype == StrT {
        TextVerdict(m, k, fields[k]);
      } else {
        NumberVerdict(m, k, fields[k]);
      }
    }
  }

  /** The fields the reconciler leaves pending are the supervisor's cold part of the same version and those it misreads;
      what it finds wrong is what is wrong with the supervisor's hot part but for these; both push the same. */
  lemma LoopsSplitAlike(env: S.Env, fields: Changes)
    ensures R.Cold(env.manifest, fields) == S.ColdPart(env, fields).Keys + MisreadFields(env.manifest, fields)
    ensures R.Bad(env.manifest, fields)
            == Rejected(env.manifest, S.HotPart(env, fields)).Keys - MisreadFields(env.manifest, fields)
    ensures Accepted(env.manifest, fields).Keys == Accepted(env.manifest, S.HotPart(env, fields)).Keys
  {
    var m := env.manifest;
    forall k | k in fields
      ensures k in R.Cold(m, fields) <==> k in S.ColdPart(env, fields) || k in MisreadFields(m, fields)
      ensures k in R.Bad(m, fields) <==> k in Rejected(m, S.HotPart(env, fields)) && k !in MisreadFields(m, fields)
      ensures k in Accepted(m, fields) <==> k in Accepted(m, S.HotPart(env, fields))
    {
      VerdictByClass(m, k, fields[k]);
      MisreadFieldsAre(m, fields, k);
    }
  }

  /** When no choice of the manifest is spelled so, as in the shipped ones, the split and the refusals are the same. */
  lemma LoopsAgree(env: S.Env, fields: Changes)
    requires forall k | k in env.manifest :: !Mentions(env.manifest[k].choices)
    ensures R.Cold(env.manifest, fields) == S.ColdPart(env, fields).Keys
    ensures R.Bad(env.manifest, fields) == {} <==> IsEmpty(Rejected(env.manifest, S.HotPart(env, fields)))
  {
    LoopsSplitAlike(env, fields);
    forall k | k in fields ensures k !in MisreadFields(env.manifest, fields) {
      MisreadFieldsAre(env.manifest, fields, k);
    }
    assert MisreadFields(env.manifest, fields) == {};
  }

  /** A misread field hides a mistake: the reconciler pushes the rest, remembers the version and reports a cold field
      pending, while the supervisor ends failed on the same version. */
  lemma MisreadHidesAMistake(env: S.Env, r: R.Replica, t: Target, k: Field)
    requires !R.Idle(r, Some(t)) && t.fields.Keys == {k} && Misread(env.manifest, k, t.fields[k])
    ensures R.TickStatus(env.manifest, r, Some(t)).ReinitPending?
    ensures R.Tick(env.manifest, r, Some(t)) == r.(applied := Some(t.id))
    ensures !IsEmpty(Rejected(env.manifest, S.HotPart(env, t.fields)))
  {
    SortedByClass(env.manifest, t.fields);
    VerdictByClass(env.manifest, k, t.fields[k]);
    assert R.Bad(env.manifest, t.fields) == {} && k in R.Cold(env.manifest, t.fields);
    assert Accepted(env.manifest, t.fields).Keys == {};
    assert k in Rejected(env.manifest, S.HotPart(env, t.fields));
  }
}
