/** The reconciler loop over one engine: every tick compares the replica's target with what it last applied. */
module ReconcilerModel {
  import opened Wrappers
  import opened PyValues
  import opened Manifest
  import opened Targets
  import E = MockEngine

  datatype Status = Healthy | Failed | ReinitPending

  /** A replica: its engine and the version it last applied. */
  datatype Replica = Replica(engine: E.State, applied: Option<VersionId>)

  function Cold(m: Manifest, fields: Changes): set<Field> {
    set k | k in fields && Judge(m, k, fields[k]).Some? && Pending(Judge(m, k, fields[k]).value)
  }

  function Bad(m: Manifest, fields: Changes): set<Field> {
    set k | k in fields && Judge(m, k, fields[k]).Some? && !Pending(Judge(m, k, fields[k]).value)
  }

  predicate Idle(r: Replica, t: Option<Target>) {
    t.None? || r.applied == Some(t.value.id)
  }

  /** The engine once the hot part of a version has been pushed, if it has one. */
  function Pushed(e: E.State, hot: Changes): E.State {
    if IsEmpty(hot) then e else E.Apply(e, hot)
  }

  predicate PushOk(e: E.State, hot: Changes) {
    IsEmpty(hot) || E.SetHotOk(e, hot)
  }

  function TickStatus(m: Manifest, r: Replica, t: Option<Target>): Status {
    if Idle(r, t) then Healthy
    else if Bad(m, t.value.fields) != {} then Failed
    else if !PushOk(r.engine, Accepted(m, t.value.fields)) then Failed
    else if Cold(m, t.value.fields) != {} then ReinitPending
    else Healthy
  }

  function Tick(m: Manifest, r: Replica, t: Option<Target>): Replica {
    if Idle(r, t) || Bad(m, t.value.fields) != {} then r
    else
      var hot := Accepted(m, t.value.fields);
      Replica(Pushed(r.engine, hot), if PushOk(r.engine, hot) then Some(t.value.id) else r.applied)
  }

  /** The tick as the reconciler makes it: validate, sort the rejections, push, remember. */
  class Reconciler {
    const manifest: Manifest
    const engine: E.Engine
    var applied: Option<VersionId>

    ghost function Model(): Replica
      reads this, engine
    {
      Replica(engine.Model(), applied)
    }

    constructor (manifest: Manifest, engine: E.Engine)
      ensures this.manifest == manifest && this.engine == engine && applied == None
    {
      this.manifest, this.engine, applied := manifest, engine, None;
    }

    method DoTick(desired: Option<Target>, fields: Items<Field, Value>) returns (status: Status)
      requires DistinctKeys(fields) && (desired.Some? ==> desired.value.fields == ToMap(fields))
      modifies this, engine
      ensures Model() == Tick(manifest, old(Model()), desired)
      ensures status == TickStatus(manifest, old(Model()), desired)
    {
      if desired.None? || applied == Some(desired.value.id) { return Healthy; }
      var hot, rejected := Validate(manifest, fields);
      var cold := set k | k in rejected && Pending(rejected[k]);
      var bad := set k | k in rejected && k !in cold;
      assert cold == Cold(manifest, desired.value.fields) && bad == Bad(manifest, desired.value.fields);
      if bad != {} { return Failed; }
      if !IsEmpty(hot) {
        ghost var before := engine.Model();
        KeptItems(fields, hot.Keys);
        assert ToMap(KeepItems(fields, hot.Keys)) == hot;
        var answer := engine.DoApply(map[], KeepItems(fields, hot.Keys));
        var ok := IsEmpty(answer.value.rejected)
            && (engine.kind.SglangMock? ==> forall k | k in hot :: k in engine.knobs && Eq(engine.knobs[k], hot[k]));
        assert ok == E.SetHotOk(before, hot);
        if !ok { return Failed; }
      }
      applied := Some(desired.value.id);
      return if cold != {} then ReinitPending else Healthy;
    }
  }

  // ---------------------------------------------------------------- agreement

  /** The engine holds, for every field the version names and the manifest lets through, the value it stores for it. */
  ghost predicate Agrees(m: Manifest, e: E.State, fields: Changes) {
    forall k | k in Accepted(m, fields) ::
      k in e.knobs && E.Judge(e, k, fields[k]).Store? && e.knobs[k] == E.Judge(e, k, fields[k]).value
  }

  /** What the engine stores for a value depends on the engine's ceilings and on which knobs it has, not on their
      values, and neither changes. */
  lemma JudgeIsStable(e: E.State, e': E.State, k: Field, v: Value)
    requires e'.ceilings == e.ceilings && e'.knobs.Keys == e.knobs.Keys
    ensures E.Judge(e', k, v) == E.Judge(e, k, v)
  {
  }

  lemma ApplyKeepsShape(e: E.State, c: Changes)
    ensures E.Apply(e, c).knobs.Keys == e.knobs.Keys && E.Apply(e, c).ceilings == e.ceilings
  {
  }

  /** A tick that ends healthy (or with only cold fields left over) past the no-op branch leaves the engine agreeing
      with the target on everything the manifest lets through, and on an SGLang replica holding the very values. */
  lemma AppliedAgrees(m: Manifest, r: Replica, t: Target)
    requires !Idle(r, Some(t)) && !TickStatus(m, r, Some(t)).Failed?
    ensures var e := Tick(m, r, Some(t)).engine;
            && Agrees(m, e, t.fields) && Tick(m, r, Some(t)).applied == Some(t.id)
            && (e.kind.SglangMock? ==> forall k | k in Accepted(m, t.fields) :: Eq(e.knobs[k], t.fields[k]))
            && (TickStatus(m, r, Some(t)).Healthy? ==> Accepted(m, t.fields) == t.fields)
  {
    PushedAgrees(r.engine, Accepted(m, t.fields));
    if TickStatus(m, r, Some(t)).Healthy? {
      AllAccepted(m, t.fields);
    }
  }

  /** What an ok push leaves: every value as the engine judges it, and on an SGLang replica as it was sent. */
  lemma PushedAgrees(e: E.State, hot: Changes)
    requires PushOk(e, hot)
    ensures var e' := Pushed(e, hot);
            && e'.kind == e.kind
            && forall k | k in hot ::
                 && k in e'.knobs && E.Judge(e', k, hot[k]).Store? && e'.knobs[k] == E.Judge(e', k, hot[k]).value
                 && (e.kind.SglangMock? ==> Eq(e'.knobs[k], hot[k]))
  {
    var e' := Pushed(e, hot);
    ApplyKeepsShape(e, hot);
    forall k | k in hot
      ensures k in e'.knobs && E.Judge(e', k, hot[k]).Store? && e'.knobs[k] == E.Judge(e', k, hot[k]).value
    {
      JudgeIsStable(e, e', k, hot[k]);
      assert k !in E.Refused(e, hot);
    }
  }

  lemma AllAccepted(m: Manifest, fields: Changes)
    requires Cold(m, fields) == {} && Bad(m, fields) == {}
    ensures Accepted(m, fields) == fields
  {
    forall k | k in fields ensures k in Accepted(m, fields) {
      assert k !in Cold(m, fields) && k !in Bad(m, fields);
    }
  }

  /** The engine is called again only when the target id changes: a tick on the applied target touches nothing. */
  lemma NoSecondCall(m: Manifest, r: Replica, t: Target)
    requires !TickStatus(m, r, Some(t)).Failed?
    ensures var r' := Tick(m, r, Some(t));
            Tick(m, r', Some(t)) == r' && TickStatus(m, r', Some(t)).Healthy? && r'.engine.calls <= r.engine.calls + 1
  {
  }

  // --------------------------------------------------------------------- runs

  function Run(m: Manifest, vs: Versions, r: Replica, targets: seq<Option<VersionId>>): Replica
    requires forall t | t in targets && t.Some? :: t.value in vs
  {
    if targets == [] then r
    else
      var t := targets[|targets| - 1];
      Tick(m, Run(m, vs, r, targets[..|targets| - 1]), if t.Some? then Some(Target(t.value, vs[t.value])) else None)
  }

  /** No tick of the run failed: each was healthy, or left cold fields pending. */
  ghost predicate NoneFailed(m: Manifest, vs: Versions, r: Replica, targets: seq<Option<VersionId>>)
    requires forall t | t in targets && t.Some? :: t.value in vs
  {
    forall i | 0 <= i < |targets| ::
      !TickStatus(m, Run(m, vs, r, targets[..i]), if targets[i].Some?
          then Some(Target(targets[i].value, vs[targets[i].value])) else None).Failed?
  }

  /** What the engine stores for a whole version: the values it makes of the fields the manifest lets through. */
  function Canon(m: Manifest, e: E.State, fields: Changes): Changes {
    E.Stored(e, Accepted(m, fields))
  }

  /** The versions of a run laid over each other in the order they were targeted. */
  function Written(m: Manifest, e: E.State, vs: Versions, targets: seq<Option<VersionId>>): Changes
    requires forall t | t in targets && t.Some? :: t.value in vs
  {
    if targets == [] then map[]
    else
      var t := targets[|targets| - 1];
      var w := Written(m, e, vs, targets[..|targets| - 1]);
      if t.Some? then w + Canon(m, e, vs[t.value]) else w
  }

  /** The last target of a run that was not None. */
  function LastTarget(targets: seq<Option<VersionId>>): Option<VersionId> {
    if targets == [] then None
    else if targets[|targets| - 1].Some? then targets[|targets| - 1] else LastTarget(targets[..|targets| - 1])
  }

  lemma SameCanon(m: Manifest, e: E.State, e': E.State, fields: Changes)
    requires e'.ceilings == e.ceilings && e'.knobs.Keys == e.knobs.Keys
    ensures Canon(m, e, fields) == Canon(m, e', fields)
  {
  }

  /** The version targeted last is the one on top. */
  lemma {:induction false} LastOnTop(m: Manifest, e: E.State, vs: Versions, targets: seq<Option<VersionId>>)
    requires forall t | t in targets && t.Some? :: t.value in vs
    ensures LastTarget(targets).Some? ==>
              && LastTarget(targets).value in vs
              && Written(m, e, vs, targets) + Canon(m, e, vs[LastTarget(targets).value]) == Written(m, e, vs, targets)
  {
    if targets != [] && targets[|targets| - 1].None? {
      LastOnTop(m, e, vs, targets[..|targets| - 1]);
    }
  }

  lemma OverlayAssoc(a: Changes, b: Changes, c: Changes)
    ensures a + b + c == a + (b + c)
  {
  }

  /** A tick that does not fail lays the version over the knobs, when it is not the one already there. */
  lemma OneTick(m: Manifest, boot: E.State, r: Replica, t: Target, w: Changes)
    requires !Idle(r, Some(t)) && !TickStatus(m, r, Some(t)).Failed?
    requires r.engine.ceilings == boot.ceilings && r.engine.knobs.Keys == boot.knobs.Keys
            && r.engine.knobs == boot.knobs + w
    ensures var r' := Tick(m, r, Some(t));
            && r'.engine.knobs == boot.knobs + (w + Canon(m, boot, t.fields))
            && r'.engine.ceilings == boot.ceilings && r'.engine.knobs.Keys == boot.knobs.Keys
  {
    var hot := Accepted(m, t.fields);
    ApplyKeepsShape(r.engine, hot);
    SameCanon(m, r.engine, boot, t.fields);
    OverlayAssoc(boot.knobs, w, Canon(m, boot, t.fields));
  }

  /** Over every run of promotions, rollbacks and ticks of which none fails, from a replica that has applied nothing
      yet, and whatever order the targets came in: the replica has applied the last target, its engine agrees with it
      on every field the manifest lets through, and its knobs are the boot knobs with the targeted versions laid over
      them in order. */
  lemma {:induction false} HealthyRuns(m: Manifest, vs: Versions, r: Replica, targets: seq<Option<VersionId>>)
    requires r.applied == None && forall t | t in targets && t.Some? :: t.value in vs
    requires NoneFailed(m, vs, r, targets)
    ensures var r' := Run(m, vs, r, targets);
            && r'.applied == LastTarget(targets)
            && r'.engine.ceilings == r.engine.ceilings && r'.engine.knobs.Keys == r.engine.knobs.Keys
            && (r'.applied.Some? ==> r'.applied.value in vs && Agrees(m, r'.engine, vs[r'.applied.value]))
            && r'.engine.knobs == r.engine.knobs + Written(m, r.engine, vs, targets)
  {
    if targets != [] {
      var n := |targets| - 1;
      var before := Run(m, vs, r, targets[..n]);
      assert forall i | 0 <= i < n :: targets[..n][..i] == targets[..i];
      HealthyRuns(m, vs, r, targets[..n]);
      if targets[n].Some? {
        var t := Target(targets[n].value, vs[targets[n].value]);
        if before.applied == targets[n] {
          LastOnTop(m, r.engine, vs, targets[..n]);
        } else {
          AppliedAgrees(m, before, t);
          OneTick(m, r.engine, before, t, Written(m, r.engine, vs, targets[..n]));
        }
      }
    }
  }

  // -------------------------------------------------------------- engine calls

  /** Tick `i` of the run reaches the engine: its target is not the one applied, the manifest has nothing against it but
      cold fields, and it lets something through. */
  predicate CallsAt(m: Manifest, vs: Versions, r: Replica, targets: seq<Option<VersionId>>, i: nat)
    requires i < |targets| && forall t | t in targets && t.Some? :: t.value in vs
  {
    && targets[i].Some? && Run(m, vs, r, targets[..i]).applied != targets[i]
    && Bad(m, vs[targets[i].value]) == {} && !IsEmpty(Accepted(m, vs[targets[i].value]))
  }

  function CallCount(m: Manifest, vs: Versions, r: Replica, targets: seq<Option<VersionId>>, n: nat): nat
    requires n <= |targets| && forall t | t in targets && t.Some? :: t.value in vs
  {
    if n == 0 then 0 else CallCount(m, vs, r, targets, n - 1) + if CallsAt(m, vs, r, targets, n - 1) then 1 else 0
  }

  lemma OneTickCalls(m: Manifest, vs: Versions, r: Replica, targets: seq<Option<VersionId>>, n: nat)
    requires n < |targets| && forall t | t in targets && t.Some? :: t.value in vs
    ensures Run(m, vs, r, targets[..n + 1]).engine.calls
            == Run(m, vs, r, targets[..n]).engine.calls + if CallsAt(m, vs, r, targets, n) then 1 else 0
  {
    assert targets[..n + 1][..n] == targets[..n];
  }

  /** Over every run, failed ticks and all: the engine is called once for each such tick and never otherwise. */
  lemma {:induction false} CallsAreCounted(m: Manifest, vs: Versions, r: Replica, targets: seq<Option<VersionId>>,
                                           n: nat)
    requires n <= |targets| && forall t | t in targets && t.Some? :: t.value in vs
    ensures Run(m, vs, r, targets[..n]).engine.calls == r.engine.calls + CallCount(m, vs, r, targets, n)
  {
    if n > 0 {
      CallsAreCounted(m, vs, r, targets, n - 1);
      OneTickCalls(m, vs, r, targets, n - 1);
    }
  }

  /** Target `i` names another version than the last one before it, and one the manifest lets something of through. */
  predicate ChangesAt(m: Manifest, vs: Versions, targets: seq<Option<VersionId>>, i: nat)
    requires i < |targets| && forall t | t in targets && t.Some? :: t.value in vs
  {
    targets[i].Some? && LastTarget(targets[..i]) != targets[i] && !IsEmpty(Accepted(m, vs[targets[i].value]))
  }

  function ChangeCount(m: Manifest, vs: Versions, targets: seq<Option<VersionId>>, n: nat): nat
    requires n <= |targets| && forall t | t in targets && t.Some? :: t.value in vs
  {
    if n == 0 then 0 else ChangeCount(m, vs, targets, n - 1) + if ChangesAt(m, vs, targets, n - 1) then 1 else 0
  }

  /** When none fails, the engine is called as often as the target changes, however many ticks there are. */
  lemma {:induction false} CallsAreChanges(m: Manifest, vs: Versions, r: Replica, targets: seq<Option<VersionId>>,
                                           n: nat)
    requires n <= |targets| && forall t | t in targets && t.Some? :: t.value in vs
    requires r.applied == None && NoneFailed(m, vs, r, targets)
    ensures Run(m, vs, r, targets[..n]).engine.calls == r.engine.calls + ChangeCount(m, vs, targets, n)
  {
    if n > 0 {
      CallsAreChanges(m, vs, r, targets, n - 1);
      OneTickCalls(m, vs, r, targets, n - 1);
      CallsWhenChanges(m, vs, r, targets, n - 1);
    }
  }

  lemma CallsWhenChanges(m: Manifest, vs: Versions, r: Replica, targets: seq<Option<VersionId>>, i: nat)
    requires i < |targets| && forall t | t in targets && t.Some? :: t.value in vs
    requires r.applied == None && NoneFailed(m, vs, r, targets)
    ensures CallsAt(m, vs, r, targets, i) <==> ChangesAt(m, vs, targets, i)
  {
    FailedPrefix(m, vs, r, targets, i);
    HealthyRuns(m, vs, r, targets[..i]);
  }

  // ---------------------------------------------------------------- rollbacks

  lemma {:induction false} WrittenConcat(m: Manifest, e: E.State, vs: Versions, a: seq<Option<VersionId>>,
                                         b: seq<Option<VersionId>>)
    requires forall t | t in a + b && t.Some? :: t.value in vs
    ensures (forall t | t in a && t.Some? :: t.value in vs) && (forall t | t in b && t.Some? :: t.value in vs)
    ensures Written(m, e, vs, a + b) == Written(m, e, vs, a) + Written(m, e, vs, b)
  {
    assert forall t | t in a :: t in a + b;
    assert forall t | t in b :: t in a + b;
    if b == [] {
      assert a + b == a;
    } else {
      var n := |b| - 1;
      assert (a + b)[..|a + b| - 1] == a + b[..n];
      assert forall t | t in a + b[..n] :: t in a + b;
      WrittenConcat(m, e, vs, a, b[..n]);
      if b[n].Some? {
        OverlayAssoc(Written(m, e, vs, a), Written(m, e, vs, b[..n]), Canon(m, e, vs[b[n].value]));
      }
    }
  }

  /** Laying w and then c, which is there already, over some knobs brings them back exactly when w changes nothing
      outside c. */
  lemma OverlayBack(boot: Changes, a: Changes, w: Changes, c: Changes)
    requires w.Keys <= boot.Keys && a + c == a
    ensures boot + (a + w + c) == boot + a <==> forall k | k in w && k !in c :: w[k] == (boot + a)[k]
  {
    var back, was := boot + (a + w + c), boot + a;
    forall k ensures k in c ==> k in a && a[k] == c[k] {
      assert k in c ==> (a + c)[k] == c[k];
    }
    forall k | k in was ensures k in back && back[k] == if k in w && k !in c then w[k] else was[k] {
    }
    assert back.Keys == was.Keys;
    forall k | k in w && k !in c ensures k in was && back[k] == w[k] {
    }
  }

  lemma {:induction false} WrittenKeys(m: Manifest, e: E.State, vs: Versions, targets: seq<Option<VersionId>>)
    requires forall t | t in targets && t.Some? :: t.value in vs
    ensures Written(m, e, vs, targets).Keys <= e.knobs.Keys
  {
    if targets != [] {
      WrittenKeys(m, e, vs, targets[..|targets| - 1]);
    }
  }

  lemma FailedPrefix(m: Manifest, vs: Versions, r: Replica, targets: seq<Option<VersionId>>, n: nat)
    requires n <= |targets| && (forall t | t in targets && t.Some? :: t.value in vs) && NoneFailed(m, vs, r, targets)
    ensures NoneFailed(m, vs, r, targets[..n])
  {
    assert forall i | 0 <= i < n :: targets[..n][..i] == targets[..i];
  }

  /** A rollback to version v, after any targets in between and with no failed tick, brings back the knobs v had when
      it was applied before, exactly when whatever those in between wrote to knobs that v does not set is what these
      knobs held already. */
  lemma RollbackIff(m: Manifest, vs: Versions, r: Replica, first: seq<Option<VersionId>>,
                    between: seq<Option<VersionId>>, v: VersionId)
    requires r.applied == None && LastTarget(first) == Some(v)
    requires forall t | t in first + between + [Some(v)] && t.Some? :: t.value in vs
    requires NoneFailed(m, vs, r, first + between + [Some(v)])
    ensures (forall t | t in first && t.Some? :: t.value in vs)
            && (forall t | t in between && t.Some? :: t.value in vs) && v in vs
    ensures var was := Run(m, vs, r, first).engine.knobs;
            var w := Written(m, r.engine, vs, between);
            && w.Keys <= was.Keys
            && (Run(m, vs, r, first + between + [Some(v)]).engine.knobs == was <==>
                  forall k | k in w && k !in Canon(m, r.engine, vs[v]) :: w[k] == was[k])
  {
    var e := r.engine;
    RollbackParts(first, between, v);
    RollbackKnobs(m, vs, r, first, between, v);
    WrittenKeys(m, e, vs, between);
    LastOnTop(m, e, vs, first);
    OverlayBack(e.knobs, Written(m, e, vs, first), Written(m, e, vs, between), Canon(m, e, vs[v]));
  }

  lemma RollbackParts(first: seq<Option<VersionId>>, between: seq<Option<VersionId>>, v: VersionId)
    ensures var all := first + between + [Some(v)];
            && all[..|first|] == first && all[..|all| - 1] == first + between && all[|all| - 1] == Some(v)
            && (forall t | t in first :: t in all) && (forall t | t in between :: t in all)
            && (forall t | t in first + between :: t in all) && Some(v) in all
  {
    var all := first + between + [Some(v)];
    assert all[|all| - 1] == Some(v);
  }

  lemma RollbackKnobs(m: Manifest, vs: Versions, r: Replica, first: seq<Option<VersionId>>,
                      between: seq<Option<VersionId>>, v: VersionId)
    requires r.applied == None && v in vs
    requires forall t | t in first + between + [Some(v)] && t.Some? :: t.value in vs
    requires forall t | t in first && t.Some? :: t.value in vs
    requires forall t | t in between && t.Some? :: t.value in vs
    requires NoneFailed(m, vs, r, first + between + [Some(v)])
    ensures Run(m, vs, r, first).engine.knobs == r.engine.knobs + Written(m, r.engine, vs, first)
    ensures Run(m, vs, r, first + between + [Some(v)]).engine.knobs
            == r.engine.knobs
               + (Written(m, r.engine, vs, first) + Written(m, r.engine, vs, between) + Canon(m, r.engine, vs[v]))
  {
    var all := first + between + [Some(v)];
    RollbackParts(first, between, v);
    FailedPrefix(m, vs, r, all, |first|);
    HealthyRuns(m, vs, r, first);
    HealthyRuns(m, vs, r, all);
    WrittenConcat(m, r.engine, vs, first, between);
    assert Written(m, r.engine, vs, all) == Written(m, r.engine, vs, first + between) + Canon(m, r.engine, vs[v]);
  }

  lemma {:induction false} WrittenWithin(m: Manifest, e: E.State, vs: Versions, targets: seq<Option<VersionId>>,
                                         names: set<Field>)
    requires forall t | t in targets && t.Some? :: t.value in vs
    requires forall t | t in targets && t.Some? :: Canon(m, e, vs[t.value]).Keys <= names
    ensures Written(m, e, vs, targets).Keys <= names
  {
    if targets != [] {
      WrittenWithin(m, e, vs, targets[..|targets| - 1], names);
    }
  }

  /** So it always does when the versions in between set no knob that v does not set. */
  lemma RollbackWithin(m: Manifest, vs: Versions, r: Replica, first: seq<Option<VersionId>>,
                       between: seq<Option<VersionId>>, v: VersionId)
    requires r.applied == None && LastTarget(first) == Some(v)
    requires forall t | t in first + between + [Some(v)] && t.Some? :: t.value in vs
    requires NoneFailed(m, vs, r, first + between + [Some(v)])
    requires v in vs && forall t | t in between && t.Some? ::
              t.value in vs && Canon(m, r.engine, vs[t.value]).Keys <= Canon(m, r.engine, vs[v]).Keys
    ensures forall t | t in first && t.Some? :: t.value in vs
    ensures Run(m, vs, r, first + between + [Some(v)]).engine.knobs == Run(m, vs, r, first).engine.knobs
  {
    RollbackIff(m, vs, r, first, between, v);
    WrittenWithin(m, r.engine, vs, between, Canon(m, r.engine, vs[v]).Keys);
  }

  /** And when all targeted versions set the same knobs, the knobs depend on the last target alone. */
  lemma TargetAlone(m: Manifest, vs: Versions, r: Replica, targets: seq<Option<VersionId>>, names: set<Field>)
    requires r.applied == None && forall t | t in targets && t.Some? :: t.value in vs
    requires NoneFailed(m, vs, r, targets)
    requires forall t | t in targets && t.Some? :: Canon(m, r.engine, vs[t.value]).Keys == names
    ensures LastTarget(targets).Some? ==> LastTarget(targets).value in vs
    ensures Run(m, vs, r, targets).engine.knobs ==
            match LastTarget(targets)
            case None => r.engine.knobs
            case Some(v) => r.engine.knobs + Canon(m, r.engine, vs[v])
  {
    HealthyRuns(m, vs, r, targets);
    LastOnTop(m, r.engine, vs, targets);
    WrittenWithin(m, r.engine, vs, targets, names);
    NothingWritten(m, r.engine, vs, targets);
    if LastTarget(targets).Some? {
      OverlaySame(Written(m, r.engine, vs, targets), Canon(m, r.engine, vs[LastTarget(targets).value]));
    }
  }

  lemma OverlaySame(w: Changes, c: Changes)
    requires w + c == w && w.Keys <= c.Keys
    ensures w == c
  {
    assert forall k | k in c :: (w + c)[k] == c[k];
  }

  lemma {:induction false} NothingWritten(m: Manifest, e: E.State, vs: Versions, targets: seq<Option<VersionId>>)
    requires forall t | t in targets && t.Some? :: t.value in vs
    ensures if LastTarget(targets).Some? then LastTarget(targets) in targets else Written(m, e, vs, targets) == map[]
  {
    if targets != [] && targets[|targets| - 1].None? {
      NothingWritten(m, e, vs, targets[..|targets| - 1]);
    }
  }

  /** A tick on a version that names one hot field, which the engine stores as it is. */
  lemma PushOne(m: Manifest, r: Replica, id: VersionId, k: Field, v: Value)
    requires r.engine.kind.VllmMock? && r.applied != Some(id) && Judge(m, k, v).None?
            && E.Judge(r.engine, k, v) == E.Store(v)
    ensures var t := Some(Target(id, map[k := v]));
            && TickStatus(m, r, t).Healthy?
            && Tick(m, r, t) == With(r, id, k, v)
  {
    var fields := map[k := v];
    assert Accepted(m, fields) == fields && Bad(m, fields) == {} && Cold(m, fields) == {};
    assert E.Stored(r.engine, fields) == fields && IsEmpty(E.Refused(r.engine, fields));
    assert r.engine.knobs + fields == r.engine.knobs[k := v];
  }

  /** The replica after such a tick. */
  function With(r: Replica, id: VersionId, k: Field, v: Value): Replica {
    Replica(r.engine.(knobs := r.engine.knobs[k := v], calls := r.engine.calls + 1), Some(id))
  }

  /** One field, then another, then the first version again. */
  lemma PushThree(m: Manifest, r: Replica, k: Field, v: Value, k': Field, v': Value)
    requires r.engine.kind.VllmMock? && r.applied == None && k in r.engine.knobs && k' in r.engine.knobs
    requires Judge(m, k, v).None? && E.Judge(r.engine, k, v) == E.Store(v)
    requires Judge(m, k', v').None? && E.Judge(r.engine, k', v') == E.Store(v')
    ensures var a, b := Some(Target(1, map[k := v])), Some(Target(2, map[k' := v']));
            var r1 := With(r, 1, k, v); var r2 := With(r1, 2, k', v'); var r3 := With(r2, 1, k, v);
            && Tick(m, r, a) == r1 && TickStatus(m, r, a).Healthy?
            && Tick(m, r1, b) == r2 && TickStatus(m, r1, b).Healthy?
            && Tick(m, r2, a) == r3 && TickStatus(m, r2, a).Healthy?
  {
    var r1 := With(r, 1, k, v);
    var r2 := With(r1, 2, k', v');
    PushOne(m, r, 1, k, v);
    JudgeIsStable(r.engine, r1.engine, k', v');
    PushOne(m, r1, 2, k', v');
    JudgeIsStable(r.engine, r2.engine, k, v);
    PushOne(m, r2, 1, k, v);
  }

  /** Versions that name different fields are overlays: going back to a version, healthy all the way, need not give
      the state it first gave. */
  lemma OverlaysLeaveTraces(m: Manifest)
    requires Ships(m, VLLM_HOT)
    ensures var r := Replica(E.Boot(E.VllmMock, 128, 1024, 8192, 16384), None);
            var a, b := Some(Target(1, map[MaxNumSeqs := Int(16)])),
                Some(Target(2, map[MaxNumBatchedTokens := Int(4096)]));
            var r1 := Tick(m, r, a); var r2 := Tick(m, r1, b); var r3 := Tick(m, r2, a);
            && TickStatus(m, r, a).Healthy? && TickStatus(m, r1, b).Healthy? && TickStatus(m, r2, a).Healthy?
            && r1.applied == r3.applied == Some(1) && r1.engine.knobs != r3.engine.knobs
  {
    var r := Replica(E.Boot(E.VllmMock, 128, 1024, 8192, 16384), None);
    assert E.Judge(r.engine, MaxNumSeqs, Int(16)) == E.Store(Int(16));
    assert E.Judge(r.engine, MaxNumBatchedTokens, Int(4096)) == E.Store(Int(4096));
    PushThree(m, r, MaxNumSeqs, Int(16), MaxNumBatchedTokens, Int(4096));
    LeavesTrace(r.engine.knobs, MaxNumSeqs, Int(16), MaxNumBatchedTokens, Int(4096));
  }

  lemma LeavesTrace(knobs: Changes, k: Field, v: Value, k': Field, v': Value)
    requires k != k' && k' in knobs && knobs[k'] != v'
    ensures knobs[k := v] != knobs[k := v][k' := v'][k := v]
  {
    assert knobs[k := v][k'] == knobs[k'] && knobs[k := v][k' := v'][k := v][k'] == v';
  }

  /** After a push the engine rejects in part, the replica still names the old version, so going back to that
      version is a healthy no-op. Whether the engine then agrees with it: exactly when the keys that did go through
      are not among its fields, or were stored as what the old version stores. */
  lemma StaleAfterRejection(m: Manifest, r: Replica, was: Target, t: Target)
    requires r.applied == Some(was.id) && t.id != was.id && Agrees(m, r.engine, was.fields)
    requires Bad(m, t.fields) == {} && TickStatus(m, r, Some(t)).Failed?
    ensures var r' := Tick(m, r, Some(t));
            && TickStatus(m, r', Some(was)).Healthy? && Tick(m, r', Some(was)) == r'
            && (Agrees(m, r'.engine, was.fields) <==>
                  var stored := E.Stored(r.engine, Accepted(m, t.fields));
                  forall k | k in stored && k in Accepted(m, was.fields) ::
                      stored[k] == E.Judge(r.engine, k, was.fields[k]).value)
  {
    var hot := Accepted(m, t.fields);
    var e' := Tick(m, r, Some(t)).engine;
    ApplyKeepsShape(r.engine, hot);
    forall k | k in Accepted(m, was.fields) ensures E.Judge(e', k, was.fields[k])
        == E.Judge(r.engine, k, was.fields[k]) {
      JudgeIsStable(r.engine, e', k, was.fields[k]);
    }
    var stored := E.Stored(r.engine, hot);
    assert e'.knobs == r.engine.knobs + stored;
    forall k | k in Accepted(m, was.fields)
      ensures e'.knobs[k] == E.Judge(r.engine, k, was.fields[k]).value
              <==> (k in stored ==> stored[k] == E.Judge(r.engine, k, was.fields[k]).value)
    {}
  }
}
