/** The configuration store: five tables whose every method is one commit, as a state machine over commits. */
module StoreModel {
  import opened Wrappers
  import opened PyValues
  import opened Targets

  type CanaryId = nat
  type Fields = map<Field, Value>

  datatype Version = Version(group: string, parent: Option<VersionId>, fields: Fields)

  /** One gate: a metric with absolute bounds, and bounds relative to the baseline. */
  datatype Gate = Gate(metric: string, maxAbs: Option<real>, minAbs: Option<real>, maxRatio: Option<real>,
                       minRatio: Option<real>)

  datatype Status = Observing | Promoted | Reverted

  datatype CanaryRow = CanaryRow(
    group: string, candidate: VersionId, baseline: Option<VersionId>, scope: set<string>, gates: seq<Gate>,
        status: Status)

  datatype Override = Override(version: VersionId, canary: CanaryId)

  /** The tables. The next ids are the auto-increment counters, so an id is never handed out twice. */
  datatype Db = Db(
    versions: map<VersionId, Version>, nextVersion: VersionId,
    desired: map<string, VersionId>,
    overrides: map<string, Override>,
    canaries: map<CanaryId, CanaryRow>, nextCanary: CanaryId)

  const EMPTY := Db(map[], 1, map[], map[], map[], 1)

  /** One commit. */
  datatype Event =
    | Propose(group: string, fields: Fields)
    | Promote(group: string, version: VersionId)
    | Open(group: string, candidate: VersionId, scope: set<string>, gates: seq<Gate>)
    | Set(replicas: set<string>, version: VersionId, canary: CanaryId)
    | Clear(canary: CanaryId)
    | Close(canary: CanaryId, status: Status)

  function Elems(s: seq<string>): set<string> {
    set x | x in s
  }

  function Lookup<K, T>(m: map<K, T>, k: K): Option<T> {
    if k in m then Some(m[k]) else None
  }

  /** promote accepts an existing version of the same group and raises otherwise. */
  predicate Promotable(db: Db, group: string, version: VersionId) {
    version in db.versions && db.versions[version].group == group
  }

  function SetAll(o: map<string, Override>, replicas: set<string>, row: Override): map<string, Override> {
    o + map r | r in replicas :: row
  }

  function ClearAll(o: map<string, Override>, canary: CanaryId): map<string, Override> {
    map r | r in o && o[r].canary != canary :: o[r]
  }

  /** The tables after a commit; a method that raises commits nothing. */
  function Step(db: Db, e: Event): Db {
    match e
    case Propose(g, f) =>
      db.(versions := db.versions[db.nextVersion := Version(g, Lookup(db.desired, g), f)],
          nextVersion := db.nextVersion + 1)
    case Promote(g, v) => if Promotable(db, g, v) then db.(desired := db.desired[g := v]) else db
    case Open(g, c, scope, gates) =>
      db.(canaries := db.canaries[db.nextCanary := CanaryRow(g, c, Lookup(db.desired, g), scope, gates, Observing)],
          nextCanary := db.nextCanary + 1)
    case Set(rs, v, c) => db.(overrides := SetAll(db.overrides, rs, Override(v, c)))
    case Clear(c) => db.(overrides := ClearAll(db.overrides, c))
    case Close(c, s) => if c in db.canaries then db.(canaries := db.canaries[c := db.canaries[c].(status := s)]) else db
  }

  function Run(db: Db, es: seq<Event>): Db {
    if es == [] then db else Step(Run(db, es[..|es| - 1]), es[|es| - 1])
  }

  lemma {:induction false} RunConcat(db: Db, a: seq<Event>, b: seq<Event>)
    ensures Run(db, a + b) == Run(Run(db, a), b)
  {
    if b == [] {
      assert a + b == a;
    } else {
      assert (a + b)[..|a + b| - 1] == a + b[..|b| - 1];
      RunConcat(db, a, b[..|b| - 1]);
    }
  }

  /** `desired(group)`, as a version id. */
  function Desired(db: Db, group: string): Option<VersionId> {
    Lookup(db.desired, group)
  }

  /** `desired_for`, as a version id: the override wins over the group. */
  function DesiredFor(db: Db, replica: string, group: string): Option<VersionId> {
    if replica in db.overrides then Some(db.overrides[replica].version) else Desired(db, group)
  }

  // ------------------------------------------------- versions are append-only

  /** Ids below the counters; a group's desired version is one of its own; a parent is older and in the group. */
  ghost predicate Inv(db: Db) {
    && (forall v | v in db.versions :: v < db.nextVersion)
    && (forall g | g in db.desired :: Promotable(db, g, db.desired[g]))
    && (forall v | v in db.versions && db.versions[v].parent.Some? ::
          db.versions[v].parent.value < v && Promotable(db, db.versions[v].group, db.versions[v].parent.value))
    && (forall c | c in db.canaries :: c < db.nextCanary)
  }

  /** `db'` is a later state of `db`: every version row is there unchanged, new ids are above all the old ones, no
      group has lost its desired version, no canary row has gone or changed anything but its status. */
  ghost predicate Later(db: Db, db': Db) {
    && db.nextVersion <= db'.nextVersion && db.nextCanary <= db'.nextCanary
    && (forall v | v in db.versions :: v in db'.versions && db'.versions[v] == db.versions[v])
    && (forall v | v in db'.versions :: v in db.versions || v >= db.nextVersion)
    && db.desired.Keys <= db'.desired.Keys
    && (forall c | c in db.canaries ::
           c in db'.canaries && db'.canaries[c] == db.canaries[c].(status := db'.canaries[c].status))
  }

  lemma ProposeLater(db: Db, group: string, fields: Fields)
    requires Inv(db)
    ensures Inv(Step(db, Propose(group, fields))) && Later(db, Step(db, Propose(group, fields)))
  {
  }

  lemma CanaryLater(db: Db, e: Event)
    requires Inv(db) && (e.Open? || e.Close?)
    ensures Inv(Step(db, e)) && Later(db, Step(db, e))
  {
  }

  lemma StepLater(db: Db, e: Event)
    requires Inv(db)
    ensures Inv(Step(db, e)) && Later(db, Step(db, e))
  {
    match e {
      case Propose(group, fields) => ProposeLater(db, group, fields);
      case Open(_, _, _, _) => CanaryLater(db, e);
      case Close(_, _) => CanaryLater(db, e);
      case _ =>
    }
  }

  /** In every run from a good state: the history only grows. */
  lemma {:induction false} RunLater(db: Db, es: seq<Event>)
    requires Inv(db)
    ensures Inv(Run(db, es)) && Later(db, Run(db, es))
  {
    if es != [] {
      RunLater(db, es[..|es| - 1]);
      StepLater(Run(db, es[..|es| - 1]), es[|es| - 1]);
    }
  }

  /** Walking parents from a version. */
  function Lineage(db: Db, v: VersionId): seq<VersionId>
    requires Inv(db) && v in db.versions
    decreases v
  {
    [v] + if db.versions[v].parent.Some? then Lineage(db, db.versions[v].parent.value) else []
  }

  /** The walk ends, never leaves the group, only ever goes back in time, and is the same in every later state. */
  lemma {:induction false} LineageStays(db: Db, v: VersionId, es: seq<Event>)
    requires Inv(db) && v in db.versions
    ensures Inv(Run(db, es)) && v in Run(db, es).versions && Lineage(Run(db, es), v) == Lineage(db, v)
    ensures forall i | 0 <= i < |Lineage(db, v)| ::
              Lineage(db, v)[i] in db.versions && db.versions[Lineage(db, v)[i]].group == db.versions[v].group
    ensures forall i, j | 0 <= i < j < |Lineage(db, v)| :: Lineage(db, v)[j] < Lineage(db, v)[i] <= v
    ensures db.versions[Lineage(db, v)[|Lineage(db, v)| - 1]].parent.None?
    decreases v
  {
    RunLater(db, es);
    if db.versions[v].parent.Some? {
      var p := db.versions[v].parent.value;
      LineageStays(db, p, es);
      var rest := Lineage(db, p);
      assert rest[0] == p;
      assert forall j | 0 < j < |Lineage(db, v)| :: Lineage(db, v)[j] == rest[j - 1];
      assert forall j | 0 <= j < |rest| :: rest[j] <= p;
    }
  }
}
