/** The store and the replicas that read it: commits and reconciler ticks in any order. */
module Fleet {
  import opened Wrappers
  import opened PyValues
  import opened Manifest
  import opened Targets
  import D = StoreModel
  import R = ReconcilerModel
  import C = ControlPlane
  import H = StoreHistory

  /** A replica's fixed part: its group and the manifest of its engine. */
  datatype Site = Site(group: string, manifest: Manifest)

  /** The store, and what each replica has done with its engine. */
  datatype World = World(db: D.Db, replicas: map<string, R.Replica>)

  datatype Event = Commit(e: D.Event) | Tick(replica: string)

  /** What a tick of this replica reads; None when the read raises, for an override whose candidate does not exist. */
  function Read(db: D.Db, site: Site, replica: string): Option<Option<VersionId>> {
    var v := D.DesiredFor(db, replica, site.group);
    if v.Some? && v.value !in db.versions then None else Some(v)
  }

  function TargetIn(db: D.Db, v: Option<VersionId>): Option<Target>
    requires v.Some? ==> v.value in db.versions
  {
    if v.Some? then Some(Target(v.value, db.versions[v.value].fields)) else None
  }

  function Step(sites: map<string, Site>, w: World, e: Event): World {
    match e
    case Commit(c) => w.(db := D.Step(w.db, c))
    case Tick(r) =>
      if r !in sites || r !in w.replicas || Read(w.db, sites[r], r).None? then w
      else
        w.(replicas := w.replicas[r := R.Tick(sites[r].manifest, w.replicas[r],
            TargetIn(w.db, Read(w.db, sites[r], r).value))])
  }

  /** After the first `n` events. */
  function After(sites: map<string, Site>, w: World, es: seq<Event>, n: nat): World
    requires n <= |es|
  {
    if n == 0 then w else Step(sites, After(sites, w, es, n - 1), es[n - 1])
  }

  function Append(targets: seq<Option<VersionId>>, ticks: bool,
                  read: Option<Option<VersionId>>): seq<Option<VersionId>> {
    if ticks && read.Some? then targets + [read.value] else targets
  }

  /** What the ticks of this replica read, in order. */
  function Reads(sites: map<string, Site>, w: World, es: seq<Event>, n: nat, r: string): seq<Option<VersionId>>
    requires n <= |es| && r in sites
  {
    if n == 0 then []
    else
      Append(Reads(sites, w, es, n - 1, r), es[n - 1] == Tick(r), Read(After(sites, w, es, n - 1).db, sites[r], r))
  }

  // ------------------------------------------------------- the store over time

  lemma EventLater(sites: map<string, Site>, w: World, e: Event)
    requires D.Inv(w.db)
    ensures D.Inv(Step(sites, w, e).db) && D.Later(w.db, Step(sites, w, e).db)
  {
    match e {
      case Commit(c) => D.StepLater(w.db, c);
      case Tick(_) => LaterReflexive(w.db);
    }
  }

  lemma LaterReflexive(db: D.Db)
    ensures D.Later(db, db)
  {
  }

  lemma {:induction false} StoreLater(sites: map<string, Site>, w: World, es: seq<Event>, i: nat, n: nat)
    requires D.Inv(w.db) && i <= n <= |es|
    ensures D.Inv(After(sites, w, es, i).db) && D.Inv(After(sites, w, es, n).db)
    ensures D.Later(After(sites, w, es, i).db, After(sites, w, es, n).db)
  {
    if i == n {
      StoreStaysGood(sites, w, es, n);
      LaterReflexive(After(sites, w, es, n).db);
    } else {
      StoreLater(sites, w, es, i, n - 1);
      EventLater(sites, After(sites, w, es, n - 1), es[n - 1]);
      LaterTransitive(After(sites, w, es, i).db, After(sites, w, es, n - 1).db, After(sites, w, es, n).db);
    }
  }

  lemma {:induction false} StoreStaysGood(sites: map<string, Site>, w: World, es: seq<Event>, n: nat)
    requires D.Inv(w.db) && n <= |es|
    ensures D.Inv(After(sites, w, es, n).db)
  {
    if n > 0 {
      StoreStaysGood(sites, w, es, n - 1);
      EventLater(sites, After(sites, w, es, n - 1), es[n - 1]);
    }
  }

  lemma LaterTransitive(a: D.Db, b: D.Db, c: D.Db)
    requires D.Later(a, b) && D.Later(b, c)
    ensures D.Later(a, c)
  {
  }

  /** The table has every version of the store, as it is. */
  ghost predicate Covers(vs: Versions, db: D.Db) {
    forall v | v in db.versions :: v in vs && vs[v] == db.versions[v].fields
  }

  lemma CoversEarlier(vs: Versions, db: D.Db, db': D.Db)
    requires D.Later(db, db') && Covers(vs, db')
    ensures Covers(vs, db)
  {
  }

  lemma CoveredBefore(sites: map<string, Site>, w: World, es: seq<Event>, i: nat, n: nat, vs: Versions)
    requires D.Inv(w.db) && i <= n <= |es| && Covers(vs, After(sites, w, es, n).db)
    ensures Covers(vs, After(sites, w, es, i).db)
  {
    StoreLater(sites, w, es, i, n);
    CoversEarlier(vs, After(sites, w, es, i).db, After(sites, w, es, n).db);
  }

  ghost predicate Known(vs: Versions, targets: seq<Option<VersionId>>) {
    forall t | t in targets && t.Some? :: t.value in vs
  }

  // --------------------------------------------------- one replica of the fleet

  /** What one event does to this replica: nothing, or the tick of a reconciler on what it read. */
  lemma EventOn(sites: map<string, Site>, w: World, e: Event, r: string, vs: Versions)
    requires r in sites && r in w.replicas && Covers(vs, w.db)
    ensures var read := Read(w.db, sites[r], r); var after := Step(sites, w, e).replicas;
            && r in after
            && if e == Tick(r) && read.Some? then
                 (read.value.Some? ==> read.value.value in vs)
                     && after[r] == R.Tick(sites[r].manifest, w.replicas[r], InTable(vs, read.value))
               else after[r] == w.replicas[r]
  {
  }

  function InTable(vs: Versions, v: Option<VersionId>): Option<Target> {
    if v.Some? && v.value in vs then Some(Target(v.value, vs[v.value])) else None
  }

  lemma RunAppend(m: Manifest, vs: Versions, r: R.Replica, targets: seq<Option<VersionId>>, ticks: bool,
                  read: Option<Option<VersionId>>)
    requires Known(vs, targets) && (ticks && read.Some? && read.value.Some? ==> read.value.value in vs)
    ensures Known(vs, Append(targets, ticks, read))
    ensures R.Run(m, vs, r, Append(targets, ticks, read)) ==
            if ticks && read.Some? then R.Tick(m, R.Run(m, vs, r, targets), InTable(vs, read.value))
                else R.Run(m, vs, r, targets)
  {
    if ticks && read.Some? {
      assert (targets + [read.value])[..|targets|] == targets;
    }
  }

  /** The replica is where the reconciler gets on its own, fed with what its ticks read. */
  ghost predicate Follows(sites: map<string, Site>, w: World, es: seq<Event>, n: nat, r: string, vs: Versions)
    requires n <= |es| && r in sites && r in w.replicas
  {
    && r in After(sites, w, es, n).replicas && Known(vs, Reads(sites, w, es, n, r))
    && After(sites, w, es, n).replicas[r] == R.Run(sites[r].manifest, vs, w.replicas[r], Reads(sites, w, es, n, r))
  }

  lemma NextFollows(sites: map<string, Site>, w: World, es: seq<Event>, n: nat, r: string, vs: Versions)
    requires 0 < n <= |es| && r in sites && r in w.replicas && Covers(vs, After(sites, w, es, n - 1).db)
    requires Follows(sites, w, es, n - 1, r, vs)
    ensures Follows(sites, w, es, n, r, vs)
  {
    var mid, e := After(sites, w, es, n - 1), es[n - 1];
    EventOn(sites, mid, e, r, vs);
    RunAppend(sites[r].manifest, vs, w.replicas[r], Reads(sites, w, es, n - 1, r), e == Tick(r),
        Read(mid.db, sites[r], r));
  }

  /** A replica in the fleet is a reconciler on its own: commits and other replicas in between change nothing for it but
      what it reads. So all that is proved of runs of the reconciler holds of it. */
  lemma {:induction false} ReplicaRuns(sites: map<string, Site>, w: World, es: seq<Event>, n: nat, r: string,
                                       vs: Versions)
    requires D.Inv(w.db) && n <= |es| && r in sites && r in w.replicas && Covers(vs, After(sites, w, es, n).db)
    ensures Follows(sites, w, es, n, r, vs)
  {
    if n > 0 {
      CoveredBefore(sites, w, es, n - 1, n, vs);
      ReplicaRuns(sites, w, es, n - 1, r, vs);
      NextFollows(sites, w, es, n, r, vs);
    }
  }

  /** None of the replica's ticks failed. */
  ghost predicate NoneFailed(sites: map<string, Site>, w: World, es: seq<Event>, n: nat, r: string, vs: Versions)
    requires n <= |es| && r in sites && r in w.replicas && Known(vs, Reads(sites, w, es, n, r))
  {
    R.NoneFailed(sites[r].manifest, vs, w.replicas[r], Reads(sites, w, es, n, r))
  }

  /** Event `i` is the last tick of the replica among the first `n`, and it read version `v`. */
  ghost predicate LastRead(sites: map<string, Site>, w: World, es: seq<Event>, n: nat, r: string, i: nat, v: VersionId)
    requires i < n <= |es| && r in sites
  {
    && es[i] == Tick(r) && Read(After(sites, w, es, i).db, sites[r], r) == Some(Some(v))
    && forall j | i < j < n :: es[j] != Tick(r)
  }

  lemma LastSnoc(targets: seq<Option<VersionId>>, v: VersionId)
    ensures R.LastTarget(targets + [Some(v)]) == Some(v)
  {
  }

  lemma {:induction false} LastReadIsTarget(sites: map<string, Site>, w: World, es: seq<Event>, n: nat, r: string,
                                            i: nat, v: VersionId)
    requires i < n <= |es| && r in sites && LastRead(sites, w, es, n, r, i, v)
    ensures R.LastTarget(Reads(sites, w, es, n, r)) == Some(v)
  {
    if i < n - 1 {
      LastReadIsTarget(sites, w, es, n - 1, r, i, v);
    } else {
      LastSnoc(Reads(sites, w, es, i, r), v);
    }
  }

  /** Over every run of commits and ticks: a replica none of whose ticks failed is on the version the store named for it
      at its last tick, by an override or for its group, and its engine agrees with that version, whatever has been
      committed since. */
  lemma FleetAgrees(sites: map<string, Site>, w: World, es: seq<Event>, n: nat, r: string, vs: Versions, i: nat,
                    v: VersionId)
    requires D.Inv(w.db) && i < n <= |es| && r in sites && r in w.replicas && w.replicas[r].applied == None
    requires Covers(vs, After(sites, w, es, n).db) && LastRead(sites, w, es, n, r, i, v)
    requires Known(vs, Reads(sites, w, es, n, r)) && NoneFailed(sites, w, es, n, r, vs)
    ensures r in After(sites, w, es, n).replicas && v in After(sites, w, es, i).db.versions
    ensures After(sites, w, es, n).replicas[r].applied == Some(v)
    ensures R.Agrees(sites[r].manifest, After(sites, w, es, n).replicas[r].engine,
            After(sites, w, es, i).db.versions[v].fields)
  {
    ReplicaRuns(sites, w, es, n, r, vs);
    LastReadIsTarget(sites, w, es, n, r, i, v);
    R.HealthyRuns(sites[r].manifest, vs, w.replicas[r], Reads(sites, w, es, n, r));
    CoveredBefore(sites, w, es, i, n, vs);
  }

  /** The commits among the first `n` events. */
  function Committed(es: seq<Event>, n: nat): seq<D.Event>
    requires n <= |es|
  {
    if n == 0 then []
    else if es[n - 1].Commit? then Committed(es, n - 1) + [es[n - 1].e]
    else Committed(es, n - 1)
  }

  lemma {:induction false} StoreIsHistory(sites: map<string, Site>, w: World, es: seq<Event>, n: nat)
    requires n <= |es|
    ensures After(sites, w, es, n).db == D.Run(w.db, Committed(es, n))
  {
    if n > 0 {
      StoreIsHistory(sites, w, es, n - 1);
      if es[n - 1].Commit? {
        assert Committed(es, n)[..|Committed(es, n)| - 1] == Committed(es, n - 1);
      }
    }
  }

  /** Some commit proposed these fields. */
  ghost predicate SomebodyProposed(cs: seq<D.Event>, fields: Changes) {
    exists j: nat :: j < |cs| && cs[j].Propose? && cs[j].fields == fields
  }

  /** In a fleet whose store began empty, what such a replica's engine agrees with was proposed by somebody before it
      read it: the fields of some proposal, as they were proposed. */
  lemma FleetHoldsProposals(sites: map<string, Site>, w: World, es: seq<Event>, n: nat, r: string, vs: Versions, i: nat,
                            v: VersionId)
      returns (fields: Changes)
    requires D.Inv(w.db) && w.db.versions == map[]
    requires i < n <= |es| && r in sites && r in w.replicas && w.replicas[r].applied == None
    requires Covers(vs, After(sites, w, es, n).db) && LastRead(sites, w, es, n, r, i, v)
    requires Known(vs, Reads(sites, w, es, n, r)) && NoneFailed(sites, w, es, n, r, vs)
    ensures SomebodyProposed(Committed(es, i), fields)
    ensures r in After(sites, w, es, n).replicas
    ensures R.Agrees(sites[r].manifest, After(sites, w, es, n).replicas[r].engine, fields)
  {
    FleetAgrees(sites, w, es, n, r, vs, i, v);
    StoreIsHistory(sites, w, es, i);
    fields := After(sites, w, es, i).db.versions[v].fields;
    H.FieldsWereProposed(w.db, Committed(es, i), v);
  }

  // ------------------------------------------------------ after a decision

  /** Events `k` to `m` are these commits. */
  ghost predicate Commits(es: seq<Event>, k: nat, m: nat, cs: seq<D.Event>)
    requires k <= m <= |es|
  {
    m - k == |cs| && forall j | k <= j < m :: es[j] == Commit(cs[j - k])
  }

  lemma {:induction false} CommitsRun(sites: map<string, Site>, w: World, es: seq<Event>, k: nat, m: nat,
                                      cs: seq<D.Event>)
    requires k <= m <= |es| && Commits(es, k, m, cs)
    ensures After(sites, w, es, m).db == D.Run(After(sites, w, es, k).db, cs)
  {
    if k < m {
      var n := |cs| - 1;
      assert Commits(es, k, m - 1, cs[..n]);
      CommitsRun(sites, w, es, k, m - 1, cs[..n]);
      assert es[m - 1] == Commit(cs[n]);
    }
  }

  lemma {:induction false} TicksKeepStore(sites: map<string, Site>, w: World, es: seq<Event>, m: nat, i: nat)
    requires m <= i <= |es| && forall j | m <= j < i :: es[j].Tick?
    ensures After(sites, w, es, i).db == After(sites, w, es, m).db
  {
    if m < i {
      TicksKeepStore(sites, w, es, m, i - 1);
    }
  }

  /** What a replica is to be on once canary `c` has been decided: the replicas it held, and those of its group that no
      canary holds, on the candidate or back on the baseline. */
  lemma DecidedTarget(db: D.Db, c: D.CanaryId, group: string, candidate: VersionId, passed: bool, r: string)
    requires D.Inv(db) && (passed ==> D.Promotable(db, group, candidate))
    requires r !in db.overrides || db.overrides[r].canary == c
    ensures var after := D.Run(db, C.Decision(c, group, candidate, passed));
            && D.DesiredFor(after, r, group) == (if passed then Some(candidate) else D.Desired(db, group))
            && (D.DesiredFor(after, r, group).Some? ==> D.DesiredFor(after, r, group).value in after.versions)
  {
    C.DecisionEffect(db, c, group, candidate, passed);
    D.RunLater(db, C.Decision(c, group, candidate, passed));
  }

  /** One tick after a decision is enough: commits `k` to `m` are the decision of canary `c`, nothing else is committed
      after them, and replica `r` of the group, held by `c` or by no canary, ticks at `i` or later. Then it is on the
      candidate when the canary passed and on the group's version of before otherwise, and its engine agrees with it. */
  lemma DecisionLands(sites: map<string, Site>, w: World, es: seq<Event>, n: nat, r: string, vs: Versions, i: nat,
                      k: nat, m: nat, c: D.CanaryId, candidate: VersionId, passed: bool, v: VersionId)
    requires D.Inv(w.db) && k <= m <= i < n <= |es| && r in sites && r in w.replicas && w.replicas[r].applied == None
    requires Commits(es, k, m, C.Decision(c, sites[r].group, candidate, passed)) && forall j | m <= j < n :: es[j].Tick?
    requires var db := After(sites, w, es, k).db;
             && (r !in db.overrides || db.overrides[r].canary == c)
             && (passed ==> D.Promotable(db, sites[r].group, candidate))
             && (if passed then Some(candidate) else D.Desired(db, sites[r].group)) == Some(v)
    requires es[i] == Tick(r) && forall j | i < j < n :: es[j] != Tick(r)
    requires Covers(vs, After(sites, w, es, n).db)
    requires Known(vs, Reads(sites, w, es, n, r)) && NoneFailed(sites, w, es, n, r, vs)
    ensures v in After(sites, w, es, k).db.versions && r in After(sites, w, es, n).replicas
    ensures After(sites, w, es, n).replicas[r].applied == Some(v)
    ensures R.Agrees(sites[r].manifest, After(sites, w, es, n).replicas[r].engine,
            After(sites, w, es, k).db.versions[v].fields)
  {
    var db := After(sites, w, es, k).db;
    StoreLater(sites, w, es, k, i);
    CommitsRun(sites, w, es, k, m, C.Decision(c, sites[r].group, candidate, passed));
    TicksKeepStore(sites, w, es, m, i);
    DecidedTarget(db, c, sites[r].group, candidate, passed, r);
    FleetAgrees(sites, w, es, n, r, vs, i, v);
  }
}
