/** The store and the canary orchestrator as objects: each store method is one commit, and the orchestrator's
    methods are the commits they make, in order. */
module ControlPlane {
  import opened Wrappers
  import opened PyValues
  import opened Targets
  import opened StoreModel
  import G = Gates

  datatype Error = NoVersion | NoCanary | WrongGroup | ScopeOutside | ScopeWhole | AlreadyDecided

  datatype ConfigVersion = ConfigVersion(id: VersionId, row: Version)

  class Store {
    var versions: map<VersionId, Version>
    var nextVersion: VersionId
    var desired: map<string, VersionId>
    var overrides: map<string, Override>
    var canaries: map<CanaryId, CanaryRow>
    var nextCanary: CanaryId

    ghost function Model(): Db
      reads this
    {
      Db(versions, nextVersion, desired, overrides, canaries, nextCanary)
    }

    constructor ()
      ensures Model() == EMPTY && Inv(Model())
    {
      versions, desired, overrides, canaries := map[], map[], map[], map[];
      nextVersion, nextCanary := 1, 1;
    }

    method GetVersion(id: VersionId) returns (r: Result<ConfigVersion, Error>)
      ensures r == if id in versions then Ok(ConfigVersion(id, versions[id])) else Raised(NoVersion)
    {
      return if id in versions then Ok(ConfigVersion(id, versions[id])) else Raised(NoVersion);
    }

    method GetDesired(group: string) returns (r: Result<Option<ConfigVersion>, Error>)
      ensures group !in desired ==> r == Ok(None)
      ensures group in desired ==>
                r == if desired[group] in versions
                    then Ok(Some(ConfigVersion(desired[group], versions[desired[group]]))) else Raised(NoVersion)
    {
      if group !in desired { return Ok(None); }
      var v := GetVersion(desired[group]);
      return if v.Ok? then Ok(Some(v.value)) else Raised(v.error);
    }

    /** The version a replica converges on; it raises only for an override whose candidate does not exist. */
    method GetDesiredFor(replica: string, group: string) returns (r: Result<Option<ConfigVersion>, Error>)
      requires Inv(Model())
      ensures match DesiredFor(Model(), replica, group)
              case None => r == Ok(None)
              case Some(v) => r == if v in versions then Ok(Some(ConfigVersion(v, versions[v]))) else Raised(NoVersion)
      ensures r.Raised? ==> replica in overrides && overrides[replica].version !in versions
    {
      if replica in overrides {
        var v := GetVersion(overrides[replica].version);
        return if v.Ok? then Ok(Some(v.value)) else Raised(v.error);
      }
      r := GetDesired(group);
    }

    method DoPropose(group: string, fields: Fields) returns (r: Result<ConfigVersion, Error>)
      requires Inv(Model())
      modifies this
      ensures Inv(Model()) && Model() == Step(old(Model()), Propose(group, fields))
      ensures r.Ok? && r.value.id == old(nextVersion) && r.value.id !in old(versions) && r.value.id in versions
              && r.value.row == versions[r.value.id]
      ensures r.value.row.fields == fields && r.value.row.group == group
      ensures r.value.row.parent == if group in old(desired) then Some(old(desired)[group]) else None
    {
      var parent := GetDesired(group);
      var id := nextVersion;
      var parentId := if parent.value.Some? then Some(parent.value.value.id) else None;
      versions := versions[id := Version(group, parentId, fields)];
      nextVersion := id + 1;
      r := GetVersion(id);
    }

    method DoPromote(group: string, id: VersionId) returns (r: Result<(), Error>)
      modifies this
      ensures Model() == Step(old(Model()), Promote(group, id))
      ensures r == if id !in old(versions) then Raised(NoVersion) else if old(versions)[id].group != group
              then Raised(WrongGroup) else Ok(())
    {
      var v := GetVersion(id);
      if v.Raised? { return Raised(v.error); }
      if v.value.row.group != group { return Raised(WrongGroup); }
      desired := desired[group := id];
      return Ok(());
    }

    method Rollback(group: string, to: VersionId) returns (r: Result<(), Error>)
      modifies this
      ensures Model() == Step(old(Model()), Promote(group, to))
      ensures r.Ok? <==> Promotable(old(Model()), group, to)
    {
      r := DoPromote(group, to);
    }

    /** The upserts of one commit, replica by replica. */
    method SetOverrides(replicas: seq<string>, version: VersionId, canary: CanaryId)
      modifies this
      ensures Model() == Step(old(Model()), Set(Elems(replicas), version, canary))
    {
      for i := 0 to |replicas|
        invariant Model() == old(Model()).(overrides := SetAll(old(overrides), Elems(replicas[..i]),
                  Override(version, canary)))
      {
        assert Elems(replicas[..i + 1]) == Elems(replicas[..i]) + {replicas[i]};
        SetAllSnoc(old(overrides), Elems(replicas[..i]), replicas[i], Override(version, canary));
        overrides := overrides[replicas[i] := Override(version, canary)];
      }
      assert replicas[..|replicas|] == replicas;
    }

    method ClearOverrides(canary: CanaryId)
      modifies this
      ensures Model() == Step(old(Model()), Clear(canary))
    {
      overrides := map r | r in overrides && overrides[r].canary != canary :: overrides[r];
    }

    method OpenCanary(group: string, candidate: VersionId, scope: seq<string>, gates: seq<Gate>) returns (id: CanaryId)
      requires Inv(Model())
      modifies this
      ensures Inv(Model()) && Model() == Step(old(Model()), Open(group, candidate, Elems(scope), gates))
      ensures id == old(nextCanary) && id !in old(canaries) && id in canaries
      ensures canaries[id].group == group && canaries[id].candidate == candidate && canaries[id].scope == Elems(scope)
      ensures canaries[id].gates == gates && canaries[id].status == Observing
      ensures canaries[id].baseline == if group in old(desired) then Some(old(desired)[group]) else None
    {
      var base := GetDesired(group);
      var baseline := if base.value.Some? then Some(base.value.value.id) else None;
      id := nextCanary;
      canaries := canaries[id := CanaryRow(group, candidate, baseline, Elems(scope), gates, Observing)];
      nextCanary := id + 1;
    }

    method CloseCanary(canary: CanaryId, status: Status)
      modifies this
      ensures Model() == Step(old(Model()), Close(canary, status))
    {
      if canary in canaries {
        canaries := canaries[canary := canaries[canary].(status := status)];
      }
    }
  }

  /** The commits of a decision that does not raise. */
  function Decision(c: CanaryId, group: string, candidate: VersionId, passed: bool): seq<Event> {
    [Clear(c)] + (if passed then [Promote(group, candidate)] else [])
    + [Close(c, if passed then Promoted else Reverted)]
  }

  /** Why a promotion that is refused is. */
  function Refusal(db: Db, version: VersionId): Error {
    if version in db.versions then WrongGroup else NoVersion
  }

  class Canary {
    const store: Store
    const group: string
    const all: seq<string>

    constructor (store: Store, group: string, all: seq<string>)
      ensures this.store == store && this.group == group && this.all == all
    {
      this.store, this.group, this.all := store, group, all;
    }

    method Start(candidate: VersionId, scope: seq<string>, gates: seq<Gate>) returns (r: Result<CanaryId, Error>)
      requires Inv(store.Model())
      modifies store
      ensures Inv(store.Model())
      ensures var s, a := Elems(scope), Elems(all);
              r == if !(s <= a) then Raised(ScopeOutside) else if s == a then Raised(ScopeWhole)
                  else Ok(old(store.nextCanary))
      ensures r.Raised? ==> store.Model() == old(store.Model())
      ensures r.Ok? ==> store.Model() == Run(old(store.Model()), [Open(group, candidate, Elems(scope), gates),
                                                                  Set(Elems(scope), candidate, r.value)])
    {
      if !(Elems(scope) <= Elems(all)) { return Raised(ScopeOutside); }
      if Elems(scope) == Elems(all) { return Raised(ScopeWhole); }
      var cid := store.OpenCanary(group, candidate, scope, gates);
      store.SetOverrides(scope, candidate, cid);
      Run2(old(store.Model()), Open(group, candidate, Elems(scope), gates), Set(Elems(scope), candidate, cid));
      return Ok(cid);
    }

    /** Three separate commits, of which the promotion can raise and leave the canary cleared but still open. */
    method Decide(c: CanaryId, canaryMetrics: G.Means, baselineMetrics: G.Means) returns (r: Result<Status, Error>)
      modifies store
      ensures c !in old(store.canaries) ==> r == Raised(NoCanary) && store.Model() == old(store.Model())
      ensures c in old(store.canaries) ==>
                var row := old(store.canaries)[c];
                var passed := G.AllHold(row.gates, canaryMetrics, baselineMetrics);
                if passed && !Promotable(old(store.Model()), group, row.candidate)
                then r == Raised(Refusal(old(store.Model()), row.candidate))
                    && store.Model() == Step(old(store.Model()), Clear(c))
                else
                  && r == Ok(if passed then Promoted else Reverted)
                  && store.Model() == Run(old(store.Model()), Decision(c, group, row.candidate, passed))
    {
      if c !in store.canaries { return Raised(NoCanary); }
      var row := store.canaries[c];
      var passed, findings := G.Evaluate(row.gates, canaryMetrics, baselineMetrics);
      store.ClearOverrides(c);
      if passed {
        var p := store.DoPromote(group, row.candidate);
        if p.Raised? { return Raised(p.error); }
      }
      store.CloseCanary(c, if passed then Promoted else Reverted);
      DecisionRuns(old(store.Model()), c, group, row.candidate, passed);
      return Ok(if passed then Promoted else Reverted);
    }

    /** `observe`, given what was sampled on each side over the window: refused for a canary that is not there or has
        been decided, and otherwise the decision on the means. */
    method Observe(c: CanaryId, cs: seq<Items<string, real>>, bs: seq<Items<string, real>>)
      returns (r: Result<Status, Error>)
      requires forall i | 0 <= i < |cs| :: DistinctKeys(cs[i])
      requires forall i | 0 <= i < |bs| :: DistinctKeys(bs[i])
      modifies store
      ensures c !in old(store.canaries) ==> r == Raised(NoCanary) && store.Model() == old(store.Model())
      ensures c in old(store.canaries) && old(store.canaries)[c].status != Observing ==>
                r == Raised(AlreadyDecided) && store.Model() == old(store.Model())
      ensures c in old(store.canaries) && old(store.canaries)[c].status == Observing ==>
                var row := old(store.canaries)[c];
                var passed := G.AllHold(row.gates, G.MeanOf(G.Maps(cs)), G.MeanOf(G.Maps(bs)));
                if passed && !Promotable(old(store.Model()), group, row.candidate)
                then r == Raised(Refusal(old(store.Model()), row.candidate))
                    && store.Model() == Step(old(store.Model()), Clear(c))
                else
                  && r == Ok(if passed then Promoted else Reverted)
                  && store.Model() == Run(old(store.Model()), Decision(c, group, row.candidate, passed))
    {
      if c !in store.canaries { return Raised(NoCanary); }
      if store.canaries[c].status != Observing { return Raised(AlreadyDecided); }
      var cm := G.ComputeMean(cs);
      var bm := G.ComputeMean(bs);
      r := Decide(c, cm, bm);
    }

    method Abort(c: CanaryId)
      modifies store
      ensures store.Model() == Run(old(store.Model()), [Clear(c), Close(c, Reverted)])
    {
      store.ClearOverrides(c);
      store.CloseCanary(c, Reverted);
      Run2(old(store.Model()), Clear(c), Close(c, Reverted));
    }
  }

  lemma SetAllSnoc(o: map<string, Override>, replicas: set<string>, r: string, row: Override)
    ensures SetAll(o, replicas + {r}, row) == SetAll(o, replicas, row)[r := row]
  {
  }

  lemma Run2(db: Db, e0: Event, e1: Event)
    ensures Run(db, [e0, e1]) == Step(Step(db, e0), e1)
  {
    assert [e0, e1][..1] == [e0] && [e0][..0] == [];
    assert Run(db, [e0]) == Step(Run(db, []), e0);
  }

  lemma DecisionRuns(db: Db, c: CanaryId, group: string, candidate: VersionId, passed: bool)
    ensures passed ==>
              Run(db, Decision(c, group, candidate, passed))
              == Step(Step(Step(db, Clear(c)), Promote(group, candidate)), Close(c, Promoted))
    ensures !passed ==> Run(db, Decision(c, group, candidate, passed)) == Step(Step(db, Clear(c)), Close(c, Reverted))
  {
    if passed {
      var es := Decision(c, group, candidate, passed);
      assert es == [Clear(c), Promote(group, candidate)] + [Close(c, Promoted)];
      assert es[..2] == [Clear(c), Promote(group, candidate)];
      Run2(db, Clear(c), Promote(group, candidate));
    } else {
      assert Decision(c, group, candidate, passed) == [Clear(c), Close(c, Reverted)];
      Run2(db, Clear(c), Close(c, Reverted));
    }
  }

  /** What a decision does to the fleet, for every state and any other canaries around: the group moves to the
      candidate exactly when every gate holds on the window means, no other group moves, the replicas this canary
      held are back on their group's desired version, the replicas it did not hold keep their overrides. */
  lemma DecisionEffect(db: Db, c: CanaryId, group: string, candidate: VersionId, passed: bool)
    requires Inv(db) && (passed ==> Promotable(db, group, candidate))
    ensures var after := Run(db, Decision(c, group, candidate, passed));
            && Inv(after)
            && after.desired == (if passed then db.desired[group := candidate] else db.desired)
            && (c in db.canaries ==>
                  && c in after.canaries
                  && after.canaries[c] == db.canaries[c].(status := if passed then Promoted else Reverted))
            && (forall d | d in db.canaries && d != c :: d in after.canaries && after.canaries[d] == db.canaries[d])
            && forall r, g :: DesiredFor(after, r, g) ==
                 if r in db.overrides && db.overrides[r].canary != c then Some(db.overrides[r].version)
                 else if passed && g == group then Some(candidate) else Desired(db, g)
  {
    DecisionRuns(db, c, group, candidate, passed);
    RunLater(db, Decision(c, group, candidate, passed));
  }

  /** Even a passing canary shows its replicas the old version once: between the first two commits of the decision
      they are on the group's previous desired version. */
  lemma PassingCanaryBlinks(db: Db, c: CanaryId, replica: string, group: string)
    requires replica in db.overrides && db.overrides[replica].canary == c
    ensures DesiredFor(Step(db, Clear(c)), replica, group) == Desired(db, group)
  {
  }

  /** Between `start` and the decision, for a scope nobody else touches: the scope is on the candidate, everyone
      else where they were. */
  lemma StartEffect(db: Db, group: string, candidate: VersionId, scope: set<string>, gates: seq<Gate>)
    ensures var after := Run(db, [Open(group, candidate, scope, gates), Set(scope, candidate, db.nextCanary)]);
            forall r, g :: DesiredFor(after, r, g) == if r in scope then Some(candidate) else DesiredFor(db, r, g)
  {
    Run2(db, Open(group, candidate, scope, gates), Set(scope, candidate, db.nextCanary));
  }
}
