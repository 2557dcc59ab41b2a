/** The rows of the store as a function of the history of commits: what every version and every canary is made of. */
module StoreHistory {
  import opened Wrappers
  import opened PyValues
  import opened Targets
  import opened StoreModel
  import opened CanaryHistory

  /** The group's version before commit `i`: that of the last promotion that went through, or what it was. */
  ghost predicate GroupVersion(db: Db, es: seq<Event>, group: string, i: nat, v: Option<VersionId>)
    requires i <= |es|
  {
    && (forall j: nat | j < i && LastPromotion(db, es[..i], group, j) :: v == Some(es[j].version))
    && ((forall j: nat | j < i :: !LastPromotion(db, es[..i], group, j)) ==> v == Desired(db, group))
  }

  lemma DesiredIsGroupVersion(db: Db, es: seq<Event>, group: string, i: nat)
    requires i <= |es|
    ensures GroupVersion(db, es, group, i, Desired(Upto(db, es, i), group))
  {
    DesiredIsHistory(db, es[..i], group);
  }

  lemma OnlyLater(db: Db, es: seq<Event>, i: nat)
    requires Inv(db) && i <= |es|
    ensures Later(Upto(db, es, i), Run(db, es))
  {
    assert es == es[..i] + es[i..];
    RunConcat(db, es[..i], es[i..]);
    RunLater(db, es[..i]);
    RunLater(Upto(db, es, i), es[i..]);
  }

  /** A row that is there stays as it is. */
  lemma RowStays(db: Db, es: seq<Event>, i: nat, v: VersionId)
    requires Inv(db) && i <= |es| && v in Upto(db, es, i).versions
    ensures v in Run(db, es).versions && Run(db, es).versions[v] == Upto(db, es, i).versions[v]
  {
    OnlyLater(db, es, i);
  }

  /** What a proposal made is there ever after: a version of its group, with the proposed fields, whose parent is the
      version the group was on. */
  lemma ProposalIsVersion(db: Db, es: seq<Event>, i: nat)
    requires Inv(db) && i < |es| && es[i].Propose?
    ensures var id := Upto(db, es, i).nextVersion; var versions := Run(db, es).versions;
            && id in versions && versions[id].group == es[i].group && versions[id].fields == es[i].fields
            && GroupVersion(db, es, es[i].group, i, versions[id].parent)
    ensures Upto(db, es, i).nextVersion !in Upto(db, es, i).versions
  {
    UptoSnoc(db, es, i);
    DesiredIsGroupVersion(db, es, es[i].group, i);
    RowStays(db, es, i + 1, Upto(db, es, i).nextVersion);
  }

  /** A version that is there at the end was there at the start, or some proposal made it. */
  ghost predicate Proposed(db: Db, es: seq<Event>, n: nat, v: VersionId)
    requires n <= |es|
  {
    exists i: nat :: i < n && es[i].Propose? && Upto(db, es, i).nextVersion == v
  }

  lemma ProposedLater(db: Db, es: seq<Event>, n: nat, v: VersionId)
    requires n < |es| && (v in db.versions || Proposed(db, es, n, v))
    ensures v in db.versions || Proposed(db, es, n + 1, v)
  {
  }

  lemma NewVersion(db: Db, e: Event, v: VersionId)
    requires v !in db.versions && v in Step(db, e).versions
    ensures e.Propose? && db.nextVersion == v
  {
  }

  lemma {:induction false} VersionsAreProposals(db: Db, es: seq<Event>, n: nat, v: VersionId)
    requires Inv(db) && n <= |es| && v in Upto(db, es, n).versions
    ensures v in db.versions || Proposed(db, es, n, v)
  {
    if n > 0 {
      UptoSnoc(db, es, n - 1);
      if v in Upto(db, es, n - 1).versions {
        VersionsAreProposals(db, es, n - 1, v);
        ProposedLater(db, es, n - 1, v);
      } else {
        NewVersion(Upto(db, es, n - 1), es[n - 1], v);
      }
    }
  }

  /** So every version has the fields and the group that some proposal named, in a store that had none. */
  lemma FieldsWereProposed(db: Db, es: seq<Event>, v: VersionId)
    requires Inv(db) && db.versions == map[] && v in Run(db, es).versions
    ensures exists i: nat :: i < |es| && es[i] == Propose(Run(db, es).versions[v].group, Run(db, es).versions[v].fields)
  {
    assert es[..|es|] == es;
    VersionsAreProposals(db, es, |es|, v);
    var i: nat :| i < |es| && es[i].Propose? && Upto(db, es, i).nextVersion == v;
    ProposalIsVersion(db, es, i);
    assert es[i] == Propose(es[i].group, es[i].fields);
  }

  /** Ids are handed out in order, one to a proposal. */
  function Proposals(es: seq<Event>, n: nat): nat
    requires n <= |es|
  {
    if n == 0 then 0 else Proposals(es, n - 1) + if es[n - 1].Propose? then 1 else 0
  }

  lemma {:induction false} IdsInOrder(db: Db, es: seq<Event>, n: nat)
    requires Inv(db) && n <= |es|
    ensures Upto(db, es, n).nextVersion == db.nextVersion + Proposals(es, n)
  {
    if n > 0 {
      IdsInOrder(db, es, n - 1);
      UptoSnoc(db, es, n - 1);
    }
  }

  /** What opening a canary made is there ever after: its group, candidate, scope and gates, and as its baseline the
      version the group was on. */
  lemma OpeningIsCanary(db: Db, es: seq<Event>, i: nat)
    requires Inv(db) && i < |es| && es[i].Open?
    ensures var c := Upto(db, es, i).nextCanary; var canaries := Run(db, es).canaries;
            && c in canaries && canaries[c].group == es[i].group && canaries[c].candidate == es[i].candidate
            && canaries[c].scope == es[i].scope && canaries[c].gates == es[i].gates
            && GroupVersion(db, es, es[i].group, i, canaries[c].baseline)
    ensures Upto(db, es, i).nextCanary !in Upto(db, es, i).canaries
  {
    UptoSnoc(db, es, i);
    DesiredIsGroupVersion(db, es, es[i].group, i);
    CanaryStays(db, es, i + 1, Upto(db, es, i).nextCanary);
  }

  lemma CanaryStays(db: Db, es: seq<Event>, i: nat, c: CanaryId)
    requires Inv(db) && i <= |es| && c in Upto(db, es, i).canaries
    ensures c in Run(db, es).canaries
    ensures Run(db, es).canaries[c] == Upto(db, es, i).canaries[c].(status := Run(db, es).canaries[c].status)
  {
    OnlyLater(db, es, i);
  }
}
