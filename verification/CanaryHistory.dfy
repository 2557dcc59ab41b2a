/** The override table as a function of the history of commits. */
module CanaryHistory {
  import opened Wrappers
  import opened Targets
  import opened StoreModel

  ghost predicate Sets(e: Event, replica: string) {
    e.Set? && replica in e.replicas
  }

  /** Commit `i` put the replica under a canary, and since then nobody else has, nor has that canary been cleared. */
  ghost predicate Owner(es: seq<Event>, replica: string, i: nat)
    requires i < |es|
  {
    && Sets(es[i], replica)
    && forall j | i < j < |es| :: !Sets(es[j], replica) && es[j] != Clear(es[i].canary)
  }

  /** Commit `i` promotes the group and goes through. */
  ghost predicate Promotes(db: Db, es: seq<Event>, group: string, i: nat)
    requires i < |es|
  {
    es[i].Promote? && es[i].group == group && Promotable(Run(db, es[..i]), group, es[i].version)
  }

  /** It is the last one that does. */
  ghost predicate LastPromotion(db: Db, es: seq<Event>, group: string, i: nat)
    requires i < |es|
  {
    Promotes(db, es, group, i) && forall j: nat | i < j < |es| :: !Promotes(db, es, group, j)
  }

  ghost predicate Owned(es: seq<Event>, replica: string) {
    exists i: nat :: i < |es| && Owner(es, replica, i)
  }

  lemma OwnerSnoc(es: seq<Event>, e: Event, replica: string, i: nat)
    requires i < |es|
    ensures Owner(es + [e], replica, i) <==> Owner(es, replica, i) && !Sets(e, replica) && e != Clear(es[i].canary)
  {
    var fs := es + [e];
    assert fs[|es|] == e;
    assert forall j | 0 <= j < |es| :: fs[j] == es[j];
  }

  /** The replica has a row exactly when some commit owns it, and the row is that commit's. */
  ghost predicate OverrideBy(db: Db, es: seq<Event>, replica: string) {
    && (replica in Run(db, es).overrides <==> Owned(es, replica))
    && forall i: nat | i < |es| && Owner(es, replica, i) ::
         replica in Run(db, es).overrides && Run(db, es).overrides[replica] == Override(es[i].version, es[i].canary)
  }

  lemma RunSnoc(db: Db, es: seq<Event>, e: Event)
    ensures Run(db, es + [e]) == Step(Run(db, es), e)
  {
    assert (es + [e])[..|es|] == es;
  }

  /** A commit that puts the replica under a canary owns it from then on. */
  lemma OwnerMoves(db: Db, es: seq<Event>, e: Event, replica: string)
    requires Sets(e, replica)
    ensures OverrideBy(db, es + [e], replica)
  {
    RunSnoc(db, es, e);
    assert Owner(es + [e], replica, |es|);
    forall i: nat | i < |es| ensures !Owner(es + [e], replica, i) {
      OwnerSnoc(es, e, replica, i);
    }
  }

  /** Any other keeps the row unless it clears the owner's canary. */
  lemma OwnerStays(db: Db, es: seq<Event>, e: Event, replica: string)
    requires OverrideBy(db, es, replica) && !Sets(e, replica)
    ensures OverrideBy(db, es + [e], replica)
  {
    RunSnoc(db, es, e);
    forall i: nat | i < |es| ensures Owner(es + [e], replica, i) <==>
        Owner(es, replica, i) && e != Clear(es[i].canary) {
      OwnerSnoc(es, e, replica, i);
    }
    if Owned(es, replica) {
      var i: nat :| i < |es| && Owner(es, replica, i);
      if e != Clear(es[i].canary) {
        assert Owner(es + [e], replica, i);
      }
    }
  }

  /** For every history from a store without overrides, over any number of overlapping canaries and every point
      between two commits: a replica has an override row exactly when some commit owns it, and the row is that
      commit's. */
  lemma {:induction false} OverridesAreHistory(db: Db, es: seq<Event>, replica: string)
    requires replica !in db.overrides
    ensures OverrideBy(db, es, replica)
  {
    if es != [] {
      var n := |es| - 1;
      assert es == es[..n] + [es[n]];
      OverridesAreHistory(db, es[..n], replica);
      if Sets(es[n], replica) {
        OwnerMoves(db, es[..n], es[n], replica);
      } else {
        OwnerStays(db, es[..n], es[n], replica);
      }
    }
  }

  lemma LastPromotionSnoc(db: Db, es: seq<Event>, e: Event, group: string, i: nat)
    requires i < |es|
    ensures LastPromotion(db, es + [e], group, i) <==>
            LastPromotion(db, es, group, i) && !Promotes(db, es + [e], group, |es|)
  {
    var fs := es + [e];
    forall j: nat | j < |es| ensures Promotes(db, fs, group, j) == Promotes(db, es, group, j) {
      assert fs[..j] == es[..j];
    }
  }

  /** The desired version after these commits is that of the last promotion that went through, or what it was. */
  ghost predicate DesiredBy(db: Db, es: seq<Event>, group: string) {
    && (forall i: nat | i < |es| && LastPromotion(db, es, group, i) ::
        Desired(Run(db, es), group) == Some(es[i].version))
    && ((forall i: nat | i < |es| :: !LastPromotion(db, es, group, i)) ==>
        Desired(Run(db, es), group) == Desired(db, group))
  }

  /** A commit that does not promote the group leaves its desired version and its last promotion. */
  lemma DesiredStays(db: Db, es: seq<Event>, e: Event, group: string)
    requires DesiredBy(db, es, group) && !Promotes(db, es + [e], group, |es|)
    ensures DesiredBy(db, es + [e], group)
  {
    var fs := es + [e];
    assert fs[..|es|] == es;
    forall i: nat | i < |es| ensures LastPromotion(db, fs, group, i) <==> LastPromotion(db, es, group, i) {
      LastPromotionSnoc(db, es, e, group, i);
    }
    RunSnoc(db, es, e);
  }

  lemma DesiredMoves(db: Db, es: seq<Event>, e: Event, group: string)
    requires Promotes(db, es + [e], group, |es|)
    ensures DesiredBy(db, es + [e], group)
  {
    var fs := es + [e];
    assert fs[..|es|] == es;
    assert LastPromotion(db, fs, group, |es|);
  }

  /** A group's desired version is that of its last promotion that went through, or what it was. */
  lemma {:induction false} DesiredIsHistory(db: Db, es: seq<Event>, group: string)
    ensures DesiredBy(db, es, group)
  {
    if es != [] {
      var n := |es| - 1;
      assert es == es[..n] + [es[n]];
      DesiredIsHistory(db, es[..n], group);
      if Promotes(db, es, group, n) {
        DesiredMoves(db, es[..n], es[n], group);
      } else {
        DesiredStays(db, es[..n], es[n], group);
      }
    }
  }

  /** A replica's target after any history: the candidate its last owner set, otherwise the last promotion. */
  lemma TargetIsHistory(db: Db, es: seq<Event>, replica: string, group: string)
    requires replica !in db.overrides
    ensures forall i: nat | i < |es| && Owner(es, replica, i) ::
            DesiredFor(Run(db, es), replica, group) == Some(es[i].version)
    ensures !Owned(es, replica) ==>
              forall i: nat | i < |es| && LastPromotion(db, es, group, i) ::
                  DesiredFor(Run(db, es), replica, group) == Some(es[i].version)
    ensures !Owned(es, replica) && (forall i: nat | i < |es| :: !LastPromotion(db, es, group, i)) ==>
              DesiredFor(Run(db, es), replica, group) == Desired(db, group)
  {
    OverridesAreHistory(db, es, replica);
    DesiredIsHistory(db, es, group);
  }

  // ------------------------------------------------ rows and the canaries they name

  /** Program order of `start`: overrides are set for an open canary, with its scope and candidate. */
  ghost predicate SetsFollowOpens(db: Db, es: seq<Event>) {
    forall i | 0 <= i < |es| && es[i].Set? ::
      var cs := Run(db, es[..i]).canaries;
      es[i].canary in cs && es[i].version == cs[es[i].canary].candidate && es[i].replicas == cs[es[i].canary].scope
  }

  /** Program order of `decide` and `abort`: a canary is closed after it has been cleared. */
  ghost predicate ClosesFollowClears(es: seq<Event>) {
    forall k | 0 <= k < |es| && es[k].Close? :: exists j | 0 <= j < k :: es[j] == Clear(es[k].canary)
  }

  /** Nobody decides or aborts a canary whose `start` has yet to commit its overrides. */
  ghost predicate NoClearBeforeSet(es: seq<Event>) {
    forall i, j | 0 <= j < i < |es| && es[i].Set? :: es[j] != Clear(es[i].canary)
  }

  /** Commit `k` closes the canary, which exists by then. */
  ghost predicate Closes(db: Db, es: seq<Event>, c: CanaryId, k: nat)
    requires k < |es|
  {
    es[k].Close? && es[k].canary == c && c in Run(db, es[..k]).canaries
  }

  /** None of the first `n` commits does. */
  ghost predicate NotClosed(db: Db, es: seq<Event>, c: CanaryId, n: nat)
    requires n <= |es|
  {
    forall k: nat | k < n :: !Closes(db, es, c, k)
  }

  /** Commit `k` does, and of the first `n` no later one. */
  ghost predicate LastClose(db: Db, es: seq<Event>, c: CanaryId, n: nat, k: nat)
    requires k < n <= |es|
  {
    Closes(db, es, c, k) && forall j: nat | k < j < n :: !Closes(db, es, c, j)
  }

  /** What one commit does to the status of a canary. */
  lemma StepStatus(db: Db, e: Event, c: CanaryId)
    requires Inv(db) && c in Step(db, e).canaries
    ensures Step(db, e).canaries[c].status ==
            if c !in db.canaries then Observing else if e.Close? && e.canary == c then e.status
                else db.canaries[c].status
  {
  }

  /** The status is that of the last of the first `n` commits that closed the canary, and observing when none has. */
  ghost predicate StatusBy(db: Db, es: seq<Event>, c: CanaryId, n: nat, status: Status)
    requires n <= |es|
  {
    && (forall k: nat | k < n && LastClose(db, es, c, n, k) :: status == es[k].status)
    && (NotClosed(db, es, c, n) ==> status == Observing)
  }

  lemma LastCloseStays(db: Db, es: seq<Event>, c: CanaryId, n: nat, k: nat)
    requires k <= n < |es| && !Closes(db, es, c, n) && LastClose(db, es, c, n + 1, k)
    ensures k < n && LastClose(db, es, c, n, k)
  {
  }

  lemma NotClosedBefore(db: Db, es: seq<Event>, c: CanaryId, n: nat)
    requires n < |es| && NotClosed(db, es, c, n + 1)
    ensures NotClosed(db, es, c, n)
  {
  }

  lemma StatusStays(db: Db, es: seq<Event>, c: CanaryId, n: nat, status: Status)
    requires n < |es| && StatusBy(db, es, c, n, status) && !Closes(db, es, c, n)
    ensures StatusBy(db, es, c, n + 1, status)
  {
    forall k: nat | k < n + 1 && LastClose(db, es, c, n + 1, k) ensures status == es[k].status {
      LastCloseStays(db, es, c, n, k);
    }
    if NotClosed(db, es, c, n + 1) {
      NotClosedBefore(db, es, c, n);
    }
  }

  lemma StatusMoves(db: Db, es: seq<Event>, c: CanaryId, n: nat)
    requires n < |es| && Closes(db, es, c, n)
    ensures StatusBy(db, es, c, n + 1, es[n].status)
  {
  }

  /** The store after the first `n` commits. */
  function Upto(db: Db, es: seq<Event>, n: nat): Db
    requires n <= |es|
  {
    Run(db, es[..n])
  }

  lemma UptoSnoc(db: Db, es: seq<Event>, n: nat)
    requires Inv(db) && n < |es|
    ensures Upto(db, es, n + 1) == Step(Upto(db, es, n), es[n]) && Inv(Upto(db, es, n))
  {
    assert es[..n + 1][..n] == es[..n];
    RunLater(db, es[..n]);
  }

  lemma NextStatus(db: Db, es: seq<Event>, c: CanaryId, n: nat)
    requires Inv(db) && n < |es| && c in Upto(db, es, n + 1).canaries
    requires if c in Upto(db, es, n).canaries then StatusBy(db, es, c, n, Upto(db, es, n).canaries[c].status)
             else NotClosed(db, es, c, n)
    ensures StatusBy(db, es, c, n + 1, Upto(db, es, n + 1).canaries[c].status)
  {
    UptoSnoc(db, es, n);
    StepStatus(Upto(db, es, n), es[n], c);
    if Closes(db, es, c, n) {
      StatusMoves(db, es, c, n);
    } else {
      StatusStays(db, es, c, n, Upto(db, es, n + 1).canaries[c].status);
    }
  }

  /** Whatever decided or aborted it, and however often: a canary's status is that of the last commit that closed it,
      and observing when none has. */
  lemma {:induction false} StatusIsHistory(db: Db, es: seq<Event>, c: CanaryId, n: nat)
    requires Inv(db) && n <= |es| && c in Upto(db, es, n).canaries
    requires c in db.canaries ==> db.canaries[c].status == Observing
    ensures StatusBy(db, es, c, n, Upto(db, es, n).canaries[c].status)
  {
    if n > 0 {
      if c in Upto(db, es, n - 1).canaries {
        StatusIsHistory(db, es, c, n - 1);
      } else {
        NeverThere(db, es, c, n - 1);
      }
      NextStatus(db, es, c, n - 1);
    }
  }

  /** A canary that is not there has not been closed: rows do not go. */
  lemma NeverThere(db: Db, es: seq<Event>, c: CanaryId, n: nat)
    requires Inv(db) && n <= |es| && c !in Upto(db, es, n).canaries
    ensures NotClosed(db, es, c, n)
  {
    forall k: nat | k < n ensures !Closes(db, es, c, k) {
      if c in Run(db, es[..k]).canaries {
        assert es[..n][..k] == es[..k];
        CanaryRowsStay(db, es[..n], k, c);
      }
    }
  }

  /** Every decision and every abort closes a canary as promoted or reverted. */
  ghost predicate ClosesDecide(es: seq<Event>) {
    forall k | 0 <= k < |es| && es[k].Close? :: es[k].status != Observing
  }

  /** So a canary is observing exactly when no commit has closed it. */
  lemma {:induction false} ObservingIff(db: Db, es: seq<Event>, c: CanaryId, n: nat)
    requires Inv(db) && n <= |es| && c in Upto(db, es, n).canaries && ClosesDecide(es)
    requires c in db.canaries ==> db.canaries[c].status == Observing
    ensures Upto(db, es, n).canaries[c].status == Observing <==> NotClosed(db, es, c, n)
  {
    StatusIsHistory(db, es, c, n);
    if !NotClosed(db, es, c, n) {
      var k := TheLastClose(db, es, c, n);
    }
  }

  lemma {:induction false} TheLastClose(db: Db, es: seq<Event>, c: CanaryId, n: nat) returns (k: nat)
    requires n <= |es| && !NotClosed(db, es, c, n)
    ensures k < n && LastClose(db, es, c, n, k)
  {
    k := n - 1;
    if !Closes(db, es, c, k) {
      k := TheLastClose(db, es, c, n - 1);
    }
  }

  lemma StillObserving(db: Db, es: seq<Event>, replica: string, i: nat)
    requires Inv(db) && db.canaries == map[] && i < |es| && Owner(es, replica, i)
    requires ClosesFollowClears(es) && NoClearBeforeSet(es) && es[i].canary in Run(db, es).canaries
    ensures Run(db, es).canaries[es[i].canary].status == Observing
  {
    assert es[..|es|] == es;
    StatusIsHistory(db, es, es[i].canary, |es|);
    OwnedIsNotClosed(db, es, replica, i);
  }

  lemma OwnedIsNotClosed(db: Db, es: seq<Event>, replica: string, i: nat)
    requires i < |es| && Owner(es, replica, i) && ClosesFollowClears(es) && NoClearBeforeSet(es)
    ensures NotClosed(db, es, es[i].canary, |es|)
  {
  }

  lemma CanaryRowsStay(db: Db, es: seq<Event>, i: nat, c: CanaryId)
    requires Inv(db) && i <= |es| && c in Run(db, es[..i]).canaries
    ensures c in Run(db, es).canaries
    ensures Run(db, es).canaries[c].candidate == Run(db, es[..i]).canaries[c].candidate
    ensures Run(db, es).canaries[c].scope == Run(db, es[..i]).canaries[c].scope
  {
    assert es == es[..i] + es[i..];
    RunLater(db, es[..i]);
    RunConcat(db, es[..i], es[i..]);
    RunLater(Run(db, es[..i]), es[i..]);
  }

  /** At every point of every history of orchestrators, each override row names a canary that exists, carries that
      canary's candidate and lies in its scope; and when no canary is cleared before its overrides are set, that
      canary is still observing. */
  lemma RowsBelong(db: Db, es: seq<Event>, replica: string)
    requires Inv(db) && db.overrides == map[] && db.canaries == map[]
    requires SetsFollowOpens(db, es) && replica in Run(db, es).overrides
    ensures var row := Run(db, es).overrides[replica]; var cs := Run(db, es).canaries;
            && row.canary in cs && row.version == cs[row.canary].candidate && replica in cs[row.canary].scope
            && (ClosesFollowClears(es) && NoClearBeforeSet(es) ==> cs[row.canary].status == Observing)
  {
    OverridesAreHistory(db, es, replica);
    var i: nat :| i < |es| && Owner(es, replica, i);
    CanaryRowsStay(db, es, i, es[i].canary);
    if ClosesFollowClears(es) && NoClearBeforeSet(es) {
      StillObserving(db, es, replica, i);
    }
  }

  ghost predicate HoldsRows(db: Db, c: CanaryId) {
    exists r :: r in db.overrides && db.overrides[r].canary == c
  }

  /** No commit after `i` puts the replica under a canary. */
  ghost predicate NotTaken(es: seq<Event>, i: nat, r: string) {
    forall j | i < j < |es| :: !Sets(es[j], r)
  }

  /** No commit after `i` clears the canary. */
  ghost predicate NotCleared(es: seq<Event>, i: nat, c: CanaryId) {
    forall j | i < j < |es| :: es[j] != Clear(c)
  }

  /** When a canary leaves rows behind: it holds one at the end of a history exactly when some replica of its one
      Set commit has not been taken over since and no Clear of it comes after that commit. */
  lemma LeftBehind(db: Db, es: seq<Event>, c: CanaryId, i: nat)
    requires db.overrides == map[]
    requires i < |es| && es[i].Set? && es[i].canary == c
    requires forall k | 0 <= k < |es| && es[k].Set? && es[k].canary == c :: k == i
    ensures HoldsRows(Run(db, es), c) <==> NotCleared(es, i, c) && exists r :: r in es[i].replicas && NotTaken(es, i, r)
  {
    if HoldsRows(Run(db, es), c) {
      var r :| r in Run(db, es).overrides && Run(db, es).overrides[r].canary == c;
      OverridesAreHistory(db, es, r);
      var k: nat :| k < |es| && Owner(es, r, k);
      assert Run(db, es).overrides[r] == Override(es[k].version, es[k].canary);
      assert k == i && r in es[i].replicas && NotTaken(es, i, r);
    }
    if NotCleared(es, i, c) && exists r :: r in es[i].replicas && NotTaken(es, i, r) {
      var r :| r in es[i].replicas && NotTaken(es, i, r);
      OverridesAreHistory(db, es, r);
      assert Owner(es, r, i);
    }
  }

  /** The guard is needed: an abort that runs between the two commits of `start` clears nothing, and the replica is
      left on the candidate of a reverted canary. */
  lemma AbortInsideStart(group: string, candidate: VersionId, replica: string, gates: seq<Gate>)
    ensures var es := [Open(group, candidate, {replica}, gates), Clear(1), Close(1, Reverted),
            Set({replica}, candidate, 1)];
            && SetsFollowOpens(EMPTY, es) && ClosesFollowClears(es)
            && DesiredFor(Run(EMPTY, es), replica, group) == Some(candidate)
            && Run(EMPTY, es).overrides[replica].canary in Run(EMPTY, es).canaries
            && Run(EMPTY, es).canaries[Run(EMPTY, es).overrides[replica].canary].status == Reverted
  {
    var e0, e1, e2, e3 := Open(group, candidate, {replica}, gates), Clear(1), Close(1, Reverted),
        Set({replica}, candidate, 1);
    var es := [e0, e1, e2, e3];
    var d1 := Step(EMPTY, e0);
    var d3 := Step(Step(d1, e1), e2);
    assert es[..3] == [e0, e1, e2] && [e0, e1, e2][..2] == [e0, e1] && [e0, e1][..1] == [e0] && [e0][..0] == [];
    assert Run(EMPTY, [e0]) == Step(Run(EMPTY, []), e0) == d1;
    assert Run(EMPTY, [e0, e1]) == Step(d1, e1);
    assert Run(EMPTY, [e0, e1, e2]) == d3;
    assert Run(EMPTY, es) == Step(d3, e3);
    assert es[1] == Clear(es[2].canary);
  }
}
