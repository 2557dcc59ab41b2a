/** After a rebuild: every scheduler component that still points at an old pool, allocator or tree is pointed at the
    rebuilt one. Components can be shared, repeated, or lack some of the fields. */
module Rewiring {
  import opened Wrappers

  /** A pool, allocator or tree: its identity and its class. */
  datatype Obj = Obj(id: nat, cls: nat)

  datatype Slot = TreeCache | KvAllocator | ReqToTokenPool | KvPool

  const SLOTS: seq<Slot> := [TreeCache, KvAllocator, ReqToTokenPool, KvPool]

  /** The attributes of a component that can be read; `None` is Python's None. */
  type Attrs = map<Slot, Option<Obj>>

  class Component {
    var attrs: Attrs

    constructor (attrs: Attrs)
      ensures this.attrs == attrs
    {
      this.attrs := attrs;
    }
  }

  /** What the scan meets: numbers, containers and types are passed over. */
  datatype Scanned = Plain | Comp(c: Component)

  ghost function Components(scan: seq<Scanned>): set<Component> {
    set s | s in scan && s.Comp? :: s.c
  }

  /** The object the slot should hold instead of `cur`, if it is to be rewired. */
  predicate Stale(old': set<Obj>, target: Option<Obj>, cur: Option<Obj>) {
    && target.Some? && cur.Some? && cur != target
    && (cur.value.cls == target.value.cls || cur.value in old')
  }

  function TargetOf(new': map<Slot, Obj>, s: Slot): Option<Obj> {
    if s in new' then Some(new'[s]) else None
  }

  function RewiredAttr(old': set<Obj>, new': map<Slot, Obj>, s: Slot, cur: Option<Obj>): Option<Obj> {
    if Stale(old', TargetOf(new', s), cur) then TargetOf(new', s) else cur
  }

  /** A component after the scan has met it. */
  function Rewired(old': set<Obj>, new': map<Slot, Obj>, a: Attrs): Attrs {
    map s | s in a :: RewiredAttr(old', new', s, a[s])
  }

  /** Meeting a component again changes nothing, so aliases and repetitions do not matter. */
  lemma RewiredTwice(old': set<Obj>, new': map<Slot, Obj>, a: Attrs)
    ensures Rewired(old', new', Rewired(old', new', a)) == Rewired(old', new', a)
  {
  }

  /** The scan, component by component and slot by slot. */
  method Rewire(scan: seq<Scanned>, old': set<Obj>, new': map<Slot, Obj>)
    modifies Components(scan)
    ensures forall c | c in Components(scan) :: c.attrs == Rewired(old', new', old(c.attrs))
  {
    for i := 0 to |scan|
      invariant forall c | c in Components(scan) ::
                  c.attrs == if c in Components(scan[..i]) then Rewired(old', new', old(c.attrs)) else old(c.attrs)
    {
      assert scan[..i + 1] == scan[..i] + [scan[i]];
      if scan[i].Comp? {
        var comp := scan[i].c;
        assert comp in Components(scan);
        RewiredTwice(old', new', old(comp.attrs));
        RewireComponent(comp, old', new');
      }
      assert Components(scan[..i + 1]) == Components(scan[..i]) + if scan[i].Comp? then {scan[i].c} else {};
    }
    assert scan[..|scan|] == scan;
  }

  method RewireComponent(comp: Component, old': set<Obj>, new': map<Slot, Obj>)
    modifies comp
    ensures comp.attrs == Rewired(old', new', old(comp.attrs))
  {
    for j := 0 to |SLOTS|
      invariant comp.attrs.Keys == old(comp.attrs).Keys
      invariant forall s | s in comp.attrs ::
                  comp.attrs[s] == if s in SLOTS[..j] then RewiredAttr(old', new', s, old(comp.attrs)[s])
                      else old(comp.attrs)[s]
    {
      var slot := SLOTS[j];
      assert slot !in SLOTS[..j];
      assert SLOTS[..j + 1] == SLOTS[..j] + [slot];
      if slot in comp.attrs && Stale(old', TargetOf(new', slot), comp.attrs[slot]) {
        comp.attrs := comp.attrs[slot := TargetOf(new', slot)];
      }
    }
    EverySlot();
  }

  lemma EverySlot()
    ensures SLOTS[..|SLOTS|] == SLOTS && forall s: Slot :: s in SLOTS
  {
    forall s: Slot ensures s in SLOTS {
      var i := match s case TreeCache => 0 case KvAllocator => 1 case ReqToTokenPool => 2 case KvPool => 3;
      assert SLOTS[i] == s;
    }
  }

  /** When rebuilt objects are new, a rewired slot holds a retired object exactly when it held one before and
      nothing was rebuilt for that slot; a slot that matches neither test keeps its value; and a slot rebuilt in
      every round never comes to hold an object of any earlier round. */
  lemma NoRetiredLeft(old': set<Obj>, new': map<Slot, Obj>, a: Attrs, s: Slot, earlier: set<Obj>)
    requires s in a && forall t | t in new' :: new'[t] !in old' && new'[t] !in earlier
    ensures var b := Rewired(old', new', a)[s];
            && (b.Some? <==> a[s].Some?)
            && (b.Some? && b.value in old' <==> a[s].Some? && a[s].value in old' && s !in new')
            && (!Stale(old', TargetOf(new', s), a[s]) ==> b == a[s])
            && (b.Some? && s in new' && a[s].value !in earlier ==> b.value !in old' + earlier)
  {
  }

  /** A slot ends with the rebuilt object exactly when it had it, or had an object that is of the same class or retired;
      otherwise it keeps what it had, None included. */
  lemma RewiredIff(old': set<Obj>, new': map<Slot, Obj>, a: Attrs, s: Slot)
    requires s in a
    ensures var b := Rewired(old', new', a)[s];
            && (s in new' ==>
                  (b == Some(new'[s]) <==>
                     a[s].Some? && (a[s].value == new'[s] || a[s].value.cls == new'[s].cls || a[s].value in old')))
            && (b == a[s] || (s in new' && b == Some(new'[s])))
  {
  }

  /** So after a scan all components that had an object of the rebuilt one's class in a slot share the rebuilt one. */
  lemma SharedAfterScan(old': set<Obj>, new': map<Slot, Obj>, a: Attrs, b: Attrs, s: Slot)
    requires s in a && s in b && s in new' && a[s].Some? && b[s].Some?
    requires a[s].value.cls == new'[s].cls && b[s].value.cls == new'[s].cls
    ensures Rewired(old', new', a)[s] == Rewired(old', new', b)[s] == Some(new'[s])
  {
  }

  /** Every round rebuilds `s`, and nothing it rebuilds was retired in that round or before. */
  ghost predicate Fresh(rounds: seq<(set<Obj>, map<Slot, Obj>)>, s: Slot) {
    forall i, j | 0 <= i <= j < |rounds| :: s in rounds[j].1
        && forall t | t in rounds[j].1 :: rounds[j].1[t] !in rounds[i].0
  }

  function Retired(rounds: seq<(set<Obj>, map<Slot, Obj>)>): set<Obj> {
    if rounds == [] then {} else Retired(rounds[..|rounds| - 1]) + rounds[|rounds| - 1].0
  }

  function RewiredOver(rounds: seq<(set<Obj>, map<Slot, Obj>)>, a: Attrs): Attrs {
    if rounds == [] then a
    else Rewired(rounds[|rounds| - 1].0, rounds[|rounds| - 1].1, RewiredOver(rounds[..|rounds| - 1], a))
  }

  lemma {:induction false} RetiredByARound(rounds: seq<(set<Obj>, map<Slot, Obj>)>, o: Obj)
    requires o in Retired(rounds)
    ensures exists i :: 0 <= i < |rounds| && o in rounds[i].0
  {
    var n := |rounds| - 1;
    if o in rounds[n].0 {
    } else {
      RetiredByARound(rounds[..n], o);
      var i :| 0 <= i < n && o in rounds[..n][i].0;
      assert o in rounds[i].0;
    }
  }

  /** Over any number of such rounds, the slot of a component ends up with no object retired in any of them. */
  lemma {:induction false} NeverRetiredAgain(rounds: seq<(set<Obj>, map<Slot, Obj>)>, a: Attrs, s: Slot)
    requires s in a && Fresh(rounds, s)
    ensures s in RewiredOver(rounds, a) && (RewiredOver(rounds, a)[s].Some? <==> a[s].Some?)
    ensures a[s].Some? ==> RewiredOver(rounds, a)[s].value !in Retired(rounds)
  {
    if rounds != [] {
      var n := |rounds| - 1;
      var before := RewiredOver(rounds[..n], a);
      assert forall i | 0 <= i < n :: rounds[..n][i] == rounds[i];
      NeverRetiredAgain(rounds[..n], a, s);
      forall t | t in rounds[n].1 ensures rounds[n].1[t] !in Retired(rounds[..n]) {
        if rounds[n].1[t] in Retired(rounds[..n]) {
          RetiredByARound(rounds[..n], rounds[n].1[t]);
        }
      }
      NoRetiredLeft(rounds[n].0, rounds[n].1, before, s, Retired(rounds[..n]));
    }
  }
}
