/** The generation-tagged regions of the memory saver: what a warm reinit pauses and what it allocates under. */
module MemoryTags {

  /** `str(n)`. */
  function Decimal(n: nat): (s: string)
    ensures s != [] && forall c | c in s :: '0' <= c <= '9'
  {
    var digit := ['0' + (n % 10) as char];
    if n < 10 then digit else Decimal(n / 10) + digit
  }

  lemma {:induction false} DecimalInjective(m: nat, n: nat)
    requires Decimal(m) == Decimal(n)
    ensures m == n
  {
    var s, t := Decimal(m), Decimal(n);
    assert s[|s| - 1] == '0' + (m % 10) as char && t[|t| - 1] == '0' + (n % 10) as char;
    if m >= 10 && n >= 10 {
      assert s[..|s| - 1] == Decimal(m / 10) && t[..|t| - 1] == Decimal(n / 10);
      DecimalInjective(m / 10, n / 10);
    }
  }

  const KV := "kv_cache"
  const GRAPH := "cuda_graph"

  /** The tag the reinit of generation `gen` pauses. */
  function PauseTag(base: string, gen: nat): string {
    base + if gen == 0 then "" else ".g" + Decimal(gen)
  }

  /** The tag the patched `region` allocates under while the class counter is `gen`. */
  function RegionTag(tag: string, gen: nat): string {
    if gen != 0 && (tag == KV || tag == GRAPH) then tag + ".g" + Decimal(gen) else tag
  }

  /** A tag that no reinit ever pauses, such as that of the weights. */
  ghost predicate Foreign(tag: string) {
    forall g: nat :: tag != PauseTag(KV, g) && tag != PauseTag(GRAPH, g)
  }

  lemma WeightsAreForeign()
    ensures Foreign("weights")
  {
  }

  /** What is paused is what was allocated: the two spellings agree for the pool tags in every generation. */
  lemma TagsAgree(gen: nat)
    ensures RegionTag(KV, gen) == PauseTag(KV, gen) && RegionTag(GRAPH, gen) == PauseTag(GRAPH, gen)
  {
  }

  /** Tags of different generations or kinds are different strings. */
  lemma TagsDistinct(a: string, b: string, g: nat, h: nat)
    requires a in {KV, GRAPH} && b in {KV, GRAPH} && PauseTag(a, g) == PauseTag(b, h)
    ensures a == b && g == h
  {
    var s, t := PauseTag(a, g), PauseTag(b, h);
    assert s[0] == a[0] && t[0] == b[0];
    assert a == b;
    assert s[|a|..] == if g == 0 then "" else ".g" + Decimal(g);
    assert t[|a|..] == if h == 0 then "" else ".g" + Decimal(h);
    if g != 0 && h != 0 {
      assert s[|a|..][2..] == Decimal(g) && t[|a|..][2..] == Decimal(h);
      DecimalInjective(g, h);
    }
  }

  /** How they are spelled: the plain tag at first, then the generation behind ".g". */
  lemma TagSpelling(gen: nat)
    ensures PauseTag(KV, 0) == "kv_cache" && PauseTag(GRAPH, 0) == "cuda_graph"
    ensures gen > 0 ==>
              && PauseTag(KV, gen) == "kv_cache.g" + Decimal(gen)
              && PauseTag(GRAPH, gen) == "cuda_graph.g" + Decimal(gen)
    ensures gen < 10 ==> Decimal(gen) == ['0' + gen as char]
    ensures Decimal(10 * gen + 7) == (if gen == 0 then [] else Decimal(gen)) + ['7']
  {
    assert KV + "" == KV && GRAPH + "" == GRAPH;
    assert KV + ".g" == "kv_cache.g" && GRAPH + ".g" == "cuda_graph.g";
  }

  // ------------------------------------------------------------------- saver

  datatype Region = Region(tag: string, mapped: bool)

  /** The memory saver: its regions in allocation order, and every pause so far. */
  datatype Saver = Saver(regions: seq<Region>, pauses: seq<string>)

  /** Unmaps the pages of every region under the tag. */
  function Pause(s: Saver, tag: string): Saver {
    Saver(seq(|s.regions|, i requires 0 <= i < |s.regions| => if s.regions[i].tag == tag then Region(tag, false)
        else s.regions[i]),
          s.pauses + [tag])
  }

  function Allocate(s: Saver, tags: seq<string>, gen: nat): (r: Saver)
    ensures r.pauses == s.pauses
  {
    s.(regions := s.regions + seq(|tags|, i requires 0 <= i < |tags| => Region(RegionTag(tags[i], gen), true)))
  }

  /** Every pause made before generation `gen`, in order. */
  function PausesBefore(gen: nat): seq<string> {
    if gen == 0 then [] else PausesBefore(gen - 1) + [PauseTag(KV, gen - 1), PauseTag(GRAPH, gen - 1)]
  }

  ghost predicate PoolTag(tag: string, gen: nat) {
    tag == PauseTag(KV, gen) || tag == PauseTag(GRAPH, gen)
  }

  /** Generation `gen` is current: exactly the earlier generations have been paused, once each and in order; a
      region is mapped exactly when it is of the current generation or foreign. */
  ghost predicate Current(s: Saver, gen: nat) {
    && s.pauses == PausesBefore(gen)
    && forall r | r in s.regions ::
         if r.mapped then PoolTag(r.tag, gen) || Foreign(r.tag) else exists g: nat :: g < gen && PoolTag(r.tag, g)
  }

  ghost predicate Tags(tags: seq<string>) {
    forall t | t in tags :: t == KV || t == GRAPH || Foreign(t)
  }

  /** Pause `2 * g` is that of generation `g`'s KV cache, pause `2 * g + 1` that of its graphs. */
  lemma {:induction false} PausesInOrder(gen: nat)
    ensures |PausesBefore(gen)| == 2 * gen
    ensures forall g: nat | g < gen ::
              PausesBefore(gen)[2 * g] == PauseTag(KV, g) && PausesBefore(gen)[2 * g + 1] == PauseTag(GRAPH, g)
  {
    if gen > 0 {
      PausesInOrder(gen - 1);
      var before, last := PausesBefore(gen - 1), [PauseTag(KV, gen - 1), PauseTag(GRAPH, gen - 1)];
      assert PausesBefore(gen) == before + last;
      forall g: nat | g < gen
        ensures PausesBefore(gen)[2 * g] == PauseTag(KV, g) && PausesBefore(gen)[2 * g + 1] == PauseTag(GRAPH, g)
      {
        if g < gen - 1 {
          assert (before + last)[2 * g] == before[2 * g] && (before + last)[2 * g + 1] == before[2 * g + 1];
        } else {
          assert (before + last)[2 * g] == last[0] && (before + last)[2 * g + 1] == last[1];
        }
      }
    }
  }

  /** No tag is ever paused twice. */
  lemma PausedOnce(gen: nat, i: nat, j: nat)
    requires i < j < |PausesBefore(gen)|
    ensures PausesBefore(gen)[i] != PausesBefore(gen)[j]
  {
    var a, g := PauseAt(gen, i);
    var b, h := PauseAt(gen, j);
    if PauseTag(a, g) == PauseTag(b, h) {
      TagsDistinct(a, b, g, h);
    }
  }

  lemma PauseAt(gen: nat, i: nat) returns (base: string, g: nat)
    requires i < |PausesBefore(gen)|
    ensures base in {KV, GRAPH} && PausesBefore(gen)[i] == PauseTag(base, g)
    ensures i == if base == KV then 2 * g else 2 * g + 1
  {
    PausesInOrder(gen);
    g := i / 2;
    assert KV[0] != GRAPH[0];
    if i == 2 * g {
      base := KV;
    } else {
      base := GRAPH;
    }
  }

  /** Pausing the current generation touches no region that is already paused and none that is foreign, and makes
      the next generation current. */
  lemma PauseAdvances(s: Saver, gen: nat)
    requires Current(s, gen)
    ensures Current(Pause(Pause(s, PauseTag(KV, gen)), PauseTag(GRAPH, gen)), gen + 1)
    ensures forall i | 0 <= i < |s.regions| && PoolTag(s.regions[i].tag, gen) :: s.regions[i].mapped
    ensures forall i | 0 <= i < |s.regions| && Foreign(s.regions[i].tag) ::
              Pause(Pause(s, PauseTag(KV, gen)), PauseTag(GRAPH, gen)).regions[i] == s.regions[i]
  {
    var r := Pause(Pause(s, PauseTag(KV, gen)), PauseTag(GRAPH, gen));
    forall i | 0 <= i < |s.regions|
      ensures r.regions[i] == if PoolTag(s.regions[i].tag, gen) then Region(s.regions[i].tag, false) else s.regions[i]
      ensures PoolTag(s.regions[i].tag, gen) ==> s.regions[i].mapped
    {
      var x := s.regions[i];
      assert x in s.regions;
      if PoolTag(x.tag, gen) && !x.mapped {
        var g: nat :| g < gen && PoolTag(x.tag, g);
        var a := if x.tag == PauseTag(KV, gen) then KV else GRAPH;
        var b := if x.tag == PauseTag(KV, g) then KV else GRAPH;
        TagsDistinct(a, b, gen, g);
      }
    }
    forall x | x in r.regions
      ensures if x.mapped then PoolTag(x.tag, gen + 1) || Foreign(x.tag) else exists g: nat ::
                g < gen + 1 && PoolTag(x.tag, g)
    {
      var i :| 0 <= i < |r.regions| && r.regions[i] == x;
      assert s.regions[i] in s.regions;
    }
  }
}
