/** The JSON values that reach a knob, with the Python operations the engines and the manifest apply to them. */
module PyValues {
  import opened Wrappers

  /** The configuration fields the engines and the control plane treat by name; `Named` is any other key. */
  datatype Field =
    | MaxNumSeqs | MaxNumBatchedTokens | LongPrefillTokenThreshold | GpuMemoryUtilization
    | MaxRunningRequests | MaxQueuedRequests | ChunkedPrefillSize | MaxPrefillTokens
    | SchedulePolicy | ScheduleConservativeness | LogLevel
    | MemFractionStatic | MaxTotalTokens | MaxTotalNumTokens | KvCacheDtype
    | Named(name: string)

  /** `Other` stands for lists and objects. Floats are finite and exact. */
  datatype Value = Int(n: int) | Float(x: real) | Bool(b: bool) | Str(s: string) | Null | Other(json: string)

  /** `isinstance(v, (int, float))`: a bool is an int. */
  predicate IsNumber(v: Value) {
    v.Int? || v.Float? || v.Bool?
  }

  function NumOf(v: Value): real
    requires IsNumber(v)
  {
    match v
    case Int(n) => n as real
    case Float(x) => x
    case Bool(b) => if b then 1.0 else 0.0
  }

  /** `int(x)` on a float: towards zero. */
  function Truncate(x: real): (n: int)
    ensures x >= 0.0 ==> n as real <= x < n as real + 1.0 && n >= 0
    ensures x < 0.0 ==> n as real - 1.0 < x <= n as real && n <= 0
  {
    if x >= 0.0 then x.Floor else -((-x).Floor)
  }

  function IntOf(v: Value): (n: int)
    requires IsNumber(v)
    ensures v.Int? ==> n == v.n
  {
    match v
    case Int(n) => n
    case Float(x) => Truncate(x)
    case Bool(b) => if b then 1 else 0
  }

  /** Python `==`: numbers compare by value whatever their type. */
  predicate Eq(a: Value, b: Value) {
    if IsNumber(a) && IsNumber(b) then NumOf(a) == NumOf(b) else a == b
  }

  /** Python `==` on dicts. */
  predicate MapEq(m: map<Field, Value>, m': map<Field, Value>) {
    m.Keys == m'.Keys && forall k | k in m :: Eq(m[k], m'[k])
  }

  function UpperChar(c: char): char {
    if 'a' <= c <= 'z' then c - 'a' + 'A' else c
  }

  function LowerChar(c: char): char {
    if 'A' <= c <= 'Z' then c - 'A' + 'a' else c
  }

  /** ASCII `str.upper`. */
  function Upper(s: string): (r: string)
    ensures |r| == |s|
  {
    seq(|s|, i requires 0 <= i < |s| => UpperChar(s[i]))
  }

  /** ASCII `str.lower`. */
  function Lower(s: string): (r: string)
    ensures |r| == |s|
  {
    seq(|s|, i requires 0 <= i < |s| => LowerChar(s[i]))
  }

  const LOG_LEVELS: set<string> := {"DEBUG", "INFO", "WARNING", "ERROR"}

  /** `str(v).upper()` when it names a log level. The text of a value that is not a string never does. */
  function LevelOf(v: Value): (r: Option<string>)
    ensures r.Some? ==> r.value in LOG_LEVELS
  {
    if v.Str? && Upper(v.s) in LOG_LEVELS then Some(Upper(v.s)) else None
  }

  /** A dict in its iteration order. */
  type Items<K, T> = seq<(K, T)>

  ghost predicate DistinctKeys<K, T>(items: Items<K, T>) {
    forall i, j | 0 <= i < j < |items| :: items[i].0 != items[j].0
  }

  /** The dict that the items list. */
  function ToMap<K, T>(items: Items<K, T>): map<K, T> {
    if items == [] then map[] else ToMap(items[..|items| - 1])[items[|items| - 1].0 := items[|items| - 1].1]
  }

  lemma {:induction false} KeyIsListed<K, T>(items: Items<K, T>, k: K)
    ensures k in ToMap(items) <==> exists i :: 0 <= i < |items| && items[i].0 == k
  {
    if items != [] {
      var n := |items| - 1;
      KeyIsListed(items[..n], k);
      assert items == items[..n] + [items[n]];
    }
  }

  lemma ToMapSnoc<K, T>(items: Items<K, T>, i: nat)
    requires i < |items|
    ensures ToMap(items[..i + 1]) == ToMap(items[..i])[items[i].0 := items[i].1]
    ensures DistinctKeys(items) ==> items[i].0 !in ToMap(items[..i])
  {
    assert items[..i + 1][..i] == items[..i];
    KeyIsListed(items[..i], items[i].0);
  }

  /** A comprehension over `items()` that keeps some keys, in order. */
  function KeepItems<K, T>(items: Items<K, T>, keep: set<K>): Items<K, T> {
    if items == [] then []
    else
      var n := |items| - 1;
      KeepItems(items[..n], keep) + if items[n].0 in keep then [items[n]] else []
  }

  lemma AppendItem<K, T>(items: Items<K, T>, item: (K, T))
    requires DistinctKeys(items) && item.0 !in ToMap(items)
    ensures DistinctKeys(items + [item]) && ToMap(items + [item]) == ToMap(items)[item.0 := item.1]
  {
    var all := items + [item];
    assert all[..|items|] == items;
    KeyIsListed(items, item.0);
  }

  function Restrict<K, T>(m: map<K, T>, keep: set<K>): map<K, T> {
    map k | k in m && k in keep :: m[k]
  }

  lemma RestrictSnoc<K, T>(m: map<K, T>, keep: set<K>, k: K, v: T)
    ensures Restrict(m[k := v], keep) == if k in keep then Restrict(m, keep)[k := v] else Restrict(m, keep)
  {
  }

  lemma {:induction false} KeptItems<K, T>(items: Items<K, T>, keep: set<K>)
    requires DistinctKeys(items)
    ensures DistinctKeys(KeepItems(items, keep))
    ensures ToMap(KeepItems(items, keep)) == Restrict(ToMap(items), keep)
  {
    if items != [] {
      var n := |items| - 1;
      var rest, k, v := items[..n], items[n].0, items[n].1;
      KeptItems(rest, keep);
      KeyIsListed(rest, k);
      RestrictSnoc(ToMap(rest), keep, k, v);
      if k in keep {
        assert k !in ToMap(KeepItems(rest, keep));
        AppendItem(KeepItems(rest, keep), items[n]);
      } else {
        assert KeepItems(items, keep) == KeepItems(rest, keep);
      }
    }
  }
}
