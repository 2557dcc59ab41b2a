/** The one-pass manifest parser, and the layout it reads back. */
module ManifestParser {
  import opened Wrappers
  import opened PyText

  /** A value in a knob mapping: text, or the one nested mapping. */
  datatype Entry = Text(s: string) | Nested(m: map<string, string>)

  type KnobDict = map<string, Entry>

  /** The parser's variables; `cur` is the last of `knobs`. Inside a validator that knob has a nested one. */
  datatype State = State(top: map<string, string>, knobs: seq<KnobDict>, inValidator: bool)

  const START := State(map[], [], false)

  const VALIDATOR := "validator"

  function Key(body: string): string {
    Strip(Before(body, ':'))
  }

  function Val(body: string): string {
    StripQuotes(Strip(After(body, ':')))
  }

  function Last(s: State): KnobDict
    requires s.knobs != []
  {
    s.knobs[|s.knobs| - 1]
  }

  function WithLast(s: State, k: KnobDict, inValidator: bool): State
    requires s.knobs != []
  {
    s.(knobs := s.knobs[|s.knobs| - 1 := k], inValidator := inValidator)
  }

  predicate StartsItem(body: string) {
    |body| >= 2 && body[0] == '-' && body[1] == ' '
  }

  /** The line without its comment and trailing white space. */
  function Clean(raw: string): string {
    Rstrip(Before(raw, '#'))
  }

  /** One line with something on it; None is the exception raised by a knob line before any knob. */
  function Read(s: State, line: string): Option<State> {
    var indent := |line| - |Lstrip(line)|;
    var body := Strip(line);
    if indent == 0 then
      if body == "knobs:" then Some(s.(inValidator := false))
      else Some(s.(top := s.top[Key(body) := Val(body)], inValidator := false))
    else if StartsItem(body) then
      Some(s.(knobs := s.knobs + [map[Key(body[2..]) := Text(Val(body[2..]))]], inValidator := false))
    else if s.knobs == [] then None
    else if body == "validator:" then Some(WithLast(s, Last(s)[VALIDATOR := Nested(map[])], true))
    else if s.inValidator && indent >= 6 && VALIDATOR in Last(s) && Last(s)[VALIDATOR].Nested? then
      var m := Last(s)[VALIDATOR].m;
      Some(WithLast(s, Last(s)[VALIDATOR := Nested(m[Key(body) := Val(body)])], true))
    else Some(WithLast(s, Last(s)[Key(body) := Text(Val(body))], false))
  }

  function ReadRaw(s: State, raw: string): Option<State> {
    if Strip(Clean(raw)) == "" then Some(s) else Read(s, Clean(raw))
  }

  function ReadAll(s: State, lines: seq<string>): Option<State>
    decreases |lines|
  {
    if lines == [] then Some(s)
    else
      match ReadRaw(s, lines[0])
      case None => None
      case Some(t) => ReadAll(t, lines[1..])
  }

  /** `_parse_yaml`, line by line. */
  method Parse(lines: seq<string>) returns (r: Option<(map<string, string>, seq<KnobDict>)>)
    ensures r == match ReadAll(START, lines) case None => None case Some(s) => Some((s.top, s.knobs))
  {
    var top: map<string, string>, knobs: seq<KnobDict>, inValidator := map[], [], false;
    for i := 0 to |lines|
      invariant ReadAll(START, lines) == ReadAll(State(top, knobs, inValidator), lines[i..])
      invariant inValidator ==> knobs != [] && VALIDATOR in knobs[|knobs| - 1] && knobs[|knobs| - 1][VALIDATOR].Nested?
    {
      assert lines[i..][0] == lines[i] && lines[i..][1..] == lines[i + 1..];
      var line := Clean(lines[i]);
      if Strip(line) == "" { continue; }
      var indent := |line| - |Lstrip(line)|;
      var body := Strip(line);
      if indent == 0 {
        inValidator := false;
        if body == "knobs:" { continue; }
        top := top[Key(body) := Val(body)];
      } else if StartsItem(body) {
        inValidator := false;
        knobs := knobs + [map[Key(body[2..]) := Text(Val(body[2..]))]];
      } else {
        if knobs == [] { return None; }
        var cur := knobs[|knobs| - 1];
        if body == "validator:" {
          inValidator := true;
          cur := cur[VALIDATOR := Nested(map[])];
        } else if inValidator && indent >= 6 {
          cur := cur[VALIDATOR := Nested(cur[VALIDATOR].m[Key(body) := Val(body)])];
        } else {
          inValidator := false;
          cur := cur[Key(body) := Text(Val(body))];
        }
        knobs := knobs[|knobs| - 1 := cur];
      }
    }
    return Some((top, knobs));
  }

  // ------------------------------------------------------------------ layout

  /** One `key: value`, quoted or not. */
  datatype Setting = Setting(key: string, val: string, quoted: bool)

  function Body(t: Setting): string {
    t.key + ":" + if t.quoted then " \"" + t.val + "\"" else if t.val == "" then "" else " " + t.val
  }

  /** Keys without white space, colon or hash; values without a hash or a quote at either end, and, unless quoted,
      without white space at either end. */
  ghost predicate CleanSetting(t: Setting) {
    && t.key != "" && (forall c | c in t.key :: !IsSpace(c) && c != ':' && c != '#')
    && '#' !in t.val
    && (t.val == "" || (t.val[0] != '"' && t.val[|t.val| - 1] != '"'))
    && (!t.quoted ==> Tight(t.val))
  }

  /** What a knob has under its first line: more settings, the nested validator, or a setting with lines of prose
      folded under it. */
  datatype Part = Plain(t: Setting) | Check(ts: seq<Setting>) | Folded(t: Setting, lines: seq<string>)

  /** A folded line: any text that does not read as an item or as the start of a validator. */
  ghost predicate Prose(line: string) {
    line != "" && Tight(line) && '#' !in line && !StartsItem(line) && line != "validator:"
  }

  datatype KnobText = KnobText(first: Setting, parts: seq<Part>)

  /** A manifest: top-level settings, `knobs:`, and the list. */
  datatype Doc = Doc(top: seq<Setting>, knobs: seq<KnobText>)

  ghost predicate CleanPart(p: Part) {
    match p
    case Plain(t) => CleanSetting(t) && Body(t) != "validator:"
    case Check(ts) => forall t | t in ts :: CleanSetting(t) && Body(t) != "validator:"
    case Folded(t, lines) => CleanSetting(t) && Body(t) != "validator:" && forall l | l in lines :: Prose(l)
  }

  ghost predicate CleanKnob(k: KnobText) {
    CleanSetting(k.first) && forall p | p in k.parts :: CleanPart(p)
  }

  ghost predicate CleanDoc(d: Doc) {
    && (forall t | t in d.top :: CleanSetting(t) && Body(t) != "knobs:")
    && (forall k | k in d.knobs :: CleanKnob(k))
  }

  function Rows(indent: nat, ts: seq<Setting>): seq<string> {
    if ts == [] then [] else [Spaces(indent) + Body(ts[0])] + Rows(indent, ts[1..])
  }

  function ProseRows(lines: seq<string>): seq<string> {
    if lines == [] then [] else [Spaces(6) + lines[0]] + ProseRows(lines[1..])
  }

  function PartRows(p: Part): seq<string> {
    match p
    case Plain(t) => [Spaces(4) + Body(t)]
    case Check(ts) => [Spaces(4) + "validator:"] + Rows(6, ts)
    case Folded(t, lines) => [Spaces(4) + Body(t)] + ProseRows(lines)
  }

  function ItemRow(first: Setting): string {
    Spaces(2) + ("- " + Body(first))
  }

  /** The knob's first line and its first `n` parts. */
  function KnobRows(k: KnobText, n: nat): seq<string>
    requires n <= |k.parts|
  {
    if n == 0 then [ItemRow(k.first)] else KnobRows(k, n - 1) + PartRows(k.parts[n - 1])
  }

  function KnobsRows(ks: seq<KnobText>): seq<string> {
    if ks == [] then [] else KnobRows(ks[0], |ks[0].parts|) + KnobsRows(ks[1..])
  }

  /** The shipped layout: two spaces before an item, four before its settings, six inside its validator. */
  function Render(d: Doc): seq<string> {
    Rows(0, d.top) + ["knobs:"] + KnobsRows(d.knobs)
  }

  // ------------------------------------------------------- what it should read

  function Settle(m: map<string, string>, ts: seq<Setting>): map<string, string>
    decreases |ts|
  {
    if ts == [] then m else Settle(m[ts[0].key := ts[0].val], ts[1..])
  }

  /** Folded lines are not joined: each is one more setting of the knob. */
  function Scatter(k: KnobDict, lines: seq<string>): KnobDict
    decreases |lines|
  {
    if lines == [] then k else Scatter(k[Key(lines[0]) := Text(Val(lines[0]))], lines[1..])
  }

  function AddPart(k: KnobDict, p: Part): KnobDict {
    match p
    case Plain(t) => k[t.key := Text(t.val)]
    case Check(ts) => k[VALIDATOR := Nested(Settle(map[], ts))]
    case Folded(t, lines) => Scatter(k[t.key := Text(t.val)], lines)
  }

  function KnobValue(k: KnobText, n: nat): KnobDict
    requires n <= |k.parts|
  {
    if n == 0 then map[k.first.key := Text(k.first.val)] else AddPart(KnobValue(k, n - 1), k.parts[n - 1])
  }

  function KnobValues(ks: seq<KnobText>): seq<KnobDict> {
    if ks == [] then [] else [KnobValue(ks[0], |ks[0].parts|)] + KnobValues(ks[1..])
  }

  // ------------------------------------------------------------------- proofs

  function Rest(t: Setting): string {
    if t.quoted then " \"" + t.val + "\"" else if t.val == "" then "" else " " + t.val
  }

  lemma BodyEnds(t: Setting)
    requires CleanSetting(t)
    ensures Body(t) == t.key + ":" + Rest(t)
    ensures Body(t) != "" && Tight(Body(t)) && '#' !in Body(t) && !StartsItem(Body(t))
  {
    var b := Body(t);
    assert b[0] == t.key[0] && t.key[0] in t.key;
    assert b[|b| - 1] == if Rest(t) == "" then ':' else Rest(t)[|Rest(t)| - 1];
    assert b[1] == if |t.key| == 1 then ':' else t.key[1];
    assert |t.key| > 1 ==> t.key[1] in t.key;
  }

  lemma BodyKey(t: Setting)
    requires CleanSetting(t)
    ensures Key(Body(t)) == t.key && After(Body(t), ':') == Rest(t)
  {
    assert Body(t) == t.key + [':'] + Rest(t);
    SplitAt(t.key, ':', Rest(t));
    assert t.key[0] in t.key && t.key[|t.key| - 1] in t.key;
    StripInverts("", t.key, "");
    assert "" + t.key + "" == t.key;
  }

  lemma RestVal(t: Setting)
    requires CleanSetting(t)
    ensures StripQuotes(Strip(Rest(t))) == t.val
  {
    QuotesOff(t.val);
    var shown := if t.quoted then "\"" + t.val + "\"" else t.val;
    if Rest(t) == "" {
      assert t.val == "";
    } else {
      assert Rest(t) == " " + shown + "";
      StripInverts(" ", shown, "");
    }
  }

  lemma BodyShape(t: Setting)
    requires CleanSetting(t)
    ensures Body(t) != "" && Tight(Body(t)) && '#' !in Body(t) && !StartsItem(Body(t))
    ensures Key(Body(t)) == t.key && Val(Body(t)) == t.val
  {
    BodyEnds(t);
    BodyKey(t);
    RestVal(t);
  }

  lemma Indented(n: nat, body: string)
    requires body != "" && Tight(body)
    ensures Lstrip(Spaces(n) + body) == body && Strip(Spaces(n) + body) == body && |Spaces(n) + body| - |body| == n
  {
    LstripDropsBlank(Spaces(n), body);
    StripInverts(Spaces(n), body, "");
    assert Spaces(n) + body + "" == Spaces(n) + body;
  }

  /** A rendered row, whatever white space and comment follow it, is read as that row. */
  lemma DecoratedRow(s: State, row: string, w: string, comment: string)
    requires row != "" && !IsSpace(row[|row| - 1]) && '#' !in row && Blank(w)
    ensures ReadRaw(s, row + w) == ReadRaw(s, row + w + "#" + comment) == Read(s, row)
  {
    assert '#' !in row + w;
    BeforeNone(row + w, '#');
    SplitAt(row + w, '#', comment);
    assert row + w + ['#'] + comment == row + w + "#" + comment;
    RstripDropsBlank(row, w);
    RstripDropsBlank(row, "");
    assert row + "" == row;
    StripNotEmpty(row);
  }

  lemma {:induction false} LstripKeepsLast(s: string)
    requires s != "" && !IsSpace(s[|s| - 1])
    ensures Lstrip(s) != ""
  {
    if IsSpace(s[0]) {
      LstripKeepsLast(s[1..]);
    }
  }

  lemma StripNotEmpty(s: string)
    requires s != "" && !IsSpace(s[|s| - 1])
    ensures Rstrip(s) == s && Strip(s) != ""
  {
    LstripKeepsLast(s);
  }

  /** A blank or comment line is passed over. */
  lemma NoiseRow(s: State, w: string, comment: string)
    requires Blank(w)
    ensures ReadRaw(s, w) == ReadRaw(s, w + "#" + comment) == Some(s)
  {
    assert '#' !in w;
    BeforeNone(w, '#');
    SplitAt(w, '#', comment);
    assert w + ['#'] + comment == w + "#" + comment;
    RstripDropsBlank("", w);
    assert "" + w == w;
  }

  /** `lines` is `rows` with anything after each row that starts as white space or a comment, and with blank and
      comment lines put in anywhere. */
  ghost predicate Decorates(lines: seq<string>, rows: seq<string>)
    decreases |lines|
  {
    if lines == [] then rows == []
    else
      || (Noise(lines[0]) && Decorates(lines[1..], rows))
      || (rows != [] && Dressed(lines[0], rows[0]) && Decorates(lines[1..], rows[1..]))
  }

  ghost predicate Noise(line: string) {
    Blank(line) || exists w, comment :: Blank(w) && line == w + "#" + comment
  }

  ghost predicate Dressed(line: string, row: string) {
    || (exists w :: Blank(w) && line == row + w)
    || (exists w, comment :: Blank(w) && line == row + w + "#" + comment)
  }

  ghost predicate IsRow(row: string) {
    row != "" && !IsSpace(row[|row| - 1]) && '#' !in row
  }

  ghost predicate AllRows(rows: seq<string>) {
    forall r | r in rows :: IsRow(r)
  }

  lemma RowsJoin(a: seq<string>, b: seq<string>)
    requires AllRows(a) && AllRows(b)
    ensures AllRows(a + b)
  {
  }

  lemma OneRow(row: string)
    requires IsRow(row)
    ensures AllRows([row])
  {
  }

  /** Reading cleaned rows one after the other. */
  function ReadRows(s: State, rows: seq<string>): Option<State>
    decreases |rows|
  {
    if rows == [] then Some(s)
    else
      match Read(s, rows[0])
      case None => None
      case Some(t) => ReadRows(t, rows[1..])
  }

  lemma {:induction false} DecorationIsIgnored(s: State, lines: seq<string>, rows: seq<string>)
    requires Decorates(lines, rows) && AllRows(rows)
    ensures ReadAll(s, lines) == ReadRows(s, rows)
    decreases |lines|
  {
    if lines != [] {
      if Noise(lines[0]) && Decorates(lines[1..], rows) {
        if Blank(lines[0]) {
          NoiseRow(s, lines[0], "");
        } else {
          var w, comment :| Blank(w) && lines[0] == w + "#" + comment;
          NoiseRow(s, w, comment);
        }
        DecorationIsIgnored(s, lines[1..], rows);
      } else {
        assert IsRow(rows[0]);
        if w :| Blank(w) && lines[0] == rows[0] + w {
          DecoratedRow(s, rows[0], w, "");
        } else {
          var w, comment :| Blank(w) && lines[0] == rows[0] + w + "#" + comment;
          DecoratedRow(s, rows[0], w, comment);
        }
        if Read(s, rows[0]).Some? {
          DecorationIsIgnored(Read(s, rows[0]).value, lines[1..], rows[1..]);
        }
      }
    }
  }

  lemma {:induction false} ReadConcat(s: State, a: seq<string>, b: seq<string>)
    ensures ReadRows(s, a + b) == match ReadRows(s, a) case None => None case Some(t) => ReadRows(t, b)
    decreases |a|
  {
    if a == [] {
      assert a + b == b;
    } else {
      assert (a + b)[0] == a[0] && (a + b)[1..] == a[1..] + b;
      if Read(s, a[0]).Some? {
        ReadConcat(Read(s, a[0]).value, a[1..], b);
      }
    }
  }

  lemma RowIsRow(n: nat, t: Setting)
    requires CleanSetting(t)
    ensures IsRow(Spaces(n) + Body(t))
  {
  }

  lemma TopReads(s: State, t: Setting)
    requires CleanSetting(t) && Body(t) != "knobs:"
    ensures Read(s, Spaces(0) + Body(t)) == Some(s.(top := s.top[t.key := t.val], inValidator := false))
  {
    BodyShape(t);
    Indented(0, Body(t));
  }

  /** The parser at knob `k`, after the knobs `before`. */
  function At(top: map<string, string>, before: seq<KnobDict>, k: KnobDict, inValidator: bool): State {
    State(top, before + [k], inValidator)
  }

  lemma AtLast(top: map<string, string>, before: seq<KnobDict>, k: KnobDict, b: bool, k': KnobDict, b': bool)
    ensures Last(At(top, before, k, b)) == k && WithLast(At(top, before, k, b), k', b') == At(top, before, k', b')
  {
  }

  lemma Overwrite(k: KnobDict, key: string, a: Entry, b: Entry)
    ensures k[key := a][key := b] == k[key := b]
  {
  }

  lemma CheckReads(top: map<string, string>, before: seq<KnobDict>, k: KnobDict, m: map<string, string>, t: Setting)
    requires CleanSetting(t) && Body(t) != "validator:"
    ensures Read(At(top, before, k[VALIDATOR := Nested(m)], true), Spaces(6) + Body(t))
            == Some(At(top, before, k[VALIDATOR := Nested(m[t.key := t.val])], true))
  {
    BodyShape(t);
    Indented(6, Body(t));
    AtLast(top, before, k[VALIDATOR := Nested(m)], true, k[VALIDATOR := Nested(m[t.key := t.val])], true);
    Overwrite(k, VALIDATOR, Nested(m), Nested(m[t.key := t.val]));
  }

  lemma PlainReads(top: map<string, string>, before: seq<KnobDict>, k: KnobDict, b: bool, t: Setting)
    requires CleanSetting(t) && Body(t) != "validator:"
    ensures Read(At(top, before, k, b), Spaces(4) + Body(t)) == Some(At(top, before, k[t.key := Text(t.val)], false))
  {
    BodyShape(t);
    Indented(4, Body(t));
    AtLast(top, before, k, b, k[t.key := Text(t.val)], false);
  }

  lemma HeaderReads(top: map<string, string>, before: seq<KnobDict>, k: KnobDict, b: bool)
    ensures Read(At(top, before, k, b), Spaces(4) + "validator:")
            == Some(At(top, before, k[VALIDATOR := Nested(map[])], true))
    ensures IsRow(Spaces(4) + "validator:")
  {
    Indented(4, "validator:");
    var row := Spaces(4) + "validator:";
    assert row[|row| - 1] == ':';
    AtLast(top, before, k, b, k[VALIDATOR := Nested(map[])], true);
  }

  lemma {:induction false} TopRows(s: State, ts: seq<Setting>)
    requires forall t | t in ts :: CleanSetting(t) && Body(t) != "knobs:"
    ensures ReadRows(s, Rows(0, ts)) == Some(s.(top := Settle(s.top, ts), inValidator := s.inValidator && ts == []))
    ensures AllRows(Rows(0, ts))
    decreases |ts|
  {
    if ts != [] {
      var t := ts[0];
      TopReads(s, t);
      RowIsRow(0, t);
      TopRows(s.(top := s.top[t.key := t.val], inValidator := false), ts[1..]);
    }
  }

  lemma {:induction false} CheckRows(top: map<string, string>, before: seq<KnobDict>, k: KnobDict,
                                     m: map<string, string>, ts: seq<Setting>)
    requires forall t | t in ts :: CleanSetting(t) && Body(t) != "validator:"
    ensures ReadRows(At(top, before, k[VALIDATOR := Nested(m)], true), Rows(6, ts))
            == Some(At(top, before, k[VALIDATOR := Nested(Settle(m, ts))], true))
    ensures AllRows(Rows(6, ts))
    decreases |ts|
  {
    if ts != [] {
      CheckReads(top, before, k, m, ts[0]);
      RowIsRow(6, ts[0]);
      CheckRows(top, before, k, m[ts[0].key := ts[0].val], ts[1..]);
    }
  }

  lemma ProseReads(top: map<string, string>, before: seq<KnobDict>, k: KnobDict, line: string)
    requires Prose(line)
    ensures Read(At(top, before, k, false), Spaces(6) + line)
            == Some(At(top, before, k[Key(line) := Text(Val(line))], false))
    ensures IsRow(Spaces(6) + line)
  {
    Indented(6, line);
    AtLast(top, before, k, false, k[Key(line) := Text(Val(line))], false);
    var row := Spaces(6) + line;
    assert row[|row| - 1] == line[|line| - 1];
  }

  lemma {:induction false} ProseRowsRead(top: map<string, string>, before: seq<KnobDict>, k: KnobDict,
                                         lines: seq<string>)
    requires forall l | l in lines :: Prose(l)
    ensures ReadRows(At(top, before, k, false), ProseRows(lines)) == Some(At(top, before, Scatter(k, lines), false))
    ensures AllRows(ProseRows(lines))
    decreases |lines|
  {
    if lines != [] {
      ProseReads(top, before, k, lines[0]);
      ProseRowsRead(top, before, k[Key(lines[0]) := Text(Val(lines[0]))], lines[1..]);
    }
  }

  lemma PartReads(top: map<string, string>, before: seq<KnobDict>, k: KnobDict, b: bool, p: Part)
    requires CleanPart(p)
    ensures ReadRows(At(top, before, k, b), PartRows(p)) == Some(At(top, before, AddPart(k, p), p.Check?))
    ensures AllRows(PartRows(p))
  {
    match p {
      case Plain(t) =>
        PlainReads(top, before, k, b, t);
        RowIsRow(4, t);
        assert ReadRows(At(top, before, k[t.key := Text(t.val)], false), []).Some?;
      case Check(ts) =>
        HeaderReads(top, before, k, b);
        CheckRows(top, before, k, map[], ts);
        assert PartRows(p)[0] == Spaces(4) + "validator:" && PartRows(p)[1..] == Rows(6, ts);
      case Folded(t, lines) =>
        PlainReads(top, before, k, b, t);
        RowIsRow(4, t);
        ProseRowsRead(top, before, k[t.key := Text(t.val)], lines);
        assert PartRows(p)[0] == Spaces(4) + Body(t) && PartRows(p)[1..] == ProseRows(lines);
    }
  }

  lemma Assoc<T>(a: seq<T>, b: seq<T>, c: seq<T>)
    ensures a + b + c == a + (b + c)
  {
  }

  lemma ReadJoin(s: State, mid: State, out: State, a: seq<string>, b: seq<string>)
    requires ReadRows(s, a) == Some(mid) && ReadRows(mid, b) == Some(out)
    ensures ReadRows(s, a + b) == Some(out)
  {
    ReadConcat(s, a, b);
  }

  /** The parser after the first line of a knob and its first `n` parts: inside a validator when that was the last. */
  function StateAfter(s: State, k: KnobText, n: nat): State
    requires n <= |k.parts|
  {
    At(s.top, s.knobs, KnobValue(k, n), n > 0 && k.parts[n - 1].Check?)
  }

  ghost predicate Reads(s: State, k: KnobText, n: nat)
    requires n <= |k.parts|
  {
    ReadRows(s, KnobRows(k, n)) == Some(StateAfter(s, k, n)) && AllRows(KnobRows(k, n))
  }

  lemma FirstReads(s: State, k: KnobText)
    requires CleanKnob(k)
    ensures Reads(s, k, 0)
  {
    ItemReads(s, k.first);
    assert ReadRows(StateAfter(s, k, 0), []).Some?;
  }

  lemma NextPartReads(s: State, k: KnobText, n: nat)
    requires CleanKnob(k) && 0 < n <= |k.parts| && Reads(s, k, n - 1)
    ensures Reads(s, k, n)
  {
    var part, before := k.parts[n - 1], StateAfter(s, k, n - 1);
    assert part in k.parts;
    PartReads(s.top, s.knobs, KnobValue(k, n - 1), before.inValidator, part);
    ReadJoin(s, before, StateAfter(s, k, n), KnobRows(k, n - 1), PartRows(part));
    RowsJoin(KnobRows(k, n - 1), PartRows(part));
  }

  lemma {:induction false} KnobReads(s: State, k: KnobText, n: nat)
    requires CleanKnob(k) && n <= |k.parts|
    ensures Reads(s, k, n)
  {
    if n == 0 {
      FirstReads(s, k);
    } else {
      KnobReads(s, k, n - 1);
      NextPartReads(s, k, n);
    }
  }

  lemma {:induction false} KnobsRead(top: map<string, string>, knobs: seq<KnobDict>, b: bool,
                                     ks: seq<KnobText>) returns (b': bool)
    requires forall k | k in ks :: CleanKnob(k)
    ensures ReadRows(State(top, knobs, b), KnobsRows(ks)) == Some(State(top, knobs + KnobValues(ks), b'))
    ensures AllRows(KnobsRows(ks))
    decreases |ks|
  {
    if ks == [] {
      b' := b;
      assert knobs + [] == knobs;
    } else {
      var v := KnobValue(ks[0], |ks[0].parts|);
      KnobReads(State(top, knobs, b), ks[0], |ks[0].parts|);
      var mid := StateAfter(State(top, knobs, b), ks[0], |ks[0].parts|);
      b' := KnobsRead(top, knobs + [v], mid.inValidator, ks[1..]);
      Assoc(knobs, [v], KnobValues(ks[1..]));
      ReadJoin(State(top, knobs, b), mid, State(top, knobs + KnobValues(ks), b'),
               KnobRows(ks[0], |ks[0].parts|), KnobsRows(ks[1..]));
      RowsJoin(KnobRows(ks[0], |ks[0].parts|), KnobsRows(ks[1..]));
    }
  }

  lemma ItemReads(s: State, first: Setting)
    requires CleanSetting(first)
    ensures Read(s, ItemRow(first)) == Some(At(s.top, s.knobs, map[first.key := Text(first.val)], false))
    ensures IsRow(ItemRow(first))
  {
    BodyShape(first);
    var body := "- " + Body(first);
    assert body[|body| - 1] == Body(first)[|Body(first)| - 1];
    Indented(2, body);
    assert body[2..] == Body(first);
    assert '#' !in body;
  }

  /** The parser inverts the layout: any manifest with clean keys and values, rendered with the indents of the
      shipped files, with any trailing white space and comments and any blank and comment lines between, reads back
      as exactly its top-level settings and its knob mappings, validators nested. */
  lemma ParseInvertsRender(d: Doc, lines: seq<string>)
    requires CleanDoc(d) && Decorates(lines, Render(d))
    ensures var r := ReadAll(START, lines);
            r.Some? && r.value.top == Settle(map[], d.top) && r.value.knobs == KnobValues(d.knobs)
  {
    var s := DocReads(d);
    DecorationIsIgnored(START, lines, Render(d));
  }

  lemma ListReads(s1: State, ks: seq<KnobText>) returns (s: State)
    requires forall k | k in ks :: CleanKnob(k)
    ensures ReadRows(s1, ["knobs:"] + KnobsRows(ks)) == Some(s) && AllRows(["knobs:"] + KnobsRows(ks))
    ensures s.top == s1.top && s.knobs == s1.knobs + KnobValues(ks)
  {
    KnobsLine(s1);
    var b := KnobsRead(s1.top, s1.knobs, false, ks);
    s := State(s1.top, s1.knobs + KnobValues(ks), b);
    var s2 := s1.(inValidator := false);
    OneRow("knobs:");
    RowsJoin(["knobs:"], KnobsRows(ks));
    assert ReadRows(s2, []) == Some(s2);
    assert ReadRows(s1, ["knobs:"]) == Some(s2);
    ReadJoin(s1, s2, s, ["knobs:"], KnobsRows(ks));
  }

  lemma DocReads(d: Doc) returns (s: State)
    requires CleanDoc(d)
    ensures ReadRows(START, Render(d)) == Some(s) && AllRows(Render(d))
    ensures s.top == Settle(map[], d.top) && s.knobs == KnobValues(d.knobs)
  {
    TopRows(START, d.top);
    var s1 := ReadRows(START, Rows(0, d.top)).value;
    s := ListReads(s1, d.knobs);
    var tail := ["knobs:"] + KnobsRows(d.knobs);
    ReadJoin(START, s1, s, Rows(0, d.top), tail);
    RowsJoin(Rows(0, d.top), tail);
    Assoc(Rows(0, d.top), ["knobs:"], KnobsRows(d.knobs));
  }

  lemma KnobsLine(s: State)
    ensures Read(s, "knobs:") == Some(s.(inValidator := false)) && IsRow("knobs:")
  {
  }

  // ------------------------------------------------------------ folded lines

  /** A folded line without a colon becomes a key of its own, with nothing as its value. */
  lemma ProseKey(line: string)
    requires Prose(line) && ':' !in line
    ensures Key(line) == line && Val(line) == ""
  {
    BeforeNone(line, ':');
    AfterNone(line, ':');
    assert "" + line + "" == line;
    StripInverts("", line, "");
  }

  /** What the last folded line with this key writes, if there is one. */
  function LastWrite(lines: seq<string>, key: string): Option<string> {
    if lines == [] then None
    else
      var later := LastWrite(lines[1..], key);
      if later.Some? then later else if Key(lines[0]) == key then Some(Val(lines[0])) else None
  }

  ghost predicate SameAt(k: KnobDict, k': KnobDict, key: string) {
    (key in k <==> key in k') && (key in k ==> k'[key] == k[key])
  }

  lemma {:induction false} ScatterAt(k: KnobDict, lines: seq<string>, key: string)
    ensures match LastWrite(lines, key)
            case None => SameAt(k, Scatter(k, lines), key)
            case Some(v) => key in Scatter(k, lines) && Scatter(k, lines)[key] == Text(v)
    decreases |lines|
  {
    if lines != [] {
      ScatterAt(k[Key(lines[0]) := Text(Val(lines[0]))], lines[1..], key);
    }
  }

  lemma {:induction false} LastWriteNone(lines: seq<string>, key: string)
    ensures LastWrite(lines, key).None? <==> forall l | l in lines :: Key(l) != key
  {
    if lines != [] {
      LastWriteNone(lines[1..], key);
    }
  }

  /** When a key of a knob comes through lines folded under another: exactly when none of them has that key, or the last
      that has it writes the text that was there. A validator comes through exactly when no line has its key. */
  lemma FoldedKeepsIff(k: KnobDict, lines: seq<string>, key: string)
    ensures SameAt(k, Scatter(k, lines), key) <==>
            || (forall l | l in lines :: Key(l) != key)
            || (LastWrite(lines, key).Some? && key in k && k[key] == Text(LastWrite(lines, key).value))
    ensures key in k && k[key].Nested? ==>
              (SameAt(k, Scatter(k, lines), key) <==> forall l | l in lines :: Key(l) != key)
  {
    ScatterAt(k, lines, key);
    LastWriteNone(lines, key);
  }

  /** Lines of prose without a colon, as one shipped manifest has them: each is a key of the knob, and every other key
      comes through. */
  lemma FoldedBecomesKeys(k: KnobDict, lines: seq<string>, key: string)
    requires forall l | l in lines :: Prose(l) && ':' !in l
    ensures if key in lines then key in Scatter(k, lines) && Scatter(k, lines)[key] == Text("")
            else SameAt(k, Scatter(k, lines), key)
  {
    ScatterAt(k, lines, key);
    LastWriteNone(lines, key);
    forall l | l in lines ensures Key(l) == l && Val(l) == "" {
      ProseKey(l);
    }
    LastWriteIsEmpty(lines, key);
  }

  lemma {:induction false} LastWriteIsEmpty(lines: seq<string>, key: string)
    requires forall l | l in lines :: Val(l) == ""
    ensures LastWrite(lines, key).Some? ==> LastWrite(lines, key).value == ""
  {
    if lines != [] {
      LastWriteIsEmpty(lines[1..], key);
    }
  }
}
