/** The Python string operations of the manifest parser, on lines of ASCII text. */
module PyText {

  predicate IsSpace(c: char) {
    c == ' ' || c == '\t'
  }

  function Lstrip(s: string): string {
    if s != [] && IsSpace(s[0]) then Lstrip(s[1..]) else s
  }

  function Rstrip(s: string): string {
    if s != [] && IsSpace(s[|s| - 1]) then Rstrip(s[..|s| - 1]) else s
  }

  function Strip(s: string): string {
    Lstrip(Rstrip(s))
  }

  function LstripQuotes(s: string): string {
    if s != [] && s[0] == '"' then LstripQuotes(s[1..]) else s
  }

  function RstripQuotes(s: string): string {
    if s != [] && s[|s| - 1] == '"' then RstripQuotes(s[..|s| - 1]) else s
  }

  /** `strip('"')`. */
  function StripQuotes(s: string): string {
    LstripQuotes(RstripQuotes(s))
  }

  /** What comes before the first `c`; everything when there is none. */
  function Before(s: string, c: char): (r: string)
    ensures r <= s
  {
    if s == [] || s[0] == c then [] else [s[0]] + Before(s[1..], c)
  }

  /** What comes after the first `c`; nothing when there is none. */
  function After(s: string, c: char): string {
    if s == [] then [] else if s[0] == c then s[1..] else After(s[1..], c)
  }

  function Spaces(n: nat): (s: string)
    ensures |s| == n && forall c | c in s :: c == ' '
  {
    if n == 0 then "" else Spaces(n - 1) + " "
  }

  /** Neither end is white space. */
  predicate Tight(s: string) {
    s == [] || (!IsSpace(s[0]) && !IsSpace(s[|s| - 1]))
  }

  ghost predicate Blank(s: string) {
    forall c | c in s :: IsSpace(c)
  }

  lemma {:induction false} RstripDropsBlank(s: string, w: string)
    requires Blank(w) && (s == [] || !IsSpace(s[|s| - 1]))
    ensures Rstrip(s + w) == s
  {
    if w == [] {
      assert s + w == s;
    } else {
      assert (s + w)[..|s + w| - 1] == s + w[..|w| - 1];
      assert w[|w| - 1] in w;
      RstripDropsBlank(s, w[..|w| - 1]);
    }
  }

  lemma {:induction false} LstripDropsBlank(w: string, s: string)
    requires Blank(w) && (s == [] || !IsSpace(s[0]))
    ensures Lstrip(w + s) == s
  {
    if w == [] {
      assert w + s == s;
    } else {
      assert (w + s)[1..] == w[1..] + s;
      assert w[0] in w;
      LstripDropsBlank(w[1..], s);
    }
  }

  /** Stripping white space around a tight text gives the text back. */
  lemma StripInverts(w: string, s: string, w': string)
    requires Blank(w) && Blank(w') && Tight(s)
    ensures Strip(w + s + w') == s
  {
    if s == [] {
      assert w + s + w' == [] + (w + w');
      RstripDropsBlank([], w + w');
    } else {
      RstripDropsBlank(w + s, w');
      LstripDropsBlank(w, s);
    }
  }

  lemma {:induction false} SplitAt(a: string, c: char, b: string)
    requires c !in a
    ensures Before(a + [c] + b, c) == a && After(a + [c] + b, c) == b
  {
    var s := a + [c] + b;
    if a != [] {
      assert s[1..] == a[1..] + [c] + b;
      SplitAt(a[1..], c, b);
    } else {
      assert s[1..] == b;
    }
  }

  lemma {:induction false} BeforeNone(a: string, c: char)
    requires c !in a
    ensures Before(a, c) == a
  {
    if a != [] {
      BeforeNone(a[1..], c);
    }
  }

  lemma {:induction false} AfterNone(a: string, c: char)
    requires c !in a
    ensures After(a, c) == []
  {
    if a != [] {
      AfterNone(a[1..], c);
    }
  }

  lemma QuotesOff(v: string)
    requires v == [] || (v[0] != '"' && v[|v| - 1] != '"')
    ensures StripQuotes(v) == v && StripQuotes("\"" + v + "\"") == v
  {
    var q := "\"" + v + "\"";
    assert q[..|q| - 1] == "\"" + v;
    if v == [] {
      assert RstripQuotes(q) == RstripQuotes("\"") == "";
    } else {
      assert RstripQuotes(q) == "\"" + v;
      assert ("\"" + v)[1..] == v;
    }
  }
}
