/**
 The hstore parser of psycopg2 (extras.py, `HstoreAdapter.parse`), with its regular expressions, proved to undo
 PostgreSQL's hstore output.
 */
module HstoreParser {
  import opened Wrappers
  import opened Regex

  // ---------- the source's expressions ----------

  const Ordinary: char -> bool := c => c != '"' && c != '\\'
  const NotNewline: char -> bool := c => c != '\n'

  /** `\s` on strings. */
  const Space: char -> bool := c =>
    || '\t' <= c <= '\r' || '\U{1c}' <= c <= ' ' || c == '\U{85}' || c == '\U{a0}' || c == '\U{1680}'
    || '\U{2000}' <= c <= '\U{200a}' || c in {'\U{2028}', '\U{2029}', '\U{202f}', '\U{205f}', '\U{3000}'}

  function Spaces(): Regex { Star(One(Space)) }

  function Body(): Regex { Or(One(Ordinary), Cat(Lit('\\'), One(NotNewline))) }

  function QuotedString(n: nat): Regex { Cat(Lit('"'), Cat(Group(n, Star(Body())), Lit('"'))) }

  function PairValue(): Regex { Or(Literal("NULL"), QuotedString(2)) }

  function PairEnd(): Regex { Or(Cat(Spaces(), Cat(Lit(','), Spaces())), End) }

  function Arrow(): Regex { Cat(Spaces(), Cat(Literal("=>"), Spaces())) }

  function PairRegex(): Regex { Cat(QuotedString(1), Cat(Arrow(), Cat(PairValue(), PairEnd()))) }

  function Backslashed(): Regex { Cat(Lit('\\'), Group(1, One(NotNewline))) }

  function Unescape(s: string): string { Substitute(Backslashed(), 1, s, 0) }

  // ---------- the parser ----------

  type Map = map<string, Option<string>>

  datatype Error = InterfaceError(at: nat)

  function KeyOf(h: Hit): string { if 1 in h.groups then Unescape(h.groups[1]) else "" }

  function ValueOf(h: Hit): Option<string> { if 2 in h.groups then Some(Unescape(h.groups[2])) else None }

  /** The pairs must follow each other without a gap, up to the end. */
  function Collect(hs: seq<Hit>, start: nat, rv: Map, n: nat): Result<Map, Error> {
    if hs == [] then if start < n then Err(InterfaceError(start)) else Ok(rv)
    else if hs[0].start != start then Err(InterfaceError(start))
    else Collect(hs[1..], hs[0].end, rv[KeyOf(hs[0]) := ValueOf(hs[0])], n)
  }

  function Parsed(s: string): Result<Map, Error> { Collect(FindAll(PairRegex(), s, 0), 0, map[], |s|) }

  method Parse(s: string) returns (r: Result<Map, Error>)
    ensures r == Parsed(s)
  {
    hide FindAll, KeyOf, ValueOf;
    var rv: Map := map[];
    var start: nat := 0;
    var hits := FindAll(PairRegex(), s, 0);
    assert hits[0..] == hits;
    for i := 0 to |hits|
      invariant Parsed(s) == Collect(hits[i..], start, rv, |s|)
    {
      var m := hits[i];
      assert hits[i..][0] == m && hits[i..][1..] == hits[i + 1..];
      if m.start != start { return Err(InterfaceError(start)); }
      var k, v := KeyOf(m), ValueOf(m);
      rv := rv[k := v];
      start := m.end;
    }
    if start < |s| { return Err(InterfaceError(start)); }
    return Ok(rv);
  }

  // ---------- PostgreSQL's output ----------

  predicate Special(c: char) { c == '"' || c == '\\' }

  /** A backslash before every quote and backslash. */
  function Escape(v: string): string {
    if v == "" then "" else (if Special(v[0]) then ['\\', v[0]] else [v[0]]) + Escape(v[1..])
  }

  function Quote(v: string): string { "\"" + Escape(v) + "\"" }

  datatype Pair = Pair(key: string, value: Option<string>)

  function PrintValue(v: Option<string>): string { if v.Some? then Quote(v.value) else "NULL" }

  function PrintPair(p: Pair): string { Quote(p.key) + "=>" + PrintValue(p.value) }

  function Print(ps: seq<Pair>): string {
    if ps == [] then ""
    else if |ps| == 1 then PrintPair(ps[0])
    else PrintPair(ps[0]) + ", " + Print(ps[1..])
  }

  function MapFrom(ps: seq<Pair>, m: Map): Map { if ps == [] then m else MapFrom(ps[1..], m[ps[0].key := ps[0].value]) }

  // ---------- unescaping ----------

  lemma BackslashedAt(s: string, p: nat)
    requires p < |s|
    ensures s[p] != '\\' ==> Match(Backslashed(), s, p, map[]) == []
    ensures s[p] == '\\' && p + 1 < |s| && s[p + 1] != '\n' ==>
              First(Match(Backslashed(), s, p, map[]), Found(p + 2, map[1 := [s[p + 1]]]))
  {
    hide Match;
    LitMatch('\\', s, p, map[]);
    if s[p] != '\\' {
      CatFails(Lit('\\'), Group(1, One(NotNewline)), s, p, map[]);
    } else if p + 1 < |s| && s[p + 1] != '\n' {
      OneMatch(NotNewline, s, p + 1, map[]);
      assert s[p + 1..p + 2] == [s[p + 1]];
      GroupFirst(1, One(NotNewline), s, p + 1, map[], Found(p + 2, map[]));
      CatFirst(Lit('\\'), Group(1, One(NotNewline)), s, p, map[], Found(p + 1, map[]), Found(p + 2, map[1 := [s[p + 1]]]));
    }
  }

  lemma {:induction false} BackslashedAdvances(s: string, p: nat)
    requires p <= |s|
    ensures FindNext(Backslashed(), s, p).Some? ==> FindNext(Backslashed(), s, p).value.end > p
    decreases |s| - p
  {
    hide Match;
    LitMatch('\\', s, p, map[]);
    CatMatch(Lit('\\'), Group(1, One(NotNewline)), s, p, map[]);
    ContinueAdvances(Match(Lit('\\'), s, p, map[]), Group(1, One(NotNewline)), s, p, p);
    if p < |s| { BackslashedAdvances(s, p + 1); }
  }

  lemma {:induction false} UnescapeFrom(s: string, p: nat, v: string)
    requires p <= |s| && s[p..] == Escape(v)
    ensures Substitute(Backslashed(), 1, s, p) == v
    decreases |v|
  {
    hide Substitute, Backslashed, Match, FindNext;
    if v == "" {
      NothingLeft(s, p);
    } else {
      var n := if Special(v[0]) then 2 else 1;
      assert s[p] == s[p..][0] && s[p..][n..] == s[p + n..];
      assert Escape(v)[n..] == Escape(v[1..]);
      UnescapeFrom(s, p + n, v[1..]);
      BackslashedAt(s, p);
      if Special(v[0]) {
        assert s[p + 1] == s[p..][1] == v[0];
        SubstituteHit(Backslashed(), 1, s, p, Found(p + 2, map[1 := [s[p + 1]]]));
      } else {
        BackslashedAdvances(s, p + 1);
        SubstituteMiss(Backslashed(), 1, s, p);
      }
      assert v == [v[0]] + v[1..];
    }
  }

  lemma NothingLeft(s: string, p: nat)
    requires p == |s|
    ensures Substitute(Backslashed(), 1, s, p) == ""
  {
  }

  // ---------- the expression on printed pairs ----------

  lemma OrdinaryStep(s: string, p: nat, g: map<nat, string>)
    requires p < |s| && Ordinary(s[p])
    ensures First(Match(Body(), s, p, g), Found(p + 1, g))
  {
    hide Match;
    OneMatch(Ordinary, s, p, g);
    OrFirst(One(Ordinary), Cat(Lit('\\'), One(NotNewline)), s, p, g, Found(p + 1, g));
  }

  lemma EscapedStep(s: string, p: nat, g: map<nat, string>)
    requires p + 1 < |s| && s[p] == '\\' && s[p + 1] != '\n'
    ensures First(Match(Body(), s, p, g), Found(p + 2, g))
  {
    hide Match;
    OneMatch(Ordinary, s, p, g);
    LitMatch('\\', s, p, g);
    OneMatch(NotNewline, s, p + 1, g);
    CatFirst(Lit('\\'), One(NotNewline), s, p, g, Found(p + 1, g), Found(p + 2, g));
    OrFirst(One(Ordinary), Cat(Lit('\\'), One(NotNewline)), s, p, g, Found(p + 2, g));
  }

  lemma QuoteStops(s: string, e: nat, g: map<nat, string>)
    requires e < |s| && s[e] == '"'
    ensures First(Match(Star(Body()), s, e, g), Found(e, g))
  {
    hide Match;
    OneMatch(Ordinary, s, e, g);
    LitMatch('\\', s, e, g);
    CatFails(Lit('\\'), One(NotNewline), s, e, g);
    OrMatch(One(Ordinary), Cat(Lit('\\'), One(NotNewline)), s, e, g);
    StarStops(Body(), s, e, g);
  }

  lemma {:induction false} EscapedRun(s: string, p: nat, v: string, e: nat, g: map<nat, string>)
    requires p + |Escape(v)| == e < |s| && s[p..e] == Escape(v) && s[e] == '"'
    ensures First(Match(Star(Body()), s, p, g), Found(e, g))
    decreases |v|
  {
    hide Match, Body;
    if v == "" {
      QuoteStops(s, e, g);
    } else {
      var n := if Special(v[0]) then 2 else 1;
      assert s[p] == s[p..e][0];
      assert s[p..e][n..] == s[p + n..e] && Escape(v)[n..] == Escape(v[1..]);
      EscapedRun(s, p + n, v[1..], e, g);
      if Special(v[0]) {
        assert s[p + 1] == s[p..e][1] == v[0];
        EscapedStep(s, p, g);
      } else {
        OrdinaryStep(s, p, g);
      }
      StarStep(Body(), s, p, g, Found(p + n, g), Found(e, g));
    }
  }

  lemma QuoteParts(v: string)
    ensures var q := Quote(v); |q| >= 2 && q[0] == '"' && q[|q| - 1] == '"' && q[1..|q| - 1] == Escape(v)
  {
  }

  lemma QuotedStringAt(n: nat, s: string, p: nat, v: string, g: map<nat, string>)
    requires p + |Quote(v)| <= |s| && s[p..p + |Quote(v)|] == Quote(v)
    ensures First(Match(QuotedString(n), s, p, g), Found(p + |Quote(v)|, g[n := Escape(v)]))
  {
    hide Match, Body, Escape;
    var e := p + |Quote(v)|;
    var t := s[p..e];
    QuoteParts(v);
    assert s[p] == t[0] && s[e - 1] == t[|t| - 1];
    assert s[p + 1..e - 1] == t[1..|t| - 1];
    LitMatch('"', s, p, g);
    EscapedRun(s, p + 1, v, e - 1, g);
    GroupFirst(n, Star(Body()), s, p + 1, g, Found(e - 1, g));
    var h := g[n := Escape(v)];
    LitMatch('"', s, e - 1, h);
    CatFirst(Group(n, Star(Body())), Lit('"'), s, p + 1, g, Found(e - 1, h), Found(e, h));
    CatFirst(Lit('"'), Cat(Group(n, Star(Body())), Lit('"')), s, p, g, Found(p + 1, g), Found(e, h));
  }

  lemma NoSpace(s: string, p: nat, g: map<nat, string>)
    requires p <= |s| && (p < |s| ==> !Space(s[p]))
    ensures Match(Spaces(), s, p, g) == [Found(p, g)]
  {
    OneMatch(Space, s, p, g);
    StarStops(One(Space), s, p, g);
  }

  lemma ArrowAt(s: string, p: nat, g: map<nat, string>)
    requires p + 2 < |s| && s[p] == '=' && s[p + 1] == '>' && !Space(s[p + 2])
    ensures First(Match(Arrow(), s, p, g), Found(p + 2, g))
  {
    hide Match;
    NoSpace(s, p, g);
    NoSpace(s, p + 2, g);
    LiteralAt("=>", s, p, g);
    CatFirst(Literal("=>"), Spaces(), s, p, g, Found(p + 2, g), Found(p + 2, g));
    CatFirst(Spaces(), Cat(Literal("=>"), Spaces()), s, p, g, Found(p, g), Found(p + 2, g));
  }

  lemma {:induction false} LiteralAt(w: string, s: string, p: nat, g: map<nat, string>)
    requires p + |w| <= |s| && forall i :: 0 <= i < |w| ==> s[p + i] == w[i]
    ensures First(Match(Literal(w), s, p, g), Found(p + |w|, g))
    decreases |w|
  {
    hide Match;
    if w == "" {
      EmptyMatch(s, p, g);
    } else {
      LitMatch(w[0], s, p, g);
      LiteralAt(w[1..], s, p + 1, g);
      CatFirst(Lit(w[0]), Literal(w[1..]), s, p, g, Found(p + 1, g), Found(p + |w|, g));
    }
  }

  function Valued(v: Option<string>, g: map<nat, string>): map<nat, string> { if v.Some? then g[2 := Escape(v.value)] else g }

  lemma ValueAt(s: string, p: nat, v: Option<string>, g: map<nat, string>)
    requires p + |PrintValue(v)| <= |s| && s[p..p + |PrintValue(v)|] == PrintValue(v)
    ensures First(Match(PairValue(), s, p, g), Found(p + |PrintValue(v)|, Valued(v, g)))
  {
    hide Match, Escape;
    var t := s[p..p + |PrintValue(v)|];
    match v
    case None =>
      forall i | 0 <= i < 4 ensures s[p + i] == "NULL"[i] { assert s[p + i] == t[i]; }
      LiteralAt("NULL", s, p, g);
      OrFirst(Literal("NULL"), QuotedString(2), s, p, g, Found(p + 4, g));
    case Some(x) =>
      assert s[p] == t[0];
      LitMatch('N', s, p, g);
      CatFails(Lit('N'), Literal("NULL"[1..]), s, p, g);
      QuotedStringAt(2, s, p, x, g);
      OrFirst(Literal("NULL"), QuotedString(2), s, p, g, Found(p + |Quote(x)|, g[2 := Escape(x)]));
  }

  lemma EndAt(s: string, g: map<nat, string>)
    ensures First(Match(PairEnd(), s, |s|, g), Found(|s|, g))
  {
    var e := |s|;
    NoSpace(s, e, g);
    LitMatch(',', s, e, g);
    CatFails(Lit(','), Spaces(), s, e, g);
    CatMatch(Spaces(), Cat(Lit(','), Spaces()), s, e, g);
    NoneContinues(Match(Spaces(), s, e, g), Cat(Lit(','), Spaces()), s, e);
    OrFirst(Cat(Spaces(), Cat(Lit(','), Spaces())), End, s, e, g, Found(e, g));
  }

  lemma CommaAt(s: string, e: nat, g: map<nat, string>)
    requires e + 2 < |s| && s[e] == ',' && s[e + 1] == ' ' && s[e + 2] == '"'
    ensures First(Match(PairEnd(), s, e, g), Found(e + 2, g))
  {
    hide Match;
    NoSpace(s, e, g);
    LitMatch(',', s, e, g);
    RunFirst(Space, s, e + 1, e + 2, g);
    CatFirst(Lit(','), Spaces(), s, e, g, Found(e + 1, g), Found(e + 2, g));
    CatFirst(Spaces(), Cat(Lit(','), Spaces()), s, e, g, Found(e, g), Found(e + 2, g));
    OrFirst(Cat(Spaces(), Cat(Lit(','), Spaces())), End, s, e, g, Found(e + 2, g));
  }

  /** Where the key, the arrow and the value of a printed pair stand. */
  lemma PairParts(s: string, p: nat, a: Pair)
    requires p + |PrintPair(a)| <= |s| && s[p..p + |PrintPair(a)|] == PrintPair(a)
    ensures var k, e := |Quote(a.key)|, p + |PrintPair(a)|;
      && p + k + 2 < e == p + k + 2 + |PrintValue(a.value)|
      && s[p..p + k] == Quote(a.key) && s[p + k] == '=' && s[p + k + 1] == '>'
      && s[p + k + 2..e] == PrintValue(a.value) && !Space(s[p + k + 2])
  {
    hide Quote, PrintValue;
    ValueStart(a.value);
    var q, v, e := Quote(a.key), PrintValue(a.value), p + |PrintPair(a)|;
    var k, t := |q|, s[p..e];
    assert t == q + "=>" + v;
    SlicesOf(s, p, e, 0, k);
    SlicesOf(s, p, e, k, k + 2);
    SlicesOf(s, p, e, k + 2, |t|);
    assert t[..k] == q && t[k..k + 2] == "=>" && t[k + 2..] == v;
    assert s[p + k] == s[p + k..p + k + 2][0] && s[p + k + 1] == s[p + k..p + k + 2][1] && s[p + k + 2] == s[p + k + 2..e][0];
  }

  lemma SlicesOf(s: string, p: nat, e: nat, i: nat, j: nat)
    requires p <= e <= |s| && i <= j <= e - p
    ensures s[p..e][i..j] == s[p + i..p + j]
  {
    var t, u := s[p..e][i..j], s[p + i..p + j];
    assert |t| == |u| && forall x :: 0 <= x < |t| ==> t[x] == u[x];
  }

  /** The whole expression on one printed pair, the last one or one with another behind it. */
  lemma PairAt(s: string, p: nat, a: Pair)
    requires var e := p + |PrintPair(a)|;
      && e <= |s| && s[p..e] == PrintPair(a)
      && (e < |s| ==> e + 2 < |s| && s[e] == ',' && s[e + 1] == ' ' && s[e + 2] == '"')
    ensures var e := p + |PrintPair(a)|;
      First(Match(PairRegex(), s, p, map[]), Found(if e < |s| then e + 2 else e, Valued(a.value, map[1 := Escape(a.key)])))
  {
    hide Match, Quote, PrintValue;
    var k, e := |Quote(a.key)|, p + |PrintPair(a)|;
    PairParts(s, p, a);
    var g: map<nat, string> := map[1 := Escape(a.key)];
    var h := Valued(a.value, g);
    var x := Found(if e < |s| then e + 2 else e, h);
    QuotedStringAt(1, s, p, a.key, map[]);
    ArrowAt(s, p + k, g);
    ValueAt(s, p + k + 2, a.value, g);
    if e < |s| { CommaAt(s, e, h); } else { EndAt(s, h); }
    CatFirst(PairValue(), PairEnd(), s, p + k + 2, g, Found(e, h), x);
    CatFirst(Arrow(), Cat(PairValue(), PairEnd()), s, p + k, g, Found(p + k + 2, g), x);
    CatFirst(QuotedString(1), Cat(Arrow(), Cat(PairValue(), PairEnd())), s, p, map[], Found(p + k, g), x);
  }

  lemma ValueStart(v: Option<string>)
    ensures PrintValue(v) != "" && !Space(PrintValue(v)[0])
  {
  }

  lemma {:induction false} PairsAreFound(s: string, p: nat, ps: seq<Pair>, rv: Map)
    requires p <= |s| && s[p..] == Print(ps)
    ensures Collect(FindAll(PairRegex(), s, p), p, rv, |s|) == Ok(MapFrom(ps, rv))
    decreases |ps|
  {
    hide FindAll, PairRegex, KeyOf, ValueOf;
    if ps == [] {
      NothingIsFound(s, p);
    } else {
      FirstPair(s, p, ps);
      hide Print;
      var a := ps[0];
      var e := p + |PrintPair(a)|;
      PairAt(s, p, a);
      var x := Found(if e < |s| then e + 2 else e, Valued(a.value, map[1 := Escape(a.key)]));
      PairIsLong(a);
      FindAllHere(PairRegex(), s, p, x);
      var h := Hit(p, x.pos, x.groups);
      HitMeans(h, a);
      PairsAreFound(s, x.pos, ps[1..], rv[a.key := a.value]);
      CollectStep(h, FindAll(PairRegex(), s, x.pos), rv, |s|);
    }
  }

  lemma CollectStep(h: Hit, rest: seq<Hit>, rv: Map, n: nat)
    ensures Collect([h] + rest, h.start, rv, n) == Collect(rest, h.end, rv[KeyOf(h) := ValueOf(h)], n)
  {
    assert ([h] + rest)[1..] == rest;
  }

  lemma HitMeans(h: Hit, a: Pair)
    requires h.groups == Valued(a.value, map[1 := Escape(a.key)])
    ensures KeyOf(h) == a.key && ValueOf(h) == a.value
  {
    UnescapeFrom(Escape(a.key), 0, a.key);
    if a.value.Some? { UnescapeFrom(Escape(a.value.value), 0, a.value.value); }
    hide Substitute;
  }

  lemma PairIsLong(a: Pair)
    ensures |PrintPair(a)| > 0 && PrintPair(a)[0] == '"'
  {
  }

  /** Where the text of the first pair stands, and what is behind it. */
  lemma FirstPair(s: string, p: nat, ps: seq<Pair>)
    requires p <= |s| && ps != [] && s[p..] == Print(ps)
    ensures var e := p + |PrintPair(ps[0])|;
      && e <= |s| && s[p..e] == PrintPair(ps[0])
      && (e < |s| ==> e + 2 < |s| && s[e] == ',' && s[e + 1] == ' ' && s[e + 2] == '"' && s[e + 2..] == Print(ps[1..]))
      && (e == |s| ==> s[e..] == Print(ps[1..]))
  {
    hide PrintPair;
    var t, n := s[p..], |PrintPair(ps[0])|;
    if |ps| > 1 {
      PrintStarts(ps[1..]);
      assert t == PrintPair(ps[0]) + ", " + Print(ps[1..]);
      assert s[p..p + n] == t[..n] && s[p + n] == t[n] && s[p + n + 1] == t[n + 1] && s[p + n + 2] == t[n + 2];
      assert s[p + n + 2..] == t[n + 2..];
    } else {
      assert t[..n] == t;
    }
  }

  lemma PrintStarts(ps: seq<Pair>)
    requires ps != []
    ensures Print(ps) != "" && Print(ps)[0] == '"'
  {
    PairIsLong(ps[0]);
    hide PrintPair;
  }

  lemma NothingIsFound(s: string, p: nat)
    requires p == |s|
    ensures FindAll(PairRegex(), s, p) == []
  {
    hide Match;
    LitMatch('"', s, p, map[]);
    CatFails(Lit('"'), Cat(Group(1, Star(Body())), Lit('"')), s, p, map[]);
    CatFails(QuotedString(1), Cat(Arrow(), Cat(PairValue(), PairEnd())), s, p, map[]);
  }

  // ---------- main theorem ----------

  predicate DistinctKeys(ps: seq<Pair>) { forall i, j :: 0 <= i < j < |ps| ==> ps[i].key != ps[j].key }

  lemma {:induction false} MapFromMeans(ps: seq<Pair>, m: Map)
    requires DistinctKeys(ps) && forall i :: 0 <= i < |ps| ==> ps[i].key !in m
    ensures MapFrom(ps, m).Keys == m.Keys + set i | 0 <= i < |ps| :: ps[i].key
    ensures forall i :: 0 <= i < |ps| ==> ps[i].key in MapFrom(ps, m) && MapFrom(ps, m)[ps[i].key] == ps[i].value
    ensures forall k :: k in m ==> MapFrom(ps, m)[k] == m[k]
    decreases |ps|
  {
    if ps != [] {
      MapFromMeans(ps[1..], m[ps[0].key := ps[0].value]);
      assert forall i :: 0 < i < |ps| ==> ps[i] == ps[1..][i - 1];
    }
  }

  /**
   For every hstore value, whatever its keys and values hold, parsing PostgreSQL's output gives back exactly
   its map: the same keys, each with its value, NULL or string.
   */
  lemma ParseUndoesPrint(ps: seq<Pair>)
    requires DistinctKeys(ps)
    ensures var r := Parsed(Print(ps));
      && r.Ok? && r.value.Keys == (set i | 0 <= i < |ps| :: ps[i].key)
      && forall i :: 0 <= i < |ps| ==> r.value[ps[i].key] == ps[i].value
  {
    hide FindAll, PairRegex, Print;
    var s := Print(ps);
    assert s[0..] == s;
    PairsAreFound(s, 0, ps, map[]);
    MapFromMeans(ps, map[]);
  }

  /** Nothing is passed over in silence: when parsing succeeds the hits follow each other from the first character to the last. */
  lemma {:induction false} ParsedCoversAll(hs: seq<Hit>, start: nat, rv: Map, n: nat)
    requires Collect(hs, start, rv, n).Ok?
    ensures hs != [] ==> hs[0].start == start && hs[|hs| - 1].end >= n
    ensures hs == [] ==> start >= n
    ensures forall i :: 0 < i < |hs| ==> hs[i].start == hs[i - 1].end
    decreases |hs|
  {
    if hs != [] {
      ParsedCoversAll(hs[1..], hs[0].end, rv[KeyOf(hs[0]) := ValueOf(hs[0])], n);
      assert forall i :: 0 < i < |hs| ==> hs[i] == hs[1..][i - 1];
    }
  }
}
