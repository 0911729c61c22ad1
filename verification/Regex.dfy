/**
 Regular expressions as Python's `re` matches them: by backtracking, alternatives from left to right, repetition
 greedily. The results of a match are listed in the order in which backtracking tries them; the first is taken.
 */
module Regex {
  import opened Wrappers

  datatype Regex =
    | Empty
    | One(f: char -> bool)
    | Cat(a: Regex, b: Regex)
    | Or(a: Regex, b: Regex)
    | Star(a: Regex)
    | Group(n: nat, a: Regex)
    | End

  function Opt(a: Regex): Regex { Or(a, Empty) }

  function Plus(a: Regex): Regex { Cat(a, Star(a)) }

  function Lit(c: char): Regex { One(x => x == c) }

  function Literal(w: string): Regex { if w == "" then Empty else Cat(Lit(w[0]), Literal(w[1..])) }

  /** The end of a match and the texts of its groups. */
  datatype Found = Found(pos: nat, groups: map<nat, string>)

  predicate Within(rs: seq<Found>, lo: nat, hi: nat) { forall i :: 0 <= i < |rs| ==> lo <= rs[i].pos <= hi }

  function Match(r: Regex, s: string, p: nat, g: map<nat, string>): (rs: seq<Found>)
    requires p <= |s|
    ensures Within(rs, p, |s|)
    decreases |s| - p, r, 0
  {
    match r
    case Empty => [Found(p, g)]
    case One(f) => if p < |s| && f(s[p]) then [Found(p + 1, g)] else []
    case Cat(a, b) => Continue(Match(a, s, p, g), b, s, p)
    case Or(a, b) => Match(a, s, p, g) + Match(b, s, p, g)
    case Star(a) => Repeat(Match(a, s, p, g), a, s, p) + [Found(p, g)]
    case Group(n, a) => Captured(Match(a, s, p, g), n, s, p)
    /** Python's `$` also matches before a newline at the end. */
    case End => if p == |s| || (p + 1 == |s| && s[p] == '\n') then [Found(p, g)] else []
  }

  function Continue(rs: seq<Found>, b: Regex, s: string, lo: nat): (r: seq<Found>)
    requires lo <= |s| && Within(rs, lo, |s|)
    ensures Within(r, lo, |s|)
    decreases |s| - lo, b, 1 + |rs|
  {
    if rs == [] then [] else Match(b, s, rs[0].pos, rs[0].groups) + Continue(rs[1..], b, s, lo)
  }

  function Repeat(rs: seq<Found>, a: Regex, s: string, lo: nat): (r: seq<Found>)
    requires lo <= |s| && Within(rs, lo, |s|)
    ensures Within(r, lo, |s|)
    decreases |s| - lo, a, 1 + |rs|
  {
    if rs == [] then []
    else (if rs[0].pos > lo then Match(Star(a), s, rs[0].pos, rs[0].groups) else []) + Repeat(rs[1..], a, s, lo)
  }

  function Captured(rs: seq<Found>, n: nat, s: string, lo: nat): (r: seq<Found>)
    requires lo <= |s| && Within(rs, lo, |s|)
    ensures |r| == |rs| && forall i :: 0 <= i < |rs| ==> r[i] == rs[i].(groups := rs[i].groups[n := s[lo..rs[i].pos]])
  {
    if rs == [] then [] else [rs[0].(groups := rs[0].groups[n := s[lo..rs[0].pos]])] + Captured(rs[1..], n, s, lo)
  }

  /** What `finditer` yields, with the start of each match; text that does not match is passed over. */
  datatype Hit = Hit(start: nat, end: nat, groups: map<nat, string>)

  function FindNext(r: Regex, s: string, p: nat): (h: Option<Hit>)
    requires p <= |s|
    ensures h.Some? ==> p <= h.value.start <= h.value.end <= |s|
    decreases |s| - p
  {
    var rs := Match(r, s, p, map[]);
    if rs != [] then Some(Hit(p, rs[0].pos, rs[0].groups))
    else if p == |s| then None
    else FindNext(r, s, p + 1)
  }

  /** All hits from p; the expressions used here match no empty text. */
  function FindAll(r: Regex, s: string, p: nat): (hs: seq<Hit>)
    requires p <= |s|
    decreases |s| - p
  {
    match FindNext(r, s, p)
    case None => []
    case Some(h) =>
      if h.end > p then [h] + FindAll(r, s, h.end)
      else if p < |s| then [h] + FindAll(r, s, p + 1)
      else [h]
  }

  /** `sub` with the text of group n in place of each hit. */
  function Substitute(r: Regex, n: nat, s: string, p: nat): string
    requires p <= |s|
    decreases |s| - p
  {
    match FindNext(r, s, p)
    case None => s[p..]
    case Some(h) =>
      if h.end > p then s[p..h.start] + (if n in h.groups then h.groups[n] else "") + Substitute(r, n, s, h.end) else s[p..]
  }

  // ---------- the first result ----------

  predicate First(rs: seq<Found>, x: Found) { rs != [] && rs[0] == x }

  lemma FindHere(r: Regex, s: string, p: nat, x: Found)
    requires p <= |s| && First(Match(r, s, p, map[]), x)
    ensures FindNext(r, s, p) == Some(Hit(p, x.pos, x.groups))
  {
    hide Match;
  }

  lemma FindLater(r: Regex, s: string, p: nat)
    requires p < |s| && Match(r, s, p, map[]) == []
    ensures FindNext(r, s, p) == FindNext(r, s, p + 1)
  {
    hide Match;
  }

  lemma FindAllHere(r: Regex, s: string, p: nat, x: Found)
    requires p < x.pos <= |s| && First(Match(r, s, p, map[]), x)
    ensures FindAll(r, s, p) == [Hit(p, x.pos, x.groups)] + FindAll(r, s, x.pos)
  {
    FindHere(r, s, p, x);
    hide Match, FindNext;
  }

  lemma SubstituteHit(r: Regex, n: nat, s: string, p: nat, x: Found)
    requires p < x.pos <= |s| && First(Match(r, s, p, map[]), x) && n in x.groups
    ensures Substitute(r, n, s, p) == x.groups[n] + Substitute(r, n, s, x.pos)
  {
    FindHere(r, s, p, x);
    hide Match, FindNext, First;
    assert s[p..p] + x.groups[n] + Substitute(r, n, s, x.pos) == x.groups[n] + Substitute(r, n, s, x.pos);
  }

  lemma SubstituteMiss(r: Regex, n: nat, s: string, p: nat)
    requires p < |s| && Match(r, s, p, map[]) == []
    requires FindNext(r, s, p + 1).Some? ==> FindNext(r, s, p + 1).value.end > p + 1
    ensures Substitute(r, n, s, p) == [s[p]] + Substitute(r, n, s, p + 1)
  {
    FindLater(r, s, p);
    hide Match, FindNext;
    match FindNext(r, s, p)
    case None => assert s[p..] == [s[p]] + s[p + 1..];
    case Some(h) =>
      var g, rest := if n in h.groups then h.groups[n] else "", Substitute(r, n, s, h.end);
      assert Substitute(r, n, s, p) == s[p..h.start] + g + rest;
      assert Substitute(r, n, s, p + 1) == s[p + 1..h.start] + g + rest;
      OneMore(s, p, h.start, g, rest);
  }

  lemma OneMore(s: string, p: nat, e: nat, g: string, rest: string)
    requires p < e <= |s|
    ensures s[p..e] + g + rest == [s[p]] + (s[p + 1..e] + g + rest)
  {
  }

  lemma CatFirst(a: Regex, b: Regex, s: string, p: nat, g: map<nat, string>, x: Found, y: Found)
    requires p <= |s| && First(Match(a, s, p, g), x) && x.pos <= |s| && First(Match(b, s, x.pos, x.groups), y)
    ensures First(Match(Cat(a, b), s, p, g), y)
  {
  }

  lemma OrFirst(a: Regex, b: Regex, s: string, p: nat, g: map<nat, string>, x: Found)
    requires p <= |s|
    requires First(Match(a, s, p, g), x) || (Match(a, s, p, g) == [] && First(Match(b, s, p, g), x))
    ensures First(Match(Or(a, b), s, p, g), x)
  {
  }

  lemma {:induction false} NoneContinues(rs: seq<Found>, b: Regex, s: string, lo: nat)
    requires lo <= |s| && Within(rs, lo, |s|)
    requires forall i :: 0 <= i < |rs| ==> Match(b, s, rs[i].pos, rs[i].groups) == []
    ensures Continue(rs, b, s, lo) == []
    decreases |rs|
  {
    if rs != [] {
      assert Match(b, s, rs[0].pos, rs[0].groups) == [];
      NoneContinues(rs[1..], b, s, lo);
    }
  }

  predicate Beyond(rs: seq<Found>, p: nat) { forall i :: 0 <= i < |rs| ==> rs[i].pos > p }

  lemma {:induction false} ContinueAdvances(rs: seq<Found>, b: Regex, s: string, lo: nat, p: nat)
    requires lo <= |s| && Within(rs, lo, |s|) && Beyond(rs, p)
    ensures Beyond(Continue(rs, b, s, lo), p)
    decreases |rs|
  {
    hide Match;
    if rs != [] {
      ContinueAdvances(rs[1..], b, s, lo, p);
      assert Within(Match(b, s, rs[0].pos, rs[0].groups), rs[0].pos, |s|);
    }
  }

  lemma GroupFirst(n: nat, a: Regex, s: string, p: nat, g: map<nat, string>, x: Found)
    requires p <= x.pos <= |s| && First(Match(a, s, p, g), x)
    ensures First(Match(Group(n, a), s, p, g), Found(x.pos, x.groups[n := s[p..x.pos]]))
  {
  }

  /** A greedy repetition goes on as long as its body first matches, and is then first in the list. */
  lemma StarStep(a: Regex, s: string, p: nat, g: map<nat, string>, x: Found, y: Found)
    requires p < x.pos <= |s| && First(Match(a, s, p, g), x) && First(Match(Star(a), s, x.pos, x.groups), y)
    ensures First(Match(Star(a), s, p, g), y)
  {
  }

  lemma StarStops(a: Regex, s: string, p: nat, g: map<nat, string>)
    requires p <= |s| && Match(a, s, p, g) == []
    ensures Match(Star(a), s, p, g) == [Found(p, g)]
  {
  }

  predicate AllIn(s: string, p: nat, e: nat, f: char -> bool)
    requires p <= e <= |s|
  {
    forall i :: p <= i < e ==> f(s[i])
  }

  /** A run of characters of a class, up to the first that is not. */
  lemma {:induction false} RunFirst(f: char -> bool, s: string, p: nat, e: nat, g: map<nat, string>)
    requires p <= e <= |s| && AllIn(s, p, e, f) && (e < |s| ==> !f(s[e]))
    ensures First(Match(Star(One(f)), s, p, g), Found(e, g))
    decreases e - p
  {
    if p < e {
      RunFirst(f, s, p + 1, e, g);
      StarStep(One(f), s, p, g, Found(p + 1, g), Found(e, g));
    } else {
      StarStops(One(f), s, p, g);
    }
  }

  lemma OneMatch(f: char -> bool, s: string, p: nat, g: map<nat, string>)
    requires p <= |s|
    ensures Match(One(f), s, p, g) == if p < |s| && f(s[p]) then [Found(p + 1, g)] else []
  {
  }

  lemma LitMatch(c: char, s: string, p: nat, g: map<nat, string>)
    requires p <= |s|
    ensures Match(Lit(c), s, p, g) == if p < |s| && s[p] == c then [Found(p + 1, g)] else []
  {
  }

  lemma EmptyMatch(s: string, p: nat, g: map<nat, string>)
    requires p <= |s|
    ensures Match(Empty, s, p, g) == [Found(p, g)]
  {
  }

  lemma OrMatch(a: Regex, b: Regex, s: string, p: nat, g: map<nat, string>)
    requires p <= |s|
    ensures Match(Or(a, b), s, p, g) == Match(a, s, p, g) + Match(b, s, p, g)
  {
  }

  lemma OptMatch(c: char, s: string, p: nat, g: map<nat, string>)
    requires p <= |s|
    ensures Match(Opt(Lit(c)), s, p, g) == if p < |s| && s[p] == c then [Found(p + 1, g), Found(p, g)] else [Found(p, g)]
  {
    OrMatch(Lit(c), Empty, s, p, g);
    LitMatch(c, s, p, g);
    EmptyMatch(s, p, g);
    hide Match;
  }

  /** An optional character before something that matches neither behind it nor without it. */
  lemma OptFails(c: char, b: Regex, s: string, p: nat, g: map<nat, string>)
    requires p <= |s| && Match(b, s, p, g) == [] && (p < |s| && s[p] == c ==> Match(b, s, p + 1, g) == [])
    ensures Match(Cat(Opt(Lit(c)), b), s, p, g) == []
  {
    hide Match;
    OptMatch(c, s, p, g);
    CatMatch(Opt(Lit(c)), b, s, p, g);
    NoneContinues(Match(Opt(Lit(c)), s, p, g), b, s, p);
  }

  lemma CatMatch(a: Regex, b: Regex, s: string, p: nat, g: map<nat, string>)
    requires p <= |s|
    ensures Match(Cat(a, b), s, p, g) == Continue(Match(a, s, p, g), b, s, p)
  {
  }

  lemma CatFails(a: Regex, b: Regex, s: string, p: nat, g: map<nat, string>)
    requires p <= |s| && Match(a, s, p, g) == []
    ensures Match(Cat(a, b), s, p, g) == []
  {
  }

  lemma GroupMatch(n: nat, a: Regex, s: string, p: nat, g: map<nat, string>)
    requires p <= |s|
    ensures Match(Group(n, a), s, p, g) == Captured(Match(a, s, p, g), n, s, p)
  {
  }

  lemma GroupFails(n: nat, a: Regex, s: string, p: nat, g: map<nat, string>)
    requires p <= |s| && Match(a, s, p, g) == []
    ensures Match(Group(n, a), s, p, g) == []
  {
  }
}
