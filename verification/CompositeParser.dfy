/**
 The tokenizer of composite values (psycopg2, extras.py, `CompositeCaster.tokenize`), with its regular
 expressions, proved to undo PostgreSQL's composite output (section 8.16.6 of its manual).
 */
module CompositeParser {
  import opened Wrappers
  import opened Regex

  // ---------- the source's expressions ----------

  const Delimiter: char -> bool := c => c == ',' || c == ')'
  const NotQuote: char -> bool := c => c != '"'
  const Plain: char -> bool := c => c != '"' && c != ',' && c != ')'

  function NullToken(): Regex { Cat(Opt(Lit('(')), Group(1, One(Delimiter))) }

  function QuotedBody(): Regex { Or(One(NotQuote), Cat(Lit('"'), Lit('"'))) }

  function QuotedToken(): Regex {
    Cat(Opt(Lit('(')), Cat(Lit('"'), Cat(Group(2, Star(QuotedBody())), Cat(Lit('"'), One(Delimiter)))))
  }

  function PlainToken(): Regex { Cat(Opt(Lit('(')), Cat(Group(3, Plus(One(Plain))), One(Delimiter))) }

  function Tokenizer(): Regex { Or(NullToken(), Or(QuotedToken(), PlainToken())) }

  /** A character behind itself, written out for the two that can be. */
  function Doubled(): Regex { Or(Cat(Group(1, Lit('"')), Lit('"')), Cat(Group(1, Lit('\\')), Lit('\\'))) }

  function Undouble(s: string): string { Substitute(Doubled(), 1, s, 0) }

  function TokenOf(h: Hit): Option<string> {
    if 1 in h.groups then None
    else if 2 in h.groups then Some(Undouble(h.groups[2]))
    else if 3 in h.groups then Some(h.groups[3])
    else None
  }

  function TokensOf(hs: seq<Hit>): seq<Option<string>> { if hs == [] then [] else [TokenOf(hs[0])] + TokensOf(hs[1..]) }

  function Tokens(s: string): seq<Option<string>> { TokensOf(FindAll(Tokenizer(), s, 0)) }

  method Tokenize(s: string) returns (rv: seq<Option<string>>)
    ensures rv == Tokens(s)
  {
    hide FindAll, Undouble;
    rv := [];
    var hits := FindAll(Tokenizer(), s, 0);
    for i := 0 to |hits|
      invariant TokensOf(hits) == rv + TokensOf(hits[i..])
    {
      var m := hits[i];
      TokensStep(hits, i, rv);
      if 1 in m.groups {
        rv := rv + [None];
      } else if 2 in m.groups {
        rv := rv + [Some(Undouble(m.groups[2]))];
      } else {
        rv := rv + [if 3 in m.groups then Some(m.groups[3]) else None];
      }
    }
  }

  lemma TokensStep(hits: seq<Hit>, i: nat, rv: seq<Option<string>>)
    requires i < |hits|
    ensures rv + TokensOf(hits[i..]) == (rv + [TokenOf(hits[i])]) + TokensOf(hits[i + 1..])
  {
    assert hits[i..][1..] == hits[i + 1..];
  }

  // ---------- PostgreSQL's output ----------

  predicate Special(c: char) { c == '"' || c == '\\' }

  /** Embedded quotes and backslashes are doubled. */
  function Double(v: string): string {
    if v == "" then "" else (if Special(v[0]) then [v[0], v[0]] else [v[0]]) + Double(v[1..])
  }

  /** Empty strings and these characters must be quoted; white space is too, but need not be. */
  predicate MustQuote(v: string) {
    v == "" || exists i :: 0 <= i < |v| && v[i] in {'(', ')', ',', '"', '\\'}
  }

  datatype Field = Null | Unquoted(v: string) | Quoted(v: string)

  predicate Printable(f: Field) { f.Unquoted? ==> !MustQuote(f.v) }

  function Value(f: Field): Option<string> { if f.Null? then None else Some(f.v) }

  function PrintField(f: Field): string {
    match f
    case Null => ""
    case Unquoted(v) => v
    case Quoted(v) => "\"" + Double(v) + "\""
  }

  function PrintFields(fs: seq<Field>): string {
    if fs == [] then ")"
    else if |fs| == 1 then PrintField(fs[0]) + ")"
    else PrintField(fs[0]) + "," + PrintFields(fs[1..])
  }

  function Print(fs: seq<Field>): string { "(" + PrintFields(fs) }

  function Values(fs: seq<Field>): seq<Option<string>> { seq(|fs|, i requires 0 <= i < |fs| => Value(fs[i])) }

  // ---------- undoubling ----------

  /** One of the two alternatives. */
  lemma TwiceAt(c: char, s: string, p: nat)
    requires p < |s|
    ensures s[p] != c ==> Match(Cat(Group(1, Lit(c)), Lit(c)), s, p, map[]) == []
    ensures s[p] == c && p + 1 < |s| && s[p + 1] == c ==>
              First(Match(Cat(Group(1, Lit(c)), Lit(c)), s, p, map[]), Found(p + 2, map[1 := [c]]))
  {
    hide Match;
    LitMatch(c, s, p, map[]);
    if s[p] != c {
      GroupFails(1, Lit(c), s, p, map[]);
      CatFails(Group(1, Lit(c)), Lit(c), s, p, map[]);
    } else {
      var x := Found(p + 1, map[1 := [c]]);
      assert s[p..p + 1] == [c];
      GroupFirst(1, Lit(c), s, p, map[], Found(p + 1, map[]));
      LitMatch(c, s, p + 1, x.groups);
      if p + 1 < |s| && s[p + 1] == c { CatFirst(Group(1, Lit(c)), Lit(c), s, p, map[], x, Found(p + 2, x.groups)); }
    }
  }

  lemma DoubledAt(s: string, p: nat)
    requires p < |s|
    ensures Special(s[p]) && p + 1 < |s| && s[p + 1] == s[p] ==>
              First(Match(Doubled(), s, p, map[]), Found(p + 2, map[1 := [s[p]]]))
    ensures !Special(s[p]) ==> Match(Doubled(), s, p, map[]) == []
  {
    hide Match;
    TwiceAt('"', s, p);
    TwiceAt('\\', s, p);
    OrMatch(Cat(Group(1, Lit('"')), Lit('"')), Cat(Group(1, Lit('\\')), Lit('\\')), s, p, map[]);
  }

  /** Every hit is two characters long. */
  lemma {:induction false} DoubledAdvances(s: string, p: nat)
    requires p <= |s|
    ensures FindNext(Doubled(), s, p).Some? ==> FindNext(Doubled(), s, p).value.end > p
    decreases |s| - p
  {
    TwoLong(s, p);
    hide Match;
    if p < |s| { DoubledAdvances(s, p + 1); }
  }

  lemma TwoLong(s: string, p: nat)
    requires p <= |s|
    ensures Beyond(Match(Doubled(), s, p, map[]), p)
  {
    hide Match;
    var a, b := Cat(Group(1, Lit('"')), Lit('"')), Cat(Group(1, Lit('\\')), Lit('\\'));
    OrMatch(a, b, s, p, map[]);
    StartsWithOne('"', s, p);
    StartsWithOne('\\', s, p);
  }

  lemma StartsWithOne(c: char, s: string, p: nat)
    requires p <= |s|
    ensures Beyond(Match(Cat(Group(1, Lit(c)), Lit(c)), s, p, map[]), p)
  {
    hide Match;
    LitMatch(c, s, p, map[]);
    CatMatch(Group(1, Lit(c)), Lit(c), s, p, map[]);
    GroupMatch(1, Lit(c), s, p, map[]);
    ContinueAdvances(Match(Group(1, Lit(c)), s, p, map[]), Lit(c), s, p, p);
  }

  lemma {:induction false} UndoubleFrom(s: string, p: nat, v: string)
    requires p <= |s| && s[p..] == Double(v)
    ensures Substitute(Doubled(), 1, s, p) == v
    decreases |v|
  {
    hide Substitute, Doubled;
    if v == "" {
      NothingLeft(s, p);
    } else {
      var n := if Special(v[0]) then 2 else 1;
      assert s[p] == v[0] && s[p..][n..] == s[p + n..];
      assert Double(v)[n..] == Double(v[1..]);
      UndoubleFrom(s, p + n, v[1..]);
      DoubledAt(s, p);
      if Special(v[0]) {
        assert s[p + 1] == Double(v)[1];
        SubstituteHit(Doubled(), 1, s, p, Found(p + 2, map[1 := [s[p]]]));
      } else {
        DoubledAdvances(s, p + 1);
        SubstituteMiss(Doubled(), 1, s, p);
      }
      assert v == [v[0]] + v[1..];
    }
  }

  lemma NothingLeft(s: string, p: nat)
    requires p == |s|
    ensures Substitute(Doubled(), 1, s, p) == ""
  {
  }

  // ---------- tokens at the fields ----------

  /** An opening parenthesis stands before the first field only. */
  function At(s: string, p: nat, atStart: bool): nat { if atStart then p + 1 else p }

  predicate Opening(s: string, p: nat, atStart: bool)
    requires p <= |s|
  {
    At(s, p, atStart) < |s| && (atStart <==> s[p] == '(')
  }

  /** The optional parenthesis is taken when it is there. */
  lemma OpenThen(b: Regex, s: string, p: nat, atStart: bool, x: Found)
    requires p <= |s| && Opening(s, p, atStart) && First(Match(b, s, At(s, p, atStart), map[]), x)
    ensures First(Match(Cat(Opt(Lit('(')), b), s, p, map[]), x)
  {
    OptMatch('(', s, p, map[]);
    hide Match;
    CatFirst(Opt(Lit('(')), b, s, p, map[], Found(At(s, p, atStart), map[]), x);
  }

  lemma NullAt(s: string, p: nat, atStart: bool)
    requires p <= |s| && Opening(s, p, atStart)
    ensures var q := At(s, p, atStart);
      if Delimiter(s[q]) then First(Match(NullToken(), s, p, map[]), Found(q + 1, map[1 := [s[q]]]))
      else Match(NullToken(), s, p, map[]) == []
  {
    hide Match;
    var q, b := At(s, p, atStart), Group(1, One(Delimiter));
    OneMatch(Delimiter, s, q, map[]);
    OneMatch(Delimiter, s, p, map[]);
    if Delimiter(s[q]) {
      assert s[q..q + 1] == [s[q]];
      GroupFirst(1, One(Delimiter), s, q, map[], Found(q + 1, map[]));
      OpenThen(b, s, p, atStart, Found(q + 1, map[1 := [s[q]]]));
    } else {
      GroupFails(1, One(Delimiter), s, q, map[]);
      GroupFails(1, One(Delimiter), s, p, map[]);
      OptFails('(', b, s, p, map[]);
    }
  }

  /** The body of a quoted field ends at the quote that is followed by no other. */
  lemma {:induction false} QuotedRun(s: string, p: nat, v: string, e: nat)
    requires p + |Double(v)| == e < |s| && s[p..e] == Double(v) && s[e] == '"' && (e + 1 < |s| ==> s[e + 1] != '"')
    ensures First(Match(Star(QuotedBody()), s, p, map[]), Found(e, map[]))
    decreases |v|
  {
    hide Match;
    if v == "" {
      LitMatch('"', s, e, map[]);
      LitMatch('"', s, e + 1, map[]);
      OneMatch(NotQuote, s, e, map[]);
      CatMatch(Lit('"'), Lit('"'), s, e, map[]);
      NoneContinues(Match(Lit('"'), s, e, map[]), Lit('"'), s, e);
      OrMatch(One(NotQuote), Cat(Lit('"'), Lit('"')), s, e, map[]);
      StarStops(QuotedBody(), s, e, map[]);
    } else {
      var n := if Special(v[0]) then 2 else 1;
      assert s[p] == s[p..e][0] == v[0];
      assert s[p..e][n..] == s[p + n..e] && Double(v)[n..] == Double(v[1..]);
      QuotedRun(s, p + n, v[1..], e);
      if v[0] == '"' {
        assert s[p + 1] == s[p..e][1] == '"';
        QuoteStep(s, p);
        StarStep(QuotedBody(), s, p, map[], Found(p + 2, map[]), Found(e, map[]));
      } else if v[0] == '\\' {
        assert s[p + 1] == s[p..e][1] == '\\';
        PlainStep(s, p);
        PlainStep(s, p + 1);
        StarStep(QuotedBody(), s, p + 1, map[], Found(p + 2, map[]), Found(e, map[]));
        StarStep(QuotedBody(), s, p, map[], Found(p + 1, map[]), Found(e, map[]));
      } else {
        PlainStep(s, p);
        StarStep(QuotedBody(), s, p, map[], Found(p + 1, map[]), Found(e, map[]));
      }
    }
  }

  lemma PlainStep(s: string, p: nat)
    requires p < |s| && s[p] != '"'
    ensures First(Match(QuotedBody(), s, p, map[]), Found(p + 1, map[]))
  {
    hide Match;
    OneMatch(NotQuote, s, p, map[]);
    OrFirst(One(NotQuote), Cat(Lit('"'), Lit('"')), s, p, map[], Found(p + 1, map[]));
  }

  lemma QuoteStep(s: string, p: nat)
    requires p + 1 < |s| && s[p] == '"' && s[p + 1] == '"'
    ensures First(Match(QuotedBody(), s, p, map[]), Found(p + 2, map[]))
  {
    hide Match;
    OneMatch(NotQuote, s, p, map[]);
    LitMatch('"', s, p, map[]);
    LitMatch('"', s, p + 1, map[]);
    CatFirst(Lit('"'), Lit('"'), s, p, map[], Found(p + 1, map[]), Found(p + 2, map[]));
    OrFirst(One(NotQuote), Cat(Lit('"'), Lit('"')), s, p, map[], Found(p + 2, map[]));
  }

  lemma QuotedAt(s: string, p: nat, atStart: bool, v: string)
    requires p <= |s| && Opening(s, p, atStart)
    requires var q := At(s, p, atStart); var e := q + 1 + |Double(v)|;
      s[q] == '"' && e + 1 < |s| && s[q + 1..e] == Double(v) && s[e] == '"' && Delimiter(s[e + 1])
    ensures First(Match(Tokenizer(), s, p, map[]), Found(At(s, p, atStart) + |Double(v)| + 3, map[2 := Double(v)]))
  {
    hide Match;
    var q := At(s, p, atStart);
    var e := q + 1 + |Double(v)|;
    NullAt(s, p, atStart);
    var g: map<nat, string> := map[2 := Double(v)];
    LitMatch('"', s, q, map[]);
    QuotedRun(s, q + 1, v, e);
    GroupFirst(2, Star(QuotedBody()), s, q + 1, map[], Found(e, map[]));
    LitMatch('"', s, e, g);
    OneMatch(Delimiter, s, e + 1, g);
    var closing := Cat(Lit('"'), One(Delimiter));
    CatFirst(Lit('"'), One(Delimiter), s, e, g, Found(e + 1, g), Found(e + 2, g));
    CatFirst(Group(2, Star(QuotedBody())), closing, s, q + 1, map[], Found(e, g), Found(e + 2, g));
    CatFirst(Lit('"'), Cat(Group(2, Star(QuotedBody())), closing), s, q, map[], Found(q + 1, map[]), Found(e + 2, g));
    OpenThen(Cat(Lit('"'), Cat(Group(2, Star(QuotedBody())), closing)), s, p, atStart, Found(e + 2, g));
    OrFirst(QuotedToken(), PlainToken(), s, p, map[], Found(e + 2, g));
    OrFirst(NullToken(), Or(QuotedToken(), PlainToken()), s, p, map[], Found(e + 2, g));
  }

  lemma NoQuoteAt(s: string, p: nat, atStart: bool)
    requires p <= |s| && Opening(s, p, atStart) && s[At(s, p, atStart)] != '"'
    ensures Match(QuotedToken(), s, p, map[]) == []
  {
    hide Match;
    var q, b := At(s, p, atStart), Cat(Group(2, Star(QuotedBody())), Cat(Lit('"'), One(Delimiter)));
    LitMatch('"', s, q, map[]);
    LitMatch('"', s, p, map[]);
    CatFails(Lit('"'), b, s, q, map[]);
    if atStart { CatFails(Lit('"'), b, s, p, map[]); }
    OptFails('(', Cat(Lit('"'), b), s, p, map[]);
  }

  lemma PlainAt(s: string, p: nat, atStart: bool, v: string)
    requires p <= |s| && Opening(s, p, atStart) && !MustQuote(v)
    requires var q := At(s, p, atStart); var e := q + |v|;
      e < |s| && s[q..e] == v && Delimiter(s[e])
    ensures First(Match(Tokenizer(), s, p, map[]), Found(At(s, p, atStart) + |v| + 1, map[3 := v]))
  {
    hide Match;
    var q := At(s, p, atStart);
    var e := q + |v|;
    var g: map<nat, string> := map[3 := v];
    forall i | q <= i < e ensures s[i] == v[i - q] && Plain(s[i]) { assert s[i] == s[q..e][i - q]; }
    NullAt(s, p, atStart);
    NoQuoteAt(s, p, atStart);
    OneMatch(Plain, s, q, map[]);
    RunFirst(Plain, s, q + 1, e, map[]);
    CatFirst(One(Plain), Star(One(Plain)), s, q, map[], Found(q + 1, map[]), Found(e, map[]));
    GroupFirst(3, Plus(One(Plain)), s, q, map[], Found(e, map[]));
    OneMatch(Delimiter, s, e, g);
    CatFirst(Group(3, Plus(One(Plain))), One(Delimiter), s, q, map[], Found(e, g), Found(e + 1, g));
    OpenThen(Cat(Group(3, Plus(One(Plain))), One(Delimiter)), s, p, atStart, Found(e + 1, g));
    OrFirst(QuotedToken(), PlainToken(), s, p, map[], Found(e + 1, g));
    OrFirst(NullToken(), Or(QuotedToken(), PlainToken()), s, p, map[], Found(e + 1, g));
  }

  // ---------- main theorem ----------

  /** The token of one printed field, wherever it stands. */
  lemma FieldIsFound(s: string, p: nat, atStart: bool, f: Field) returns (h: Hit)
    requires p <= |s| && Opening(s, p, atStart) && Printable(f)
    requires var q := At(s, p, atStart); var e := q + |PrintField(f)|;
      e < |s| && s[q..e] == PrintField(f) && Delimiter(s[e])
    ensures h.end == At(s, p, atStart) + |PrintField(f)| + 1 && TokenOf(h) == Value(f)
    ensures FindAll(Tokenizer(), s, p) == [h] + FindAll(Tokenizer(), s, h.end)
  {
    hide Match, FindAll, Tokenizer;
    var q := At(s, p, atStart);
    var e := q + |PrintField(f)|;
    var x: Found;
    match f {
      case Null =>
        x := Found(q + 1, map[1 := [s[q]]]);
        NullAt(s, p, atStart);
        NullFirst(s, p, x);
      case Unquoted(v) =>
        x := Found(e + 1, map[3 := v]);
        PlainAt(s, p, atStart, v);
      case Quoted(v) =>
        x := Found(e + 1, map[2 := Double(v)]);
        QuotedFieldAt(s, p, atStart, v);
        UndoubleFrom(Double(v), 0, v);
    }
    hide At, Opening, PrintField;
    FindAllHere(Tokenizer(), s, p, x);
    h := Hit(p, x.pos, x.groups);
  }

  lemma QuotedFieldAt(s: string, p: nat, atStart: bool, v: string)
    requires p <= |s| && Opening(s, p, atStart)
    requires var q := At(s, p, atStart); var e := q + |PrintField(Quoted(v))|;
      e < |s| && s[q..e] == PrintField(Quoted(v)) && Delimiter(s[e])
    ensures First(Match(Tokenizer(), s, p, map[]), Found(At(s, p, atStart) + |Double(v)| + 3, map[2 := Double(v)]))
  {
    hide Match, Tokenizer, Double;
    var q, text := At(s, p, atStart), PrintField(Quoted(v));
    var e := q + |text|;
    assert s[q] == s[q..e][0] && s[e - 1] == s[q..e][|text| - 1];
    assert s[q + 1..e - 1] == s[q..e][1..|text| - 1] == Double(v);
    QuotedAt(s, p, atStart, v);
  }

  lemma NullFirst(s: string, p: nat, x: Found)
    requires p <= |s| && First(Match(NullToken(), s, p, map[]), x)
    ensures First(Match(Tokenizer(), s, p, map[]), x)
  {
    hide Match;
    OrFirst(NullToken(), Or(QuotedToken(), PlainToken()), s, p, map[], x);
  }

  lemma Slices(s: string, p: nat, opening: string, text: string, d: char, tail: string)
    requires p <= |s| && s[p..] == opening + text + [d] + tail
    ensures var q := p + |opening|; var e := q + |text|;
      e < |s| && s[p..q] == opening && s[q..e] == text && s[e] == d && s[e + 1..] == tail
  {
    var t, a, b := s[p..], |opening|, |opening| + |text|;
    assert s[p..p + a] == t[..a] && s[p + a..p + b] == t[a..b] && s[p + b] == t[b] && s[p + b + 1..] == t[b + 1..];
    assert t[..a] == opening && t[a..b] == text && t[b] == d && t[b + 1..] == tail;
  }

  /** Where the text of the first field stands, and what is behind it. */
  lemma FirstField(s: string, p: nat, atStart: bool, fs: seq<Field>)
    requires p <= |s| && fs != [] && Printable(fs[0])
    requires s[p..] == (if atStart then "(" else "") + PrintFields(fs)
    ensures var q := At(s, p, atStart); var e := q + |PrintField(fs[0])|;
      && e < |s| && s[q..e] == PrintField(fs[0]) && Delimiter(s[e]) && Opening(s, p, atStart)
      && s[e + 1..] == if |fs| == 1 then "" else PrintFields(fs[1..])
  {
    hide PrintFields, PrintField, MustQuote;
    var opening, text := if atStart then "(" else "", PrintField(fs[0]);
    var tail := if |fs| == 1 then "" else PrintFields(fs[1..]);
    var d := if |fs| == 1 then ')' else ',';
    StartsPlain(fs[0]);
    Assemble(opening, fs, text, d, tail);
    Slices(s, p, opening, text, d, tail);
    var q := p + |opening|;
    if text != "" { assert s[q] == s[q..q + |text|][0]; }
    if atStart { assert s[p] == s[p..q][0]; }
  }

  lemma Assemble(opening: string, fs: seq<Field>, text: string, d: char, tail: string)
    requires fs != [] && text == PrintField(fs[0]) && tail == (if |fs| == 1 then "" else PrintFields(fs[1..]))
    requires d == if |fs| == 1 then ')' else ','
    ensures opening + PrintFields(fs) == opening + text + [d] + tail
  {
    hide PrintField;
    assert PrintFields(fs) == text + [d] + tail;
    hide PrintFields;
    assert opening + (text + [d] + tail) == opening + text + [d] + tail;
  }

  lemma TokensCons(h: Hit, rest: seq<Hit>)
    ensures TokensOf([h] + rest) == [TokenOf(h)] + TokensOf(rest)
  {
    assert ([h] + rest)[1..] == rest;
  }

  lemma ValuesCons(fs: seq<Field>)
    requires fs != []
    ensures Values(fs) == [Value(fs[0])] + Values(fs[1..])
  {
  }

  lemma {:induction false} FieldsAreFound(s: string, p: nat, atStart: bool, fs: seq<Field>)
    requires p <= |s| && fs != [] && (forall i :: 0 <= i < |fs| ==> Printable(fs[i]))
    requires s[p..] == (if atStart then "(" else "") + PrintFields(fs)
    ensures TokensOf(FindAll(Tokenizer(), s, p)) == Values(fs)
    decreases |fs|
  {
    hide FindAll, Tokenizer, TokenOf, TokensOf, PrintFields, PrintField, Values, Value;
    FirstField(s, p, atStart, fs);
    ValuesCons(fs);
    var h := FieldIsFound(s, p, atStart, fs[0]);
    TokensCons(h, FindAll(Tokenizer(), s, h.end));
    if |fs| == 1 { LastToken(s, h.end, fs); } else { FieldsAreFound(s, h.end, false, fs[1..]); }
  }

  lemma LastToken(s: string, p: nat, fs: seq<Field>)
    requires p == |s| && |fs| == 1
    ensures TokensOf(FindAll(Tokenizer(), s, p)) == [] == Values(fs[1..])
  {
    NothingIsFound(s, p);
    hide FindAll;
  }

  lemma NothingIsFound(s: string, p: nat)
    requires p == |s|
    ensures FindAll(Tokenizer(), s, p) == []
  {
    hide Match;
    var b := Cat(Group(2, Star(QuotedBody())), Cat(Lit('"'), One(Delimiter)));
    OneMatch(Delimiter, s, p, map[]);
    GroupFails(1, One(Delimiter), s, p, map[]);
    OptFails('(', Group(1, One(Delimiter)), s, p, map[]);
    LitMatch('"', s, p, map[]);
    CatFails(Lit('"'), b, s, p, map[]);
    OptFails('(', Cat(Lit('"'), b), s, p, map[]);
    OneMatch(Plain, s, p, map[]);
    CatFails(One(Plain), Star(One(Plain)), s, p, map[]);
    GroupFails(3, Plus(One(Plain)), s, p, map[]);
    CatFails(Group(3, Plus(One(Plain))), One(Delimiter), s, p, map[]);
    OptFails('(', Cat(Group(3, Plus(One(Plain))), One(Delimiter)), s, p, map[]);
    OrMatch(QuotedToken(), PlainToken(), s, p, map[]);
    OrMatch(NullToken(), Or(QuotedToken(), PlainToken()), s, p, map[]);
  }

  /** No field begins with a parenthesis. */
  lemma StartsPlain(f: Field)
    requires Printable(f)
    ensures PrintField(f) == "" || PrintField(f)[0] != '('
  {
  }

  /**
   For every row with at least one column, whatever the fields hold and whichever of them that need not be
   quoted are, tokenizing PostgreSQL's output gives back exactly the fields.
   */
  lemma TokenizeUndoesPrint(fs: seq<Field>)
    requires fs != [] && (forall i :: 0 <= i < |fs| ==> Printable(fs[i]))
    ensures Tokens(Print(fs)) == Values(fs)
  {
    hide FindAll, Tokenizer;
    var s := Print(fs);
    assert s[0..] == s;
    FieldsAreFound(s, 0, true, fs);
  }

  /** A row without columns is printed like one with a single NULL, and read as that: the one case left. */
  lemma EmptyRowIsReadAsNull()
    ensures Print([]) == Print([Null]) && Tokens(Print([])) == [None] != Values([])
  {
    hide FindAll, Tokenizer;
    TokenizeUndoesPrint([Null]);
    assert Values([Null]) == [None];
  }

  /** The round trip holds exactly for the rows that have a column. */
  lemma TokenizeUndoesPrintIffColumns(fs: seq<Field>)
    requires forall i :: 0 <= i < |fs| ==> Printable(fs[i])
    ensures Tokens(Print(fs)) == Values(fs) <==> fs != []
  {
    hide Tokens;
    if fs != [] { TokenizeUndoesPrint(fs); } else { EmptyRowIsReadAsNull(); }
  }
}
