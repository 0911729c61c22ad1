/**
 `execute_values` (psycopg2, extras.py): the query is split on its placeholder, the arguments are cut into
 pages, and one statement is run for each page. Bytes are modelled as characters.
 */
module ValuesPager {
  import opened Wrappers
  import opened Regex

  // ---------- _split_sql ----------

  const NotNewline: char -> bool := c => c != '\n'

  function Format(): Regex { Group(1, Cat(Lit('%'), One(NotNewline))) }

  /** `re.split` with one group: the texts between the hits, from q on, and the hits from p on. */
  function Split(s: string, q: nat, p: nat): seq<string>
    requires q <= p <= |s|
    decreases |s| - p
  {
    match FindNext(Format(), s, p)
    case None => [s[q..]]
    case Some(h) =>
      if h.end > p then [s[q..h.start], if 1 in h.groups then h.groups[1] else ""] + Split(s, h.end, h.end) else [s[q..]]
  }

  datatype Error = NoPlaceholder | ManyPlaceholders | UnsupportedFormat

  type Snippets = (seq<string>, seq<string>)

  /** The loop over the tokens; `found` says that the placeholder has been met. */
  function Sort(tokens: seq<string>, pre: seq<string>, post: seq<string>, found: bool): Result<Snippets, Error>
    decreases |tokens|, 0
  {
    if tokens == [] then if found then Ok((pre, post)) else Err(NoPlaceholder)
    else
      var t := tokens[0];
      if |t| != 2 || t[0] != '%' then Put(tokens[1..], t, pre, post, found)
      else if t[1] == 's' then if found then Err(ManyPlaceholders) else Sort(tokens[1..], pre, post, true)
      else if t[1] == '%' then Put(tokens[1..], "%", pre, post, found)
      else Err(UnsupportedFormat)
  }

  function Put(tokens: seq<string>, t: string, pre: seq<string>, post: seq<string>, found: bool): Result<Snippets, Error>
    decreases |tokens|, 1
  {
    if found then Sort(tokens, pre, post + [t], true) else Sort(tokens, pre + [t], post, false)
  }

  function SplitSql(sql: string): Result<Snippets, Error> { Sort(Split(sql, 0, 0), [], [], false) }

  method SplitSqlLoop(sql: string) returns (r: Result<Snippets, Error>)
    ensures r == SplitSql(sql)
  {
    hide Split;
    var pre: seq<string>, post: seq<string>, found := [], [], false;
    var tokens := Split(sql, 0, 0);
    assert tokens[0..] == tokens;
    for i := 0 to |tokens|
      invariant SplitSql(sql) == Sort(tokens[i..], pre, post, found)
    {
      var token := tokens[i];
      assert tokens[i..][0] == token && tokens[i..][1..] == tokens[i + 1..];
      if |token| != 2 || token[0] != '%' {
        if found { post := post + [token]; } else { pre := pre + [token]; }
      } else if token[1] == 's' {
        if found { return Err(ManyPlaceholders); }
        found := true;
      } else if token[1] == '%' {
        if found { post := post + ["%"]; } else { pre := pre + ["%"]; }
      } else {
        return Err(UnsupportedFormat);
      }
    }
    return if found then Ok((pre, post)) else Err(NoPlaceholder);
  }

  function Join(parts: seq<string>): string { if parts == [] then "" else parts[0] + Join(parts[1..]) }

  lemma {:induction false} JoinConcat(a: seq<string>, b: seq<string>)
    ensures Join(a + b) == Join(a) + Join(b)
    decreases |a|
  {
    if a == [] {
      assert a + b == b;
    } else {
      assert (a + b)[1..] == a[1..] + b;
      JoinConcat(a[1..], b);
    }
  }

  // ---------- queries ----------

  /** A query, read from left to right. A percent sign at the end or before a newline stands alone. */
  datatype Piece = Char(c: char) | LonePercent | Percent | Placeholder | Unsupported(c: char)

  function Write(p: Piece): string {
    match p
    case Char(c) => [c]
    case LonePercent => "%"
    case Percent => "%%"
    case Placeholder => "%s"
    case Unsupported(c) => ['%', c]
  }

  function Render(ps: seq<Piece>): string { if ps == [] then "" else Write(ps[0]) + Render(ps[1..]) }

  predicate IsLone(s: string)
    requires s != ""
  {
    s[0] == '%' && (|s| == 1 || s[1] == '\n')
  }

  function Pieces(s: string): seq<Piece> {
    if s == "" then []
    else if s[0] != '%' then [Char(s[0])] + Pieces(s[1..])
    else if IsLone(s) then [LonePercent] + Pieces(s[1..])
    else
      [if s[1] == 's' then Placeholder else if s[1] == '%' then Percent else Unsupported(s[1])] + Pieces(s[2..])
  }

  /** The pieces of a query are the query. */
  lemma {:induction false} PiecesRender(s: string)
    ensures Render(Pieces(s)) == s
    decreases |s|
  {
    if s != "" {
      if s[0] != '%' || IsLone(s) { PiecesRender(s[1..]); } else { PiecesRender(s[2..]); assert s == [s[0], s[1]] + s[2..]; }
    }
  }

  predicate IsFormat(p: Piece) { p.Percent? || p.Placeholder? || p.Unsupported? }

  /** The one text that the loop takes for a format: two characters, the first a percent sign. */
  const BARE := "%\n"

  /** The texts between the formats; `text` is what has been read of the first. */
  function Texts(ps: seq<Piece>, text: string): seq<string>
    decreases |ps|
  {
    if ps == [] then [text]
    else if IsFormat(ps[0]) then [text] + Texts(ps[1..], "")
    else Texts(ps[1..], text + Write(ps[0]))
  }

  function Placeholders(ps: seq<Piece>): nat {
    if ps == [] then 0 else (if ps[0].Placeholder? then 1 else 0) + Placeholders(ps[1..])
  }

  predicate Supported(ps: seq<Piece>) { forall i :: 0 <= i < |ps| ==> !ps[i].Unsupported? }

  function Unit(p: Piece): string {
    match p
    case Char(c) => [c]
    case LonePercent => "%"
    case Percent => "%"
    case Placeholder => ""
    case Unsupported(_) => ""
  }

  function Unescaped(ps: seq<Piece>): string { if ps == [] then "" else Unit(ps[0]) + Unescaped(ps[1..]) }

  /** The unescaped texts before and behind the first placeholder. */
  function Before(ps: seq<Piece>): string {
    if ps == [] || ps[0].Placeholder? then "" else Unit(ps[0]) + Before(ps[1..])
  }

  function Behind(ps: seq<Piece>): string {
    if ps == [] then "" else if ps[0].Placeholder? then Unescaped(ps[1..]) else Behind(ps[1..])
  }

  /** One placeholder, no unsupported format, and no text between formats that looks like one. */
  predicate Splittable(ps: seq<Piece>) { Placeholders(ps) == 1 && Supported(ps) && BARE !in Texts(ps, "") }

  // ---------- the loop, piece by piece ----------

  /** What the loop makes of the pieces: `text` is pending, `before` and `behind` are what has been put to either side. */
  function Read(ps: seq<Piece>, text: string, before: string, behind: string, found: bool): Result<(string, string), Error>
    decreases |ps|
  {
    if ps != [] && !IsFormat(ps[0]) then Read(ps[1..], text + Write(ps[0]), before, behind, found)
    else if text == BARE then Err(UnsupportedFormat)
    else
      var b, h := if found then before else before + text, if found then behind + text else behind;
      if ps == [] then if found then Ok((b, h)) else Err(NoPlaceholder)
      else match ps[0]
        case Placeholder => if found then Err(ManyPlaceholders) else Read(ps[1..], "", b, h, true)
        case Percent => Read(ps[1..], "", if found then b else b + "%", if found then h + "%" else h, found)
        case _ => Err(UnsupportedFormat)
  }

  function Joined(r: Result<Snippets, Error>): Result<(string, string), Error> {
    match r
    case Ok(v) => Ok((Join(v.0), Join(v.1)))
    case Err(e) => Err(e)
  }

  lemma FormatAt(s: string, p: nat)
    requires p < |s|
    ensures s[p] != '%' || IsLone(s[p..]) ==> Match(Format(), s, p, map[]) == []
    ensures s[p] == '%' && p + 1 < |s| && s[p + 1] != '\n' ==>
              First(Match(Format(), s, p, map[]), Found(p + 2, map[1 := s[p..p + 2]]))
  {
    hide Match;
    LitMatch('%', s, p, map[]);
    if s[p] != '%' {
      CatFails(Lit('%'), One(NotNewline), s, p, map[]);
      GroupFails(1, Cat(Lit('%'), One(NotNewline)), s, p, map[]);
    } else if p + 1 == |s| || s[p + 1] == '\n' {
      OneMatch(NotNewline, s, p + 1, map[]);
      CatMatch(Lit('%'), One(NotNewline), s, p, map[]);
      NoneContinues(Match(Lit('%'), s, p, map[]), One(NotNewline), s, p);
      GroupFails(1, Cat(Lit('%'), One(NotNewline)), s, p, map[]);
    } else {
      OneMatch(NotNewline, s, p + 1, map[]);
      CatFirst(Lit('%'), One(NotNewline), s, p, map[], Found(p + 1, map[]), Found(p + 2, map[]));
      GroupFirst(1, Cat(Lit('%'), One(NotNewline)), s, p, map[], Found(p + 2, map[]));
    }
  }

  lemma {:induction false} FormatAdvances(s: string, p: nat)
    requires p <= |s|
    ensures FindNext(Format(), s, p).Some? ==> FindNext(Format(), s, p).value.end > p
    decreases |s| - p
  {
    hide Match;
    LitMatch('%', s, p, map[]);
    CatMatch(Lit('%'), One(NotNewline), s, p, map[]);
    GroupMatch(1, Cat(Lit('%'), One(NotNewline)), s, p, map[]);
    ContinueAdvances(Match(Lit('%'), s, p, map[]), One(NotNewline), s, p, p);
    if p < |s| { FormatAdvances(s, p + 1); }
  }

  lemma SplitLater(s: string, q: nat, p: nat)
    requires q <= p < |s| && (s[p] != '%' || IsLone(s[p..]))
    ensures Split(s, q, p) == Split(s, q, p + 1)
  {
    FormatAt(s, p);
    FindLater(Format(), s, p);
    FormatAdvances(s, p + 1);
    hide Match, FindNext;
  }

  lemma SplitHere(s: string, q: nat, p: nat)
    requires q <= p && p + 1 < |s| && s[p] == '%' && s[p + 1] != '\n'
    ensures Split(s, q, p) == [s[q..p], s[p..p + 2]] + Split(s, p + 2, p + 2)
  {
    FormatAt(s, p);
    FindHere(Format(), s, p, Found(p + 2, map[1 := s[p..p + 2]]));
    hide Match, FindNext;
  }

  lemma SplitEnd(s: string, q: nat)
    requires q <= |s|
    ensures Split(s, q, |s|) == [s[q..]]
  {
  }

  /** Every percent sign of the text stands alone in `s`. */
  predicate Loose(s: string, q: nat, p: nat)
    requires q <= p <= |s|
  {
    forall i :: q <= i < p ==> s[i] != '%' || IsLone(s[i..])
  }

  lemma JoinSnoc(a: seq<string>, t: string)
    ensures Join(a + [t]) == Join(a) + t
  {
    JoinConcat(a, [t]);
    assert Join([t]) == t + Join([][..]) == t;
  }

  /** A text between the hits goes where the loop stands, unless it looks like a format. */
  lemma TextGoes(s: string, q: nat, p: nat, tokens: seq<string>, pre: seq<string>, post: seq<string>, found: bool)
    requires q <= p <= |s| && Loose(s, q, p)
    ensures var t := s[q..p];
      Sort([t] + tokens, pre, post, found) ==
        if t == BARE then Err(UnsupportedFormat)
        else if found then Sort(tokens, pre, post + [t], true) else Sort(tokens, pre + [t], post, false)
  {
    var t := s[q..p];
    assert ([t] + tokens)[1..] == tokens;
    if |t| == 2 && t[0] == '%' {
      assert t[0] == s[q] && t[1] == s[q + 1] && s[q..][1] == s[q + 1];
      assert IsLone(s[q..]);
      assert t == ['%', '\n'] == BARE;
    }
  }

  lemma FormatGoes(w: string, tokens: seq<string>, pre: seq<string>, post: seq<string>, found: bool)
    requires |w| == 2 && w[0] == '%'
    ensures Sort([w] + tokens, pre, post, found) ==
      if w[1] == 's' then if found then Err(ManyPlaceholders) else Sort(tokens, pre, post, true)
      else if w[1] == '%' then if found then Sort(tokens, pre, post + ["%"], true) else Sort(tokens, pre + ["%"], post, false)
      else Err(UnsupportedFormat)
  {
    assert ([w] + tokens)[1..] == tokens;
  }

  /** The pending text s[q..p] is loose; what follows are the pieces of the rest. */
  lemma {:induction false} SortReads(s: string, q: nat, p: nat, pre: seq<string>, post: seq<string>, found: bool)
    requires q <= p <= |s| && Loose(s, q, p)
    ensures Joined(Sort(Split(s, q, p), pre, post, found)) == Read(Pieces(s[p..]), s[q..p], Join(pre), Join(post), found)
    decreases |s| - p
  {
    hide Split, Sort, Join;
    if p == |s| {
      LastText(s, q, pre, post, found);
    } else if s[p] != '%' || IsLone(s[p..]) {
      SplitLater(s, q, p);
      assert s[p..][1..] == s[p + 1..] && s[q..p + 1] == s[q..p] + [s[p]];
      SortReads(s, q, p + 1, pre, post, found);
      var ps := Pieces(s[p..]);
      assert Write(ps[0]) == [s[p]] && ps[1..] == Pieces(s[p + 1..]);
    } else {
      FormatReads(s, q, p, pre, post, found);
    }
  }

  lemma LastText(s: string, q: nat, pre: seq<string>, post: seq<string>, found: bool)
    requires q <= |s| && Loose(s, q, |s|)
    ensures Joined(Sort(Split(s, q, |s|), pre, post, found)) == Read(Pieces(s[|s|..]), s[q..|s|], Join(pre), Join(post), found)
  {
    SplitEnd(s, q);
    assert s[q..] == s[q..|s|];
    TextGoes(s, q, |s|, [], pre, post, found);
    JoinSnoc(post, s[q..]);
    assert [s[q..]] + [] == [s[q..]];
    hide Split;
  }

  lemma FormatReads(s: string, q: nat, p: nat, pre: seq<string>, post: seq<string>, found: bool)
    requires q <= p < |s| && Loose(s, q, p) && s[p] == '%' && !IsLone(s[p..])
    ensures Joined(Sort(Split(s, q, p), pre, post, found)) == Read(Pieces(s[p..]), s[q..p], Join(pre), Join(post), found)
    decreases |s| - p, 0
  {
    hide Split, Sort, Join;
    var t, w, rest := s[q..p], s[p..p + 2], Split(s, p + 2, p + 2);
    SplitHere(s, q, p);
    assert [t, w] + rest == [t] + ([w] + rest);
    TextGoes(s, q, p, [w] + rest, pre, post, found);
    var pre', post' := if found then pre else pre + [t], if found then post + [t] else post;
    JoinSnoc(pre, t);
    JoinSnoc(post, t);
    FormatGoes(w, rest, pre', post', found);
    var ps := Pieces(s[p..]);
    assert s[p..][2..] == s[p + 2..] && s[p..][1] == s[p + 1];
    assert ps[1..] == Pieces(s[p + 2..]) && s[p + 2..p + 2] == "";
    if s[p + 1] == '%' {
      JoinSnoc(pre', "%");
      JoinSnoc(post', "%");
      SortReads(s, p + 2, p + 2, if found then pre' else pre' + ["%"], if found then post' + ["%"] else post', found);
    } else if s[p + 1] == 's' && !found {
      SortReads(s, p + 2, p + 2, pre', post', true);
    }
  }

  // ---------- what the pieces mean ----------

  lemma TextsHead(ps: seq<Piece>, text: string)
    requires ps != []
    ensures IsFormat(ps[0]) ==> (BARE in Texts(ps, text) <==> text == BARE || BARE in Texts(ps[1..], ""))
    ensures !IsFormat(ps[0]) ==> Texts(ps, text) == Texts(ps[1..], text + Write(ps[0]))
  {
  }

  lemma SupportedHead(ps: seq<Piece>)
    requires ps != []
    ensures Supported(ps) <==> !ps[0].Unsupported? && Supported(ps[1..])
  {
    if !ps[0].Unsupported? && Supported(ps[1..]) { assert ps == [ps[0]] + ps[1..]; }
  }

  lemma HeadMeans(ps: seq<Piece>)
    requires ps != []
    ensures Placeholders(ps) == (if ps[0].Placeholder? then 1 else 0) + Placeholders(ps[1..])
    ensures Unescaped(ps) == Unit(ps[0]) + Unescaped(ps[1..])
    ensures Before(ps) == if ps[0].Placeholder? then "" else Unit(ps[0]) + Before(ps[1..])
    ensures Behind(ps) == if ps[0].Placeholder? then Unescaped(ps[1..]) else Behind(ps[1..])
  {
  }

  /** Nothing pending or to come looks wrong, and the placeholders add up to one. */
  predicate Fine(ps: seq<Piece>, text: string, found: bool) {
    BARE !in Texts(ps, text) && Supported(ps) && Placeholders(ps) == (if found then 0 else 1)
  }

  function Sides(ps: seq<Piece>, text: string, before: string, behind: string, found: bool): (string, string) {
    if found then (before, behind + text + Unescaped(ps)) else (before + text + Before(ps), behind + Behind(ps))
  }

  lemma CharMeans(ps: seq<Piece>, text: string, before: string, behind: string, found: bool)
    requires ps != [] && !IsFormat(ps[0])
    ensures var t := text + Write(ps[0]);
      && (Fine(ps, text, found) <==> Fine(ps[1..], t, found))
      && Sides(ps, text, before, behind, found) == Sides(ps[1..], t, before, behind, found)
  {
    TextsHead(ps, text);
    SupportedHead(ps);
    HeadMeans(ps);
    hide Texts, Supported, Placeholders, Unescaped, Before, Behind;
    Shifted(behind, text, Unit(ps[0]), Unescaped(ps[1..]));
    Shifted(before, text, Unit(ps[0]), Before(ps[1..]));
  }

  lemma PercentMeans(ps: seq<Piece>, text: string, before: string, behind: string, found: bool)
    requires ps != [] && ps[0].Percent? && text != BARE
    ensures var b, h := if found then before else before + text + "%", if found then behind + text + "%" else behind;
      && (Fine(ps, text, found) <==> Fine(ps[1..], "", found))
      && Sides(ps, text, before, behind, found) == Sides(ps[1..], "", b, h, found)
  {
    TextsHead(ps, text);
    SupportedHead(ps);
    HeadMeans(ps);
    hide Texts, Supported, Placeholders, Unescaped, Before, Behind;
    Appended(behind, text, Unescaped(ps[1..]));
    Appended(before, text, Before(ps[1..]));
  }

  lemma PlaceholderMeans(ps: seq<Piece>, text: string, before: string, behind: string)
    requires ps != [] && ps[0].Placeholder? && text != BARE
    ensures Fine(ps, text, false) <==> Fine(ps[1..], "", true)
    ensures !Fine(ps, text, true)
    ensures Sides(ps, text, before, behind, false) == Sides(ps[1..], "", before + text, behind, true)
  {
    TextsHead(ps, text);
    SupportedHead(ps);
    HeadMeans(ps);
    hide Texts, Supported, Placeholders, Unescaped, Before, Behind;
    assert behind + "" + Unescaped(ps[1..]) == behind + Unescaped(ps[1..]) && before + text + "" == before + text;
  }

  lemma NotFine(ps: seq<Piece>, text: string, found: bool)
    requires ps != [] && (ps[0].Unsupported? || (IsFormat(ps[0]) && text == BARE))
    ensures !Fine(ps, text, found)
  {
    TextsHead(ps, text);
  }

  lemma NothingMeans(text: string, before: string, behind: string, found: bool)
    ensures Fine([], text, found) <==> found && text != BARE
    ensures Sides([], text, before, behind, true) == (before, behind + text)
  {
    assert behind + text + "" == behind + text;
  }

  /** Reading succeeds iff all is fine, and then puts the texts where they belong. */
  lemma {:induction false} ReadIff(ps: seq<Piece>, text: string, before: string, behind: string, found: bool)
    ensures var r := Read(ps, text, before, behind, found);
      && (r.Ok? <==> Fine(ps, text, found))
      && (r.Ok? ==> r.value == Sides(ps, text, before, behind, found))
    decreases |ps|
  {
    hide Fine, Sides;
    if ps == [] {
      NothingMeans(text, before, behind, found);
    } else if !IsFormat(ps[0]) {
      CharMeans(ps, text, before, behind, found);
      ReadIff(ps[1..], text + Write(ps[0]), before, behind, found);
    } else if text == BARE || ps[0].Unsupported? {
      NotFine(ps, text, found);
    } else if ps[0].Percent? {
      PercentMeans(ps, text, before, behind, found);
      ReadIff(ps[1..], "", if found then before else before + text + "%", if found then behind + text + "%" else behind, found);
    } else {
      PlaceholderMeans(ps, text, before, behind);
      if !found { ReadIff(ps[1..], "", before + text, behind, true); }
    }
  }

  lemma Shifted(x: string, text: string, u: string, rest: string)
    ensures x + (text + u) + rest == x + text + (u + rest)
  {
  }

  lemma Appended(x: string, text: string, rest: string)
    ensures x + text + "%" + "" + rest == x + text + ("%" + rest)
  {
  }

  /**
   For every query: the split succeeds if and only if there is exactly one placeholder, no unsupported format and
   no text between the formats that is a percent sign and a newline; the snippets of either side, joined, are
   then its unescaped text there.
   */
  lemma SplitMeans(sql: string)
    ensures var ps, r := Pieces(sql), Joined(SplitSql(sql));
      && (r.Ok? <==> Splittable(ps))
      && (r.Ok? ==> r.value == (Before(ps), Behind(ps)))
  {
    hide Split, Sort;
    assert sql[0..0] == "" && sql[0..] == sql;
    SortReads(sql, 0, 0, [], [], false);
    ReadIff(Pieces(sql), "", "", "", false);
    hide Read, Pieces, Placeholders, Supported, Texts;
    var ps := Pieces(sql);
    assert "" + "" + Before(ps) == Before(ps) && "" + Behind(ps) == Behind(ps);
    assert Join([]) == "";
  }

  lemma LoneTexts(x: seq<Piece>, text: string)
    requires x == [LonePercent, Char('\n')]
    ensures Texts(x, text) == [text + "%\n"]
  {
    TextsHead(x, text);
    assert x[1..] == [Char('\n')];
    TextsHead(x[1..], text + "%");
    assert x[1..][1..] == [] && text + "%" + "\n" == text + "%\n";
  }

  lemma RefusedPieces()
    ensures Pieces("%s%\n") == [Placeholder] + [LonePercent, Char('\n')]
    ensures Pieces("%s %\n") == [Placeholder] + ([Char(' ')] + [LonePercent, Char('\n')])
  {
    var a, b := "%s%\n", "%s %\n";
    assert a[2..] == "%\n" && a[2..][1..] == "\n" && b[2..] == " %\n" && b[2..][1..] == "%\n";
    assert Pieces("\n") == [Char('\n')];
    assert Pieces("%\n") == [LonePercent, Char('\n')];
  }

  lemma RefusedText(ps: seq<Piece>)
    requires ps == [Placeholder] + [LonePercent, Char('\n')]
    ensures BARE in Texts(ps, "")
  {
    var x := [LonePercent, Char('\n')];
    assert ps[1..] == x && "" + "%\n" == "%\n";
    LoneTexts(x, "");
    TextsHead(ps, "");
  }

  lemma AcceptedText(ps: seq<Piece>)
    requires ps == [Placeholder] + ([Char(' ')] + [LonePercent, Char('\n')])
    ensures Splittable(ps) && Before(ps) == "" && Behind(ps) == " %\n"
  {
    var x, y := [LonePercent, Char('\n')], [Char(' ')] + [LonePercent, Char('\n')];
    assert ps[1..] == y && y[1..] == x && x[1..] == [Char('\n')] && "" + " " == " " && " " + "%\n" == " %\n";
    LoneTexts(x, " ");
    TextsHead(y, "");
    TextsHead(ps, "");
    hide Texts;
    assert Unescaped(x) == "%\n" && Unescaped(y) == " %\n";
    assert Placeholders(x) == 0 && Placeholders(y) == 0;
  }

  /** A query with one placeholder that is refused, and one with a blank more that is not. */
  lemma BareNewlineIsRefused()
    ensures SplitSql("%s%\n").Err?
    ensures Joined(SplitSql("%s %\n")) == Ok(("", " %\n"))
  {
    hide SplitSql, Pieces, Texts, Placeholders, Supported, Before, Behind;
    RefusedPieces();
    RefusedText(Pieces("%s%\n"));
    AcceptedText(Pieces("%s %\n"));
    SplitMeans("%s%\n");
    SplitMeans("%s %\n");
  }

  // ---------- pages ----------

  function Pages<T>(args: seq<T>, n: nat): seq<seq<T>>
    requires n > 0
  {
    if args == [] then []
    else if |args| <= n then [args]
    else [args[..n]] + Pages(args[n..], n)
  }

  function Flatten<T>(pages: seq<seq<T>>): seq<T> { if pages == [] then [] else pages[0] + Flatten(pages[1..]) }

  /** The pages hold the arguments in order, each once; none is empty, and all but perhaps the last are full. */
  lemma {:induction false} PagesCoverOnce<T>(args: seq<T>, n: nat)
    requires n > 0
    ensures var pages := Pages(args, n);
      && Flatten(pages) == args
      && (forall i :: 0 <= i < |pages| ==> 0 < |pages[i]| <= n)
      && (forall i :: 0 <= i < |pages| - 1 ==> |pages[i]| == n)
    decreases |args|
  {
    if |args| > n {
      PagesCoverOnce(args[n..], n);
      assert args == args[..n] + args[n..];
    } else if args != [] {
      assert Flatten([args]) == args + Flatten([]);
    }
  }

  /** One resumption of the generator, from argument `at` on: the next page and where it then stands, or its end. */
  function NextPage<T>(args: seq<T>, at: nat, size: int): (r: Option<(seq<T>, nat)>)
    requires at <= |args|
    ensures r.Some? ==> at <= r.value.1 <= |args|
  {
    if size <= 0 then Some(([], at))
    else if at == |args| then None
    else if |args| - at <= size then Some((args[at..], |args|))
    else Some((args[at..at + size], at + size))
  }

  /** What k resumptions yield, and whether the generator has come to its end. */
  function Drawn<T>(args: seq<T>, at: nat, size: int, k: nat): (seq<seq<T>>, bool)
    requires at <= |args|
    decreases k
  {
    if k == 0 then ([], false)
    else match NextPage(args, at, size)
      case None => ([], true)
      case Some(next) =>
        var (more, ended) := Drawn(args, next.1, size, k - 1);
        ([next.0] + more, ended)
  }

  lemma {:induction false} EmptyForEver<T>(args: seq<T>, at: nat, size: int, k: nat)
    requires at <= |args| && size <= 0
    ensures !Drawn(args, at, size, k).1 && |Drawn(args, at, size, k).0| == k
    ensures forall i :: 0 <= i < k ==> Drawn(args, at, size, k).0[i] == []
    decreases k
  {
    if k > 0 { EmptyForEver(args, at, size, k - 1); }
  }

  lemma {:induction false} DrawnAre<T>(args: seq<T>, at: nat, size: nat, k: nat)
    requires at <= |args| && size > 0
    ensures Drawn(args, at, size, k).1 <==> k > |Pages(args[at..], size)|
    ensures Drawn(args, at, size, k).1 ==> Drawn(args, at, size, k).0 == Pages(args[at..], size)
    decreases k
  {
    if at < |args| && |args| - at > size {
      assert args[at..][..size] == args[at..at + size] && args[at..][size..] == args[at + size..];
      if k > 0 { DrawnAre(args, at + size, size, k - 1); }
    } else if at < |args| {
      assert args[|args|..] == [] && args[at..] != [];
      if k > 0 { DrawnAre(args, |args|, size, k - 1); }
    }
  }

  /** The generator comes to an end, having yielded the pages, if and only if the page size is at least 1. */
  lemma PaginationEndsIff<T>(args: seq<T>, size: int)
    ensures (exists k: nat :: Drawn(args, 0, size, k).1) <==> size >= 1
    ensures forall k: nat :: size >= 1 && Drawn(args, 0, size, k).1 ==> Drawn(args, 0, size, k).0 == Pages(args, size)
  {
    assert args[0..] == args;
    if size >= 1 {
      DrawnAre(args, 0, size, |Pages(args, size)| + 1);
      forall k: nat ensures Drawn(args, 0, size, k).1 ==> Drawn(args, 0, size, k).0 == Pages(args, size) { DrawnAre(args, 0, size, k); }
    } else {
      forall k: nat ensures !Drawn(args, 0, size, k).1 { EmptyForEver(args, 0, size, k); }
    }
  }

  /** The generator, its pages collected, when it comes to an end. */
  method Paginate<T>(args: seq<T>, pageSize: nat) returns (pages: seq<seq<T>>)
    requires pageSize > 0
    ensures pages == Pages(args, pageSize)
  {
    pages := [];
    var next := 0;
    while true
      invariant 0 <= next <= |args|
      invariant Pages(args, pageSize) == pages + Pages(args[next..], pageSize)
      decreases |args| - next
    {
      var page: seq<T> := [];
      ghost var first := next;
      for i := 0 to pageSize
        invariant next == first + i <= |args| && page == args[first..next]
      {
        if next == |args| {
          assert args[first..] == page;
          if page != [] { pages := pages + [page]; }
          return;
        }
        page := page + [args[next]];
        next := next + 1;
      }
      assert page == args[first..][..pageSize] && args[first..][pageSize..] == args[next..];
      if next == |args| { assert page == args[first..] && args[next..] == []; }
      pages := pages + [page];
    }
  }

  // ---------- execute_values ----------

  /** `mogrify` merges one row into the template, None if it raises; `width` is the number of a row's arguments. */
  datatype Database<!Row> = Database(mogrify: (string, Row) -> Option<string>, width: Row -> nat, accepts: string -> bool)

  function Commas(parts: seq<string>): string {
    if parts == [] then "" else if |parts| == 1 then parts[0] else parts[0] + "," + Commas(parts[1..])
  }

  /** The positional template for n arguments. */
  function DefaultTemplate(n: nat): string { "(" + Commas(seq(n, i => "%s")) + ")" }

  /** The template is sniffed once, from the first row of all. */
  function TemplateFor<Row>(db: Database<Row>, template: Option<string>, args: seq<Row>): string {
    if template.Some? then template.value else if args == [] then "" else DefaultTemplate(db.width(args[0]))
  }

  function Rows<Row>(db: Database<Row>, template: string, page: seq<Row>): Option<seq<string>> {
    if page == [] then Some([])
    else
      match db.mogrify(template, page[0])
      case None => None
      case Some(r) => match Rows(db, template, page[1..])
        case None => None
        case Some(rs) => Some([r] + rs)
  }

  /** One statement: the prefix, the rows with commas between them, the suffix. */
  function Statement<Row>(db: Database<Row>, template: string, pre: string, post: string, page: seq<Row>): Option<string> {
    match Rows(db, template, page)
    case None => None
    case Some(rows) => Some(pre + Commas(rows) + post)
  }

  datatype Outcome = Completed | BadQuery(error: Error) | MogrifyRaised | ExecuteRaised

  /** The statements run for the pages, up to the first that raises. */
  function Execution<Row>(db: Database<Row>, template: string, pre: string, post: string, pages: seq<seq<Row>>): (seq<string>, Outcome)
    decreases |pages|
  {
    if pages == [] then ([], Completed)
    else
      match Statement(db, template, pre, post, pages[0])
      case None => ([], MogrifyRaised)
      case Some(sql) =>
        if !db.accepts(sql) then ([], ExecuteRaised)
        else
          var (more, outcome) := Execution(db, template, pre, post, pages[1..]);
          ([sql] + more, outcome)
  }

  /** The statements, one for each page: what a completed execution has run. */
  ghost predicate RunsPages<Row>(db: Database<Row>, template: string, pre: string, post: string, pages: seq<seq<Row>>, run: seq<string>) {
    |run| <= |pages| && forall i :: 0 <= i < |run| ==> Statement(db, template, pre, post, pages[i]) == Some(run[i])
  }

  lemma {:induction false} ExecutionRunsPages<Row>(db: Database<Row>, template: string, pre: string, post: string, pages: seq<seq<Row>>)
    ensures var (run, outcome) := Execution(db, template, pre, post, pages);
      && RunsPages(db, template, pre, post, pages, run)
      && (outcome.Completed? <==> |run| == |pages|)
    decreases |pages|
  {
    if pages != [] && Execution(db, template, pre, post, pages).0 != [] {
      ExecutionRunsPages(db, template, pre, post, pages[1..]);
      var run, more := Execution(db, template, pre, post, pages).0, Execution(db, template, pre, post, pages[1..]).0;
      forall i | 0 <= i < |run| ensures Statement(db, template, pre, post, pages[i]) == Some(run[i]) {
        if i > 0 { assert run[i] == more[i - 1] && pages[i] == pages[1..][i - 1]; }
      }
    }
  }

  /** What `execute_values` does, as a whole. */
  function ExecuteAll<Row>(db: Database<Row>, sql: string, args: seq<Row>, template: Option<string>, pageSize: nat): (seq<string>, Outcome)
    requires pageSize > 0
  {
    match Joined(SplitSql(sql))
    case Err(e) => ([], BadQuery(e))
    case Ok(sides) => Execution(db, TemplateFor(db, template, args), sides.0, sides.1, Pages(args, pageSize))
  }

  lemma {:induction false} ExecutionCompletesIff<Row>(db: Database<Row>, template: string, pre: string, post: string, pages: seq<seq<Row>>)
    ensures Execution(db, template, pre, post, pages).1.Completed? <==>
      AllRun(db, template, pre, post, pages)
    decreases |pages|
  {
    if pages != [] {
      ExecutionCompletesIff(db, template, pre, post, pages[1..]);
      assert (forall i :: 0 <= i < |pages| ==> Runs(db, template, pre, post, pages[i])) <==>
             Runs(db, template, pre, post, pages[0]) && forall i :: 0 <= i < |pages[1..]| ==> Runs(db, template, pre, post, pages[1..][i]) by {
        assert forall i :: 0 < i < |pages| ==> pages[i] == pages[1..][i - 1];
        assert forall i :: 0 <= i < |pages[1..]| ==> pages[1..][i] == pages[i + 1];
      }
    }
  }

  /** Every row of the page merges, and the database accepts the statement. */
  predicate Runs<Row>(db: Database<Row>, template: string, pre: string, post: string, page: seq<Row>) {
    Statement(db, template, pre, post, page).Some? && db.accepts(Statement(db, template, pre, post, page).value)
  }

  predicate AllRun<Row>(db: Database<Row>, template: string, pre: string, post: string, pages: seq<seq<Row>>) {
    forall i :: 0 <= i < |pages| ==> Runs(db, template, pre, post, pages[i])
  }

  /** For every query: the execution completes if and only if the split succeeds and every page merges and is accepted. */
  lemma CompletesIff<Row>(db: Database<Row>, sql: string, args: seq<Row>, template: Option<string>, pageSize: nat)
    requires pageSize > 0
    ensures var ps, pages := Pieces(sql), Pages(args, pageSize);
      ExecuteAll(db, sql, args, template, pageSize).1.Completed? <==>
        Splittable(ps) && AllRun(db, TemplateFor(db, template, args), Before(ps), Behind(ps), pages)
  {
    hide SplitSql, Pieces, Splittable, Pages, TemplateFor, AllRun;
    SplitMeans(sql);
    var ps := Pieces(sql);
    var t, pages := TemplateFor(db, template, args), Pages(args, pageSize);
    ExecutionCompletesIff(db, t, Before(ps), Behind(ps), pages);
    if Splittable(ps) {
      assert Joined(SplitSql(sql)) == Ok((Before(ps), Behind(ps)));
      assert ExecuteAll(db, sql, args, template, pageSize) == Execution(db, t, Before(ps), Behind(ps), pages);
    }
  }

  /**
   For every argument list, every page size and every query: if the execution completes, the statements are, page
   by page, the unescaped text before the placeholder, the rows of the page with commas between them, and the
   unescaped text behind it; the pages hold all arguments in order, and none is empty.
   */
  lemma StatementsCoverOnce<Row>(db: Database<Row>, sql: string, args: seq<Row>, template: Option<string>, pageSize: nat)
    requires pageSize > 0 && ExecuteAll(db, sql, args, template, pageSize).1.Completed?
    ensures var ps := Pieces(sql);
      var run, pages, t := ExecuteAll(db, sql, args, template, pageSize).0, Pages(args, pageSize), TemplateFor(db, template, args);
      && Splittable(ps)
      && |run| == |pages| && Flatten(pages) == args && (forall i :: 0 <= i < |pages| ==> pages[i] != [])
      && forall i :: 0 <= i < |run| ==>
           Rows(db, t, pages[i]).Some? && run[i] == Before(ps) + Commas(Rows(db, t, pages[i]).value) + Behind(ps)
  {
    hide SplitSql, Pieces, Splittable, Pages, Flatten, TemplateFor, Commas;
    SplitMeans(sql);
    var ps := Pieces(sql);
    PagesCoverOnce(args, pageSize);
    ExecutionRunsPages(db, TemplateFor(db, template, args), Before(ps), Behind(ps), Pages(args, pageSize));
  }

  lemma {:induction false} RowsMean<Row>(db: Database<Row>, template: string, page: seq<Row>)
    requires Rows(db, template, page).Some?
    ensures var rows := Rows(db, template, page).value;
      |rows| == |page| && forall i :: 0 <= i < |page| ==> db.mogrify(template, page[i]) == Some(rows[i])
    decreases |page|
  {
    if page != [] {
      RowsMean(db, template, page[1..]);
      assert forall i :: 0 < i < |page| ==> page[i] == page[1..][i - 1];
    }
  }

  // ---------- the loops of execute_values ----------

  lemma JoinRow(rows: seq<string>, r: string)
    requires rows != []
    ensures Commas(rows + [r]) == Commas(rows) + "," + r
    decreases |rows|
  {
    if |rows| > 1 {
      assert (rows + [r])[1..] == rows[1..] + [r];
      JoinRow(rows[1..], r);
    }
  }

  lemma RowsSnoc<Row>(db: Database<Row>, template: string, page: seq<Row>, i: nat)
    requires i < |page|
    ensures Rows(db, template, page[..i + 1]) ==
      match Rows(db, template, page[..i])
      case None => None
      case Some(rs) => match db.mogrify(template, page[i])
        case None => None
        case Some(r) => Some(rs + [r])
    decreases i
  {
    var a := page[..i + 1];
    if i > 0 {
      assert a[1..] == page[1..][..i] && page[..i][1..] == page[1..][..i - 1];
      RowsSnoc(db, template, page[1..], i - 1);
      var first, rows, last := db.mogrify(template, page[0]), Rows(db, template, page[1..][..i - 1]), db.mogrify(template, page[i]);
      if first.Some? && rows.Some? && last.Some? {
        assert [first.value] + (rows.value + [last.value]) == ([first.value] + rows.value) + [last.value];
      }
    } else {
      assert a == [page[0]] && a[1..] == [] && page[..0] == [];
      var first := db.mogrify(template, page[0]);
      if first.Some? { assert [first.value] + [] == [] + [first.value]; }
    }
  }

  /** The first rows decide: if one of them raises, so does the page. */
  lemma {:induction false} RowsPrefix<Row>(db: Database<Row>, template: string, page: seq<Row>, i: nat)
    requires i <= |page| && Rows(db, template, page[..i]).None?
    ensures Rows(db, template, page).None?
    decreases |page| - i
  {
    if i < |page| {
      RowsSnoc(db, template, page, i);
      RowsPrefix(db, template, page, i + 1);
    } else {
      assert page[..i] == page;
    }
  }

  /** One statement, put together from its parts; the comma behind the last row makes room for the suffix. */
  method BuildStatement<Row>(db: Database<Row>, template: string, pre: seq<string>, post: seq<string>, page: seq<Row>)
      returns (sql: Option<string>)
    requires page != []
    ensures sql == Statement(db, template, Join(pre), Join(post), page)
  {
    hide Commas, Join;
    var parts := pre;
    ghost var rows: seq<string> := [];
    for i := 0 to |page|
      invariant Rows(db, template, page[..i]) == Some(rows) && |rows| == i
      invariant i == 0 ==> parts == pre
      invariant i > 0 ==> |parts| > 0 && parts[|parts| - 1] == "," && Join(parts[..|parts| - 1]) == Join(pre) + Commas(rows)
    {
      RowsSnoc(db, template, page, i);
      var row := db.mogrify(template, page[i]);
      if row.None? {
        RowsPrefix(db, template, page, i + 1);
        return None;
      }
      AddRow(pre, parts, rows, row.value);
      parts := parts + [row.value] + [","];
      rows := rows + [row.value];
    }
    assert page[..|page|] == page;
    var front := parts[..|parts| - 1];
    JoinConcat(front, post);
    parts := front + post;
    return Some(Join(parts));
  }

  lemma AddRow(pre: seq<string>, parts: seq<string>, rows: seq<string>, r: string)
    requires rows == [] ==> parts == pre
    requires rows != [] ==> |parts| > 0 && parts[|parts| - 1] == "," && Join(parts[..|parts| - 1]) == Join(pre) + Commas(rows)
    ensures var next := parts + [r] + [","]; Join(next[..|next| - 1]) == Join(pre) + Commas(rows + [r])
  {
    hide Join, Commas;
    var next := parts + [r] + [","];
    assert next[..|next| - 1] == parts + [r];
    JoinSnoc(parts, r);
    if rows == [] {
      FirstRow(r);
      assert rows + [r] == [r];
    } else {
      var front := parts[..|parts| - 1];
      assert parts == front + [","];
      JoinSnoc(front, ",");
      JoinRow(rows, r);
      assert Join(pre) + Commas(rows) + "," + r == Join(pre) + (Commas(rows) + "," + r);
    }
  }

  lemma FirstRow(r: string)
    ensures Commas([r]) == r
  {
  }

  method ExecuteValues<Row>(db: Database<Row>, sql: string, args: seq<Row>, template: Option<string>, pageSize: nat)
      returns (run: seq<string>, outcome: Outcome)
    requires pageSize > 0
    ensures (run, outcome) == ExecuteAll(db, sql, args, template, pageSize)
  {
    hide SplitSql, Join, Statement, DefaultTemplate, Pages;
    run := [];
    var sides := SplitSqlLoop(sql);
    if sides.Err? { return run, BadQuery(sides.error); }
    var (pre, post) := sides.value;
    var pages := Paginate(args, pageSize);
    PagesCoverOnce(args, pageSize);
    FirstOfPages(args, pageSize);
    var t := template;
    ghost var goal := Execution(db, TemplateFor(db, template, args), Join(pre), Join(post), pages);
    assert pages[0..] == pages && [] + goal.0 == goal.0;
    for i := 0 to |pages|
      invariant i == 0 ==> t == template
      invariant i > 0 ==> t == Some(TemplateFor(db, template, args))
      invariant var rest := Execution(db, TemplateFor(db, template, args), Join(pre), Join(post), pages[i..]);
        goal == (run + rest.0, rest.1)
    {
      var page := pages[i];
      assert pages[i..][0] == page && pages[i..][1..] == pages[i + 1..];
      if t.None? { t := Some(DefaultTemplate(db.width(page[0]))); }
      var statement := BuildStatement(db, t.value, pre, post, page);
      assert run + [] == run;
      if statement.None? { return run, MogrifyRaised; }
      ghost var rest := Execution(db, TemplateFor(db, template, args), Join(pre), Join(post), pages[i + 1..]);
      assert run + ([statement.value] + rest.0) == (run + [statement.value]) + rest.0;
      if !db.accepts(statement.value) { return run, ExecuteRaised; }
      run := run + [statement.value];
    }
    assert run + [] == run;
    return run, Completed;
  }

  lemma FirstOfPages<T>(args: seq<T>, n: nat)
    requires n > 0
    ensures args == [] <==> Pages(args, n) == []
    ensures args != [] ==> Pages(args, n)[0] != [] && Pages(args, n)[0][0] == args[0]
  {
  }
}
