/** Records picked by their offsets. */
module Offsets {
  import opened RecordFilter

  ghost predicate Increasing(s: seq<Record>) {
    forall i, j :: 0 <= i < j < |s| ==> s[i].offset < s[j].offset
  }

  function AtOrAfter(s: seq<Record>, offset: int): seq<Record> {
    if s == [] then []
    else (if s[0].offset >= offset then [s[0]] else []) + AtOrAfter(s[1..], offset)
  }

  function DropBelow(s: seq<Record>, offset: int): seq<Record> {
    if s != [] && s[0].offset < offset then DropBelow(s[1..], offset) else s
  }

  lemma {:induction false} DropBelowIsAtOrAfter(s: seq<Record>, offset: int)
    requires Increasing(s)
    ensures DropBelow(s, offset) == AtOrAfter(s, offset)
    decreases |s|
  {
    if s != [] {
      if s[0].offset < offset {
        DropBelowIsAtOrAfter(s[1..], offset);
      } else {
        AllAtOrAfter(s, offset);
      }
    }
  }

  lemma {:induction false} AllAtOrAfter(s: seq<Record>, offset: int)
    requires forall i :: 0 <= i < |s| ==> s[i].offset >= offset
    ensures AtOrAfter(s, offset) == s
    decreases |s|
  {
    if s != [] { AllAtOrAfter(s[1..], offset); }
  }

  function Between(s: seq<Record>, lo: int, hi: int): seq<Record> {
    if s == [] then []
    else if lo <= s[0].offset < hi then [s[0]] + Between(s[1..], lo, hi)
    else Between(s[1..], lo, hi)
  }

  lemma {:induction false} BetweenConcat(s: seq<Record>, t: seq<Record>, lo: int, hi: int)
    ensures Between(s + t, lo, hi) == Between(s, lo, hi) + Between(t, lo, hi)
  {
    if s == [] {
      assert s + t == t;
    } else {
      assert (s + t)[1..] == s[1..] + t;
      BetweenConcat(s[1..], t, lo, hi);
    }
  }

  lemma {:induction false} NoneBetween(s: seq<Record>, lo: int, hi: int)
    requires forall i :: 0 <= i < |s| ==> s[i].offset < lo || hi <= s[i].offset
    ensures Between(s, lo, hi) == []
  {
    if s != [] { NoneBetween(s[1..], lo, hi); }
  }

  lemma {:induction false} BetweenIsAtOrAfter(s: seq<Record>, lo: int, hi: int)
    requires forall i :: 0 <= i < |s| ==> s[i].offset < hi
    ensures Between(s, lo, hi) == AtOrAfter(s, lo)
  {
    if s != [] { BetweenIsAtOrAfter(s[1..], lo, hi); }
  }

  /** Only the upper bound matters to records that are all at or behind the lower one. */
  lemma {:induction false} LowerDoesNotMatter(s: seq<Record>, lo: int, lo': int, hi: int)
    requires forall i :: 0 <= i < |s| ==> lo <= s[i].offset && lo' <= s[i].offset
    ensures Between(s, lo, hi) == Between(s, lo', hi)
  {
    if s != [] { LowerDoesNotMatter(s[1..], lo, lo', hi); }
  }

  lemma Associates(s: seq<Record>, t: seq<Record>, u: seq<Record>)
    ensures s + t + u == s + (t + u) && [] + t == t
  {
  }

  lemma {:induction false} BetweenJoins(s: seq<Record>, lo: int, mid: int, hi: int)
    requires Increasing(s) && lo <= mid <= hi
    ensures Between(s, lo, mid) + Between(s, mid, hi) == Between(s, lo, hi)
  {
    if s != [] {
      if s[0].offset < lo {
        BetweenJoins(s[1..], lo, mid, hi);
      } else if s[0].offset < mid {
        BetweenJoins(s[1..], lo, mid, hi);
        Associates([s[0]], Between(s[1..], lo, mid), Between(s[1..], mid, hi));
      } else {
        NoneBetween(s, lo, mid);
        LowerDoesNotMatter(s, lo, mid, hi);
        Associates([], Between(s, mid, hi), []);
      }
    }
  }

  /** The first n of the records are those up to the n-th, and the others are those behind it. */
  ghost predicate SplitAt(s: seq<Record>, lo: int, hi: int, n: nat) {
    0 < n <= |Between(s, lo, hi)| && SplitsAt(s, lo, hi, Between(s, lo, hi), n)
  }

  ghost predicate SplitsAt(s: seq<Record>, lo: int, hi: int, w: seq<Record>, n: nat)
    requires 0 < n <= |w|
  {
    var mid := w[n - 1].offset + 1;
    lo <= mid <= hi && w[..n] == Between(s, lo, mid) && w[n..] == Between(s, mid, hi)
  }

  lemma SplitBehindFirst(s: seq<Record>, lo: int, hi: int)
    requires Increasing(s) && s != [] && lo <= s[0].offset < hi
    ensures SplitAt(s, lo, hi, 1)
  {
    NoneBetween(s[1..], lo, s[0].offset + 1);
    LowerDoesNotMatter(s[1..], lo, s[0].offset + 1, hi);
  }

  lemma SplitLater(s: seq<Record>, lo: int, hi: int, rest: seq<Record>, n: nat)
    requires Increasing(s) && s != [] && lo <= s[0].offset < hi
    requires 0 < n <= |rest| && s[0].offset < rest[n - 1].offset && SplitsAt(s[1..], lo, hi, rest, n)
    ensures SplitsAt(s, lo, hi, [s[0]] + rest, n + 1)
  {
    var w, mid := [s[0]] + rest, rest[n - 1].offset + 1;
    assert w[..n + 1] == [s[0]] + rest[..n] && w[n + 1..] == rest[n..];
    assert Between(s, lo, mid) == [s[0]] + Between(s[1..], lo, mid) && Between(s, mid, hi) == Between(s[1..], mid, hi);
  }

  lemma SplitAllLater(s: seq<Record>, lo: int, hi: int, w: seq<Record>, n: nat)
    requires s != [] && s[0].offset < lo
    requires 0 < n <= |w| && SplitsAt(s[1..], lo, hi, w, n)
    ensures SplitsAt(s, lo, hi, w, n)
  {
  }

  lemma {:induction false} BetweenSplits(s: seq<Record>, lo: int, hi: int, n: nat)
    requires Increasing(s) && 0 < n <= |Between(s, lo, hi)|
    ensures SplitAt(s, lo, hi, n)
  {
    hide SplitsAt;
    if s[0].offset < lo {
      BetweenSplits(s[1..], lo, hi, n);
      SplitAllLater(s, lo, hi, Between(s, lo, hi), n);
    } else if s[0].offset < hi {
      if n == 1 {
        SplitBehindFirst(s, lo, hi);
      } else {
        BetweenSplits(s[1..], lo, hi, n - 1);
        WithinBounds(s[1..], lo, hi, n - 2);
        SplitLater(s, lo, hi, Between(s[1..], lo, hi), n - 1);
      }
    } else {
      NoneBetween(s, lo, hi);
    }
  }

  lemma {:induction false} WithinBounds(s: seq<Record>, lo: int, hi: int, i: nat)
    requires i < |Between(s, lo, hi)|
    ensures Between(s, lo, hi)[i] in s && lo <= Between(s, lo, hi)[i].offset < hi
  {
    var here := lo <= s[0].offset < hi;
    if !here { WithinBounds(s[1..], lo, hi, i); } else if i > 0 { WithinBounds(s[1..], lo, hi, i - 1); }
  }
}
