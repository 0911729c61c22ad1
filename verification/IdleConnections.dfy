/**
 The manager of idle connections (client_async.py, `IdleConnectionManager`): an ordered map from connections to
 the times of their last use, and a gate that saves looking at it. Times are in milliseconds; a maximum of
 None is infinity. Each call is given what the clock shows, in the order in which it reads it.
 */
module IdleConnections {
  import opened Wrappers

  datatype Entry = Entry(id: string, ts: int)

  /** `clock` is the last time that has been read. */
  datatype Manager = Manager(maxIdle: Option<nat>, next: Option<int>, lru: seq<Entry>, clock: int)

  /** None is never. */
  function Expiry(maxIdle: Option<nat>, ts: int): Option<int> { if maxIdle.Some? then Some(ts + maxIdle.value) else None }

  predicate Reached(t: Option<int>, now: int) { t.Some? && now >= t.value }

  function Without(lru: seq<Entry>, id: string): (r: seq<Entry>)
    ensures |r| <= |lru|
  {
    if lru == [] then []
    else if lru[0].id == id then lru[1..]
    else [lru[0]] + Without(lru[1..], id)
  }

  function New(maxIdleMs: int, now: int): Manager {
    var maxIdle := if maxIdleMs > 0 then Some(maxIdleMs) else None;
    Manager(maxIdle, Expiry(maxIdle, now), [], now)
  }

  function Update(m: Manager, id: string, now: int): Manager {
    m.(lru := Without(m.lru, id) + [Entry(id, now)], clock := now)
  }

  function Remove(m: Manager, id: string): Manager { m.(lru := Without(m.lru, id)) }

  /** The gate is checked at `now`; the oldest entry, if it comes to that, at `later`. */
  function Poll(m: Manager, now: int, later: int): (Manager, Option<Entry>) {
    if !Reached(m.next, now) then (m.(clock := now), None)
    else if m.lru == [] then (m.(clock := now), None)
    else
      var expiry := Expiry(m.maxIdle, m.lru[0].ts);
      (m.(next := expiry, clock := later), if Reached(expiry, later) then Some(m.lru[0]) else None)
  }

  // ---------- runs ----------

  datatype Op = UpdateAt(id: string, now: int) | RemoveOne(id: string) | PollAt(now: int, later: int)

  function Do(m: Manager, op: Op): Manager {
    match op
    case UpdateAt(id, now) => Update(m, id, now)
    case RemoveOne(id) => Remove(m, id)
    case PollAt(now, later) => Poll(m, now, later).0
  }

  /** The clock does not go back. */
  predicate Timely(m: Manager, op: Op) {
    match op
    case UpdateAt(_, now) => m.clock <= now
    case RemoveOne(_) => true
    case PollAt(now, later) => m.clock <= now <= later
  }

  predicate Run(m: Manager, ops: seq<Op>)
    decreases |ops|
  {
    ops != [] ==> Timely(m, ops[0]) && Run(Do(m, ops[0]), ops[1..])
  }

  function After(m: Manager, ops: seq<Op>): Manager
    decreases |ops|
  {
    if ops == [] then m else After(Do(m, ops[0]), ops[1..])
  }

  // ---------- the invariant ----------

  predicate Sorted(lru: seq<Entry>) { forall i, j :: 0 <= i < j < |lru| ==> lru[i].ts <= lru[j].ts }

  predicate Unique(lru: seq<Entry>) { forall i, j :: 0 <= i < j < |lru| ==> lru[i].id != lru[j].id }

  /** The gate never stands behind the expiry of an entry, nor behind that of one made now. */
  predicate Inv(m: Manager) {
    && Sorted(m.lru) && Unique(m.lru)
    && (m.maxIdle.None? <==> m.next.None?)
    && (m.next.Some? ==> m.next.value <= m.clock + m.maxIdle.value)
    && forall e :: e in m.lru ==> e.ts <= m.clock && (m.next.Some? ==> m.next.value <= e.ts + m.maxIdle.value)
  }

  /** Where the entry of `id` stands; |lru| if there is none. */
  lemma {:induction false} WithoutAt(lru: seq<Entry>, id: string) returns (i: nat)
    ensures i <= |lru|
    ensures if i == |lru| then Without(lru, id) == lru else lru[i].id == id && Without(lru, id) == lru[..i] + lru[i + 1..]
    ensures forall j :: 0 <= j < i ==> lru[j].id != id
  {
    if lru == [] || lru[0].id == id {
      i := 0;
    } else {
      i := WithoutAt(lru[1..], id);
      i := i + 1;
      assert lru == [lru[0]] + lru[1..];
    }
  }

  lemma WithoutIs(lru: seq<Entry>, id: string, i: nat)
    requires i <= |lru| && (forall j :: 0 <= j < i ==> lru[j].id != id) && (i < |lru| ==> lru[i].id == id)
    ensures Without(lru, id) == if i < |lru| then lru[..i] + lru[i + 1..] else lru
  {
    var k := WithoutAt(lru, id);
  }

  /** The entries but that of `id`, in the same order. */
  lemma WithoutMeans(lru: seq<Entry>, id: string)
    requires Unique(lru)
    ensures forall e :: e in Without(lru, id) <==> e in lru && e.id != id
    ensures Unique(Without(lru, id)) && (Sorted(lru) ==> Sorted(Without(lru, id)))
  {
    var i := WithoutAt(lru, id);
    hide Without;
    if i < |lru| { CutOut(lru, i); } else { assert forall e :: e in lru ==> e.id != id; }
  }

  lemma CutOut(lru: seq<Entry>, i: nat)
    requires Unique(lru) && i < |lru|
    ensures var r := lru[..i] + lru[i + 1..];
      && (forall e :: e in r <==> e in lru && e.id != lru[i].id)
      && Unique(r) && (Sorted(lru) ==> Sorted(r))
  {
    var r := lru[..i] + lru[i + 1..];
    forall e ensures e in r <==> e in lru && e.id != lru[i].id {
      if e in lru && e.id != lru[i].id {
        var j :| 0 <= j < |lru| && lru[j] == e;
        assert r[if j < i then j else j - 1] == e;
      }
      if e in r { var j :| 0 <= j < |r| && r[j] == e; }
    }
  }

  lemma AppendKeeps(lru: seq<Entry>, e: Entry)
    requires Sorted(lru) && Unique(lru) && forall x :: x in lru ==> x.ts <= e.ts && x.id != e.id
    ensures Sorted(lru + [e]) && Unique(lru + [e])
  {
  }

  lemma OldestIs(lru: seq<Entry>, e: Entry)
    requires Sorted(lru) && e in lru
    ensures lru[0].ts <= e.ts
  {
    var i :| 0 <= i < |lru| && lru[i] == e;
  }

  lemma StepKeepsInv(m: Manager, op: Op)
    requires Inv(m) && Timely(m, op)
    ensures Inv(Do(m, op))
  {
    hide Sorted, Unique, Without;
    match op
    case UpdateAt(id, now) =>
      WithoutMeans(m.lru, id);
      AppendKeeps(Without(m.lru, id), Entry(id, now));
    case RemoveOne(id) => WithoutMeans(m.lru, id);
    case PollAt(now, later) =>
      forall e | e in m.lru ensures m.lru[0].ts <= e.ts { OldestIs(m.lru, e); }
  }

  lemma {:induction false} RunKeepsInv(m: Manager, ops: seq<Op>)
    requires Inv(m) && Run(m, ops)
    ensures Inv(After(m, ops))
    decreases |ops|
  {
    hide Inv, Timely, Do;
    if ops != [] {
      StepKeepsInv(m, ops[0]);
      RunKeepsInv(Do(m, ops[0]), ops[1..]);
    }
  }

  // ---------- theorems ----------

  /** A full scan. */
  predicate IsExpired(m: Manager, e: Entry, now: int) { e in m.lru && Reached(Expiry(m.maxIdle, e.ts), now) }

  /**
   In every reachable state, whatever the clock shows next: the poll returns None exactly when a scan of all
   connections at the last time it read finds none expired, and otherwise an expired connection that none has
   been idle longer than. The gate alone (at `now`) is shut only when the scan finds nothing.
   */
  lemma PollAgreesWithScan(maxIdleMs: int, start: int, ops: seq<Op>, now: int, later: int)
    requires Run(New(maxIdleMs, start), ops) && Timely(After(New(maxIdleMs, start), ops), PollAt(now, later))
    ensures var m := After(New(maxIdleMs, start), ops);
      var (q, r) := Poll(m, now, later);
      && (r.None? <==> forall e :: !IsExpired(m, e, q.clock))
      && (r.Some? ==> IsExpired(m, r.value, q.clock) && forall e :: e in m.lru ==> r.value.ts <= e.ts)
      && (!Reached(m.next, now) ==> forall e :: !IsExpired(m, e, now))
      && q.lru == m.lru
  {
    RunKeepsInv(New(maxIdleMs, start), ops);
    var m := After(New(maxIdleMs, start), ops);
    hide Sorted, Unique;
    if m.lru != [] { assert m.lru[0] in m.lru; }
    forall e | e in m.lru ensures m.lru[0].ts <= e.ts { OldestIs(m.lru, e); }
    var (q, r) := Poll(m, now, later);
    assert q.lru == m.lru;
    assert !Reached(m.next, now) ==> forall e :: !IsExpired(m, e, now);
    assert (r.Some? ==> IsExpired(m, r.value, q.clock));
    assert (r.Some? ==> forall e :: e in m.lru ==> r.value.ts <= e.ts);
    assert (r.None? ==> forall e :: !IsExpired(m, e, q.clock));
  }

  // ---------- the history ----------

  /** When the connection was last used, if it has not been removed since. */
  function LastUse(ops: seq<Op>, id: string): Option<int>
    decreases |ops|
  {
    if ops == [] then None
    else
      match ops[|ops| - 1]
      case UpdateAt(x, now) => if x == id then Some(now) else LastUse(ops[..|ops| - 1], id)
      case RemoveOne(x) => if x == id then None else LastUse(ops[..|ops| - 1], id)
      case PollAt(_, _) => LastUse(ops[..|ops| - 1], id)
  }

  lemma {:induction false} AfterLast(m: Manager, ops: seq<Op>)
    requires ops != [] && Run(m, ops)
    ensures var front := ops[..|ops| - 1];
      && Run(m, front) && Timely(After(m, front), ops[|ops| - 1]) && After(m, ops) == Do(After(m, front), ops[|ops| - 1])
    decreases |ops|
  {
    hide Timely, Do;
    if |ops| > 1 {
      AfterLast(Do(m, ops[0]), ops[1..]);
      assert ops[1..][..|ops| - 2] == ops[..|ops| - 1][1..];
    } else {
      assert ops[..0] == [] && ops[1..] == [];
    }
  }

  ghost predicate Remembers(m: Manager, ops: seq<Op>) {
    forall e: Entry :: e in m.lru <==> LastUse(ops, e.id) == Some(e.ts)
  }

  /** The ordered map holds exactly the connections that have been used and not removed, with their last use. */
  lemma {:induction false} LruIsLastUse(maxIdleMs: int, start: int, ops: seq<Op>)
    requires Run(New(maxIdleMs, start), ops)
    ensures var m := After(New(maxIdleMs, start), ops); Inv(m) && m.maxIdle == New(maxIdleMs, start).maxIdle && Remembers(m, ops)
    decreases |ops|
  {
    RunKeepsInv(New(maxIdleMs, start), ops);
    if ops != [] {
      AfterLast(New(maxIdleMs, start), ops);
      var front, last := ops[..|ops| - 1], ops[|ops| - 1];
      LruIsLastUse(maxIdleMs, start, front);
      var m := After(New(maxIdleMs, start), front);
      if last.UpdateAt? || last.RemoveOne? { WithoutMeans(m.lru, last.id); }
      hide Without, Sorted, Run;
    }
  }

  /** The connection has been idle for the maximum by time t; a maximum of zero or less is none. */
  predicate Idle(maxIdleMs: int, ops: seq<Op>, id: string, t: int) {
    maxIdleMs > 0 && LastUse(ops, id).Some? && t >= LastUse(ops, id).value + maxIdleMs
  }

  /**
   In every run: if some connection has been idle too long when the poll begins, the poll returns one; and what it returns
   has been idle too long by the time it ends, is returned with its last use, and none has been idle longer.
   */
  lemma PollFindsIdle(maxIdleMs: int, start: int, ops: seq<Op>, now: int, later: int)
    requires Run(New(maxIdleMs, start), ops) && Timely(After(New(maxIdleMs, start), ops), PollAt(now, later))
    ensures var r := Poll(After(New(maxIdleMs, start), ops), now, later).1;
      && ((exists id :: Idle(maxIdleMs, ops, id, now)) ==> r.Some?)
      && (r.Some? ==>
           && Idle(maxIdleMs, ops, r.value.id, later) && LastUse(ops, r.value.id) == Some(r.value.ts)
           && forall id :: LastUse(ops, id).Some? ==> r.value.ts <= LastUse(ops, id).value)
  {
    LruIsLastUse(maxIdleMs, start, ops);
    PollAgreesWithScan(maxIdleMs, start, ops, now, later);
    var m := After(New(maxIdleMs, start), ops);
    var (q, r) := Poll(m, now, later);
    forall id | LastUse(ops, id).Some? ensures Entry(id, LastUse(ops, id).value) in m.lru {
      assert LastUse(ops, Entry(id, LastUse(ops, id).value).id) == Some(LastUse(ops, id).value);
    }
    if id :| Idle(maxIdleMs, ops, id, now) { assert IsExpired(m, Entry(id, LastUse(ops, id).value), q.clock); }
    hide Run, After, Inv;
  }

  /** A poll before the time of the gate looks at nothing, and leaves everything as it is. */
  lemma GateIsShut(m: Manager, now: int, later: int)
    requires m.next.None? || now < m.next.value
    ensures Poll(m, now, later) == (m.(clock := now), None)
  {
  }

  /** A poll that has looked and found nothing lets the client sleep until the oldest connection expires, and no shorter. */
  lemma SleepsUntilOldest(m: Manager, now: int, later: int)
    requires Inv(m) && Timely(m, PollAt(now, later)) && m.next.Some? && m.next.value <= now && m.lru != []
    ensures var (q, r) := Poll(m, now, later);
      r.None? ==> NextCheckMs(q, later) == Some(m.lru[0].ts + m.maxIdle.value - later)
  {
  }

  /** How long a poll may sleep; None is forever. */
  function NextCheckMs(m: Manager, now: int): Option<nat> {
    if m.lru == [] || m.next.None? then None
    else if m.next.value <= now then Some(0)
    else Some(m.next.value - now)
  }

  /** Sleeping that long misses no expiry: none comes before the time is up. */
  lemma SleepingMissesNothing(maxIdleMs: int, start: int, ops: seq<Op>, now: int, t: int, e: Entry)
    requires Run(New(maxIdleMs, start), ops) && now <= t
    requires var ms := NextCheckMs(After(New(maxIdleMs, start), ops), now); ms.None? || t < now + ms.value
    ensures !IsExpired(After(New(maxIdleMs, start), ops), e, t)
  {
    RunKeepsInv(New(maxIdleMs, start), ops);
    var m := After(New(maxIdleMs, start), ops);
  }

  // ---------- the object ----------

  class IdleConnectionManager {
    const maxIdle: Option<nat>
    var next: Option<int>
    var lru: seq<Entry>
    ghost var clock: int

    constructor (maxIdleMs: int, now: int)
      ensures View() == New(maxIdleMs, now)
    {
      maxIdle := if maxIdleMs > 0 then Some(maxIdleMs) else None;
      next := Expiry(if maxIdleMs > 0 then Some(maxIdleMs) else None, now);
      lru, clock := [], now;
    }

    ghost function View(): Manager
      reads this
    {
      Manager(maxIdle, next, lru, clock)
    }

    method Delete(id: string)
      modifies this`lru
      ensures lru == Without(old(lru), id)
    {
      ghost var all := lru;
      for i := 0 to |lru|
        invariant lru == all && forall j :: 0 <= j < i ==> lru[j].id != id
      {
        if lru[i].id == id {
          lru := lru[..i] + lru[i + 1..];
          WithoutIs(all, id, i);
          return;
        }
      }
      WithoutIs(all, id, |all|);
    }

    method UpdateId(id: string, now: int)
      modifies this
      ensures View() == Update(old(View()), id, now)
    {
      Delete(id);
      lru, clock := lru + [Entry(id, now)], now;
    }

    method RemoveId(id: string)
      modifies this
      ensures View() == Remove(old(View()), id)
    {
      Delete(id);
    }

    method PollExpiredConnection(now: int, later: int) returns (r: Option<Entry>)
      modifies this
      ensures (View(), r) == Poll(old(View()), now, later)
    {
      clock := now;
      if next.None? || now < next.value { return None; }
      if |lru| == 0 { return None; }
      var oldest := lru[0];
      next, clock := Expiry(maxIdle, oldest.ts), later;
      if next.Some? && later >= next.value { return Some(oldest); }
      return None;
    }
  }
}
