/**
 What the pool does for its users (pool.py): when a connection is handed out and which, when the pool is exhausted,
 and whether a connection that is put back is kept.
 */
module PoolService {
  import opened Wrappers
  import opened ConnectionPool

  // ---------- one call ----------

  /** The pool has handed out `c` under `k`, which is all that has changed besides the free list. */
  predicate HandedOut(p: Pool, q: Pool, k: Key, c: Conn) {
    && q.used == p.used[k := c] && q.rused == p.rused[c := k]
    && q == p.(used := q.used, rused := q.rused, pool := q.pool, created := q.created)
  }

  /**
   A key in use gives its connection, and nothing changes. Otherwise the connection put back last is handed out; if
   none is free, the pool is exhausted just when `maxconn` are in use, and opens a connection when they are not.
   */
  lemma GetMeans(p: Pool, k: Key, fails: bool)
    requires !p.closed
    ensures var (q, r) := Get(p, Some(k), fails);
      if k in p.used then q == p && r == Ok(p.used[k])
      else if p.pool != [] then
        var n := |p.pool| - 1; r == Ok(p.pool[n]) && HandedOut(p, q, k, p.pool[n]) && q.pool == p.pool[..n] && q.created == p.created
      else if |p.used| == p.maxconn then q == p && r == Err(PoolExhausted)
      else if fails then q == p && r == Err(DatabaseError)
      else r == Ok(p.created) && HandedOut(p, q, k, p.created) && q.pool == [] && q.created == p.created + 1
  {
  }

  /** Without a key, the next number is taken. */
  lemma GetWithoutKey(p: Pool, fails: bool)
    requires !p.closed
    ensures Get(p, None, fails) == Get(p.(keys := p.keys + 1), Some(Number(p.keys + 1)), fails)
  {
  }

  /** A sound open pool refuses a new key only when `maxconn` connections are in use, and none is free then. */
  lemma ExhaustedIff(p: Pool, k: Key, fails: bool)
    requires Inv(p) && !p.closed && k !in p.used
    ensures Get(p, Some(k), fails).1 == Err(PoolExhausted) <==> |p.used| == p.maxconn
  {
    hide Inverses, Accounted;
  }

  /** The connection is in a state to be handed out again, or can be brought into it, and there is room for it. */
  predicate Kept(p: Pool, c: Conn, close: bool, status: Status) {
    |p.pool| < p.minconn && !close && c !in p.over && !status.Unknown?
  }

  /** The database has to be asked: to close the connection, or to roll it back. */
  predicate Asked(p: Pool, c: Conn, close: bool, status: Status) {
    |p.pool| >= p.minconn || close || (c !in p.over && !status.Idle?)
  }

  /**
   A connection that is put back under its own key, or without one, gives up the key, and is free again if it is kept;
   otherwise it is closed. Nothing changes if the database raises.
   */
  lemma PutMeans(p: Pool, c: Conn, key: Option<Key>, close: bool, status: Status, fails: bool)
    requires Inv(p) && !p.closed && c in p.rused && (key.Some? ==> key.value == p.rused[c])
    ensures var (q, r) := Put(p, c, key, close, status, fails);
      if fails && Asked(p, c, close, status) then q == p && r == Err(DatabaseError)
      else
        && r == Ok(()) && q.used == p.used - {p.rused[c]} && q.rused == p.rused - {c}
        && q.pool == (if Kept(p, c, close, status) then p.pool + [c] else p.pool)
        && q.over == (if Kept(p, c, close, status) then p.over else p.over + {c})
        && q == p.(used := q.used, rused := q.rused, pool := q.pool, over := q.over)
  {
    InversesAt(p.used, p.rused, p.rused[c], c);
    assert c in p.over ==> p.over + {c} == p.over;
    hide Inverses, Accounted, DisjointParts;
  }

  /**
   A key that is not the connection's own: the connection is put away all the same, kept or closed; the key is given up
   if it is in use, and the connection's name if it has one; and unless both are there, a KeyError follows.
   */
  lemma PutUnderWrongKey(p: Pool, c: Conn, k: Key, close: bool, status: Status, fails: bool)
    requires !p.closed && !(c in p.rused && p.rused[c] == k)
    ensures var (q, r) := Put(p, c, Some(k), close, status, fails);
      if fails && Asked(p, c, close, status) then q == p && r == Err(DatabaseError)
      else
        && q.used == p.used - {k}
        && q.rused == (if k in p.used then p.rused - {c} else p.rused)
        && q.pool == (if Kept(p, c, close, status) then p.pool + [c] else p.pool)
        && q.over == (if Kept(p, c, close, status) then p.over else p.over + {c})
        && q == p.(used := q.used, rused := q.rused, pool := q.pool, over := q.over)
        && r == if k in p.used && c in p.rused then Ok(()) else Err(KeyError)
  {
    assert c in p.over ==> p.over + {c} == p.over;
    assert k !in p.used ==> p.used - {k} == p.used;
    assert c !in p.rused ==> p.rused - {c} == p.rused;
  }

  /** Closing the pool closes what is free and what is in use, and ends its service. */
  lemma CloseAllMeans(p: Pool)
    requires !p.closed
    ensures var (q, r) := CloseAll(p);
      && r == Ok(()) && q.closed && q == p.(closed := true, over := q.over)
      && forall c: Conn :: c in q.over <==> c in p.over || c in p.pool || exists k :: k in p.used && p.used[k] == c
  {
  }

  /** A connection that the pool has not handed out cannot be put back without a key. */
  lemma StrangerIsRefused(p: Pool, c: Conn, close: bool, status: Status, fails: bool)
    requires !p.closed && c !in p.rused
    ensures Put(p, c, None, close, status, fails) == (p, Err(UnkeyedConnection))
  {
  }

  lemma ClosedPoolRefuses(p: Pool, c: Conn, key: Option<Key>, close: bool, status: Status, fails: bool)
    requires p.closed
    ensures Get(p, key, fails) == (p, Err(PoolClosed)) && Put(p, c, key, close, status, fails) == (p, Err(PoolClosed))
    ensures CloseAll(p) == (p, Err(PoolClosed))
  {
  }

  // ---------- one call after the other ----------

  /** n calls of `getconn` without a key, of a database that refuses none. */
  function Gets(p: Pool, n: nat): (r: (Pool, seq<Result<Conn, Error>>))
    ensures |r.1| == n
    decreases n
  {
    if n == 0 then (p, [])
    else
      var (q, results) := Gets(p, n - 1);
      var (q', r) := Get(q, None, false);
      (q', results + [r])
  }

  /** n calls have been served: the numbers up to n are in use, and the first connections are free as far as they have not been taken. */
  ghost predicate Serves(p: Pool, minconn: nat, maxconn: nat, n: nat, results: seq<Result<Conn, Error>>) {
    && p.minconn == minconn && p.maxconn == maxconn && !p.closed && p.keys == n && |results| == n && Numbered(p.used, n)
    && Untouched(p.pool, if n <= minconn then minconn - n else 0)
    && p.created == (if n <= minconn then minconn else n)
    && Different(results, |p.pool|, p.created)
  }

  ghost predicate Numbered(used: map<Key, Conn>, n: nat) {
    |used| == n && forall k :: k in used <==> k.Number? && 1 <= k.n <= n
  }

  predicate Untouched(pool: seq<Conn>, n: nat) { |pool| == n && forall i :: 0 <= i < n ==> pool[i] == i }

  predicate Different(results: seq<Result<Conn, Error>>, lo: nat, hi: nat) {
    && (forall i :: 0 <= i < |results| ==> results[i].Ok? && lo <= results[i].value < hi)
    && (forall i, j :: 0 <= i < j < |results| ==> results[i] != results[j])
  }

  lemma OneMoreDiffers(results: seq<Result<Conn, Error>>, lo: nat, hi: nat, c: Conn)
    requires Different(results, lo, hi) && (c + 1 == lo || (lo <= hi && c == hi))
    ensures Different(results + [Ok(c)], if c < lo then c else lo, if c < hi then hi else c + 1)
  {
  }

  lemma OneMoreInUse(used: map<Key, Conn>, n: nat, c: Conn)
    requires Numbered(used, n)
    ensures |used| == n && Number(n + 1) !in used && Numbered(used[Number(n + 1) := c], n + 1)
  {
    var u := used[Number(n + 1) := c];
    assert u.Keys == used.Keys + {Number(n + 1)};
  }

  lemma ServesOneMore(p: Pool, minconn: nat, maxconn: nat, n: nat, results: seq<Result<Conn, Error>>)
    requires Serves(p, minconn, maxconn, n, results) && (n < maxconn || maxconn < minconn)
    ensures var (q, r) := Get(p, None, false); Serves(q, minconn, maxconn, n + 1, results + [r])
  {
    hide Get, Different, Numbered, Untouched;
    var k := Number(n + 1);
    var c := if p.pool != [] then p.pool[|p.pool| - 1] else p.created;
    LastIsUntouched(p.pool, if n <= minconn then minconn - n else 0);
    GetWithoutKey(p, false);
    GetMeans(p.(keys := n + 1), k, false);
    OneMoreInUse(p.used, n, c);
    OneMoreDiffers(results, |p.pool|, p.created, c);
  }

  lemma LastIsUntouched(pool: seq<Conn>, n: nat)
    ensures Untouched(pool, n) ==> |pool| == n
    ensures n > 0 && Untouched(pool, n) ==> pool[n - 1] == n - 1 && Untouched(pool[..n - 1], n - 1)
    ensures pool == [] ==> Untouched(pool, 0)
  {
  }

  lemma {:induction false} GetsServe(minconn: nat, maxconn: nat, n: nat)
    requires n <= maxconn || maxconn < minconn
    ensures var (p, results) := Gets(NewPool(minconn, maxconn), n); Serves(p, minconn, maxconn, n, results)
    decreases n
  {
    if n == 0 {
      assert NewPool(minconn, maxconn).used == map[];
    } else {
      GetsServe(minconn, maxconn, n - 1);
      var (p, results) := Gets(NewPool(minconn, maxconn), n - 1);
      hide Get, Serves, NewPool;
      ServesOneMore(p, minconn, maxconn, n - 1, results);
    }
  }

  predicate AllServed(results: seq<Result<Conn, Error>>) {
    && (forall i :: 0 <= i < |results| ==> results[i].Ok?)
    && (forall i, j :: 0 <= i < j < |results| ==> results[i] != results[j])
  }

  /**
   From a new pool, n calls are all served, each with a connection of its own, if and only if n is at most `maxconn`;
   unless `minconn` is greater, in which case the pool is never exhausted.
   */
  lemma GetsAreServedIff(minconn: nat, maxconn: nat, n: nat)
    ensures AllServed(Gets(NewPool(minconn, maxconn), n).1) <==> n <= maxconn || maxconn < minconn
  {
    if n <= maxconn || maxconn < minconn {
      GetsServe(minconn, maxconn, n);
    } else {
      NextIsExhausted(minconn, maxconn);
      GetsExtend(NewPool(minconn, maxconn), maxconn + 1, n);
      var early, all := Gets(NewPool(minconn, maxconn), maxconn + 1).1, Gets(NewPool(minconn, maxconn), n).1;
      assert early[maxconn] == all[maxconn];
    }
  }

  /** The call after the `maxconn`-th is the first that the pool is exhausted for. */
  lemma NextIsExhausted(minconn: nat, maxconn: nat)
    requires minconn <= maxconn
    ensures Gets(NewPool(minconn, maxconn), maxconn + 1).1[maxconn] == Err(PoolExhausted)
  {
    GetsServe(minconn, maxconn, maxconn);
    var (p, results) := Gets(NewPool(minconn, maxconn), maxconn);
    assert Number(maxconn + 1) !in p.used;
  }

  lemma {:induction false} GetsExtend(p: Pool, m: nat, n: nat)
    requires m <= n
    ensures Gets(p, m).1 <= Gets(p, n).1
    decreases n
  {
    if m < n { GetsExtend(p, m, n - 1); }
  }

  /** A number that a user has taken for a key is not skipped: the call without a key that comes to it shares the connection. */
  lemma OwnNumberIsShared(p: Pool, fails: bool)
    requires Inv(p) && !p.closed
    ensures var (q, r) := Get(p, None, fails);
      (exists k: Key :: k in p.used && r == Ok(p.used[k])) <==> Number(p.keys + 1) in p.used
  {
    var (q, r) := Get(p, None, fails);
    if Number(p.keys + 1) !in p.used {
      forall k: Key | k in p.used ensures r != Ok(p.used[k]) {
        InversesAt(p.used, p.rused, k, p.used[k]);
        hide Inverses, Accounted;
      }
    }
  }

  /** The run: a user takes key 1, and the first call without a key gives the same connection to someone else. */
  lemma FirstNumberIsShared()
    ensures
      var first, second := GetConn(Some(Number(1)), false), GetConn(None, false);
      var s := System(NewPool(1, 20), multiset{});
      Run(s, [first, second]) && After(s, [first, second]).held == multiset{0, 0}
  {
    var first, second := GetConn(Some(Number(1)), false), GetConn(None, false);
    var s := System(NewPool(1, 20), multiset{});
    var t := Do(s, first);
    var u := Do(t, second);
    assert [first, second][1..] == [second] && [second][1..] == [];
    assert After(u, []) == u && After(t, [second]) == u && After(s, [first, second]) == u;
    assert Run(u, []) && Run(t, [second]) && Run(s, [first, second]);
  }

  /** Closing the pool is the end of any run: whatever is tried then is refused, and all its connections are closed. */
  lemma RunEndsWithClosing(s: System, op: Op)
    requires Inv(s.p) && !s.p.closed
    ensures var t := Do(s, CloseAllConns);
      && t.p.closed && (forall c: Conn :: c < t.p.created ==> c in t.p.over)
      && (!op.Dies? ==> Do(t, op) == t)
  {
    CloseAllKeepsInv(s.p);
    hide Inverses, Bounded, DisjointParts, Accounted;
  }
}
