/**
 The key-based connection pool of psycopg2 (pool.py). Connections are numbered in the order of their creation;
 `over` are those that are closed, by the pool, by their user or by the server.
 */
module ConnectionPool {
  import opened Wrappers

  /** Keys made by the pool are numbers; users may pass any. */
  datatype Key = Number(n: int) | Name(s: string)

  type Conn = nat

  datatype Error = PoolClosed | PoolExhausted | UnkeyedConnection | KeyError | DatabaseError

  datatype Status = Unknown | Idle | InTransaction

  datatype Pool = Pool(
    minconn: nat,
    maxconn: nat,
    closed: bool,
    pool: seq<Conn>,
    used: map<Key, Conn>,
    rused: map<Conn, Key>,
    keys: nat,
    created: nat,
    over: set<Conn>)

  function NewPool(minconn: nat, maxconn: nat): Pool {
    Pool(minconn, maxconn, false, seq(minconn, i requires 0 <= i => i), map[], map[], 0, minconn, {})
  }

  // ---------- operations ----------

  function Assign(p: Pool, key: Key, c: Conn): Pool { p.(used := p.used[key := c], rused := p.rused[c := key]) }

  /** `fails` says whether the database refuses a connection, should one be needed. */
  function GetAt(p: Pool, k: Key, fails: bool): (Pool, Result<Conn, Error>) {
    if k in p.used then (p, Ok(p.used[k]))
    else if p.pool != [] then
      var c := p.pool[|p.pool| - 1];
      (Assign(p.(pool := p.pool[..|p.pool| - 1]), k, c), Ok(c))
    else if |p.used| == p.maxconn then (p, Err(PoolExhausted))
    else if fails then (p, Err(DatabaseError))
    else (Assign(p.(created := p.created + 1), k, p.created), Ok(p.created))
  }

  function Get(p: Pool, key: Option<Key>, fails: bool): (Pool, Result<Conn, Error>) {
    if p.closed then (p, Err(PoolClosed))
    else match key
      case None => GetAt(p.(keys := p.keys + 1), Number(p.keys + 1), fails)
      case Some(k) => GetAt(p, k, fails)
  }

  /** Back into the pool if there is room, after a rollback if needed; else closed. None if the database raises. */
  function PutAway(p: Pool, c: Conn, close: bool, status: Status, fails: bool): Option<Pool> {
    if |p.pool| < p.minconn && !close then
      if c in p.over then Some(p)
      else match status
        case Unknown => if fails then None else Some(p.(over := p.over + {c}))
        case InTransaction => if fails then None else Some(p.(pool := p.pool + [c]))
        case Idle => Some(p.(pool := p.pool + [c]))
    else if fails then None
    else Some(p.(over := p.over + {c}))
  }

  function Put(p: Pool, c: Conn, key: Option<Key>, close: bool, status: Status, fails: bool): (Pool, Result<(), Error>) {
    if p.closed then (p, Err(PoolClosed))
    else if key.None? && c !in p.rused then (p, Err(UnkeyedConnection))
    else
      var k := if key.None? then p.rused[c] else key.value;
      match PutAway(p, c, close, status, fails)
      case None => (p, Err(DatabaseError))
      case Some(q) =>
        if k !in q.used then (q, Err(KeyError))
        else
          var r := q.(used := q.used - {k});
          if c !in r.rused then (r, Err(KeyError)) else (r.(rused := r.rused - {c}), Ok(()))
  }

  /** Exceptions of `close` are swallowed: the connection is given up either way. */
  function CloseAll(p: Pool): (Pool, Result<(), Error>) {
    if p.closed then (p, Err(PoolClosed))
    else (p.(closed := true, over := p.over + (set c | c in p.pool) + p.used.Values), Ok(()))
  }

  // ---------- runs ----------

  /** What the users hold, counted over all successful `getconn` and `putconn` calls. */
  datatype System = System(p: Pool, held: multiset<Conn>)

  datatype Op =
    | GetConn(key: Option<Key>, fails: bool)
    | PutConn(c: Conn, key: Option<Key>, close: bool, status: Status, fails: bool)
    | CloseAllConns
    | Dies(c: Conn)

  /** A putback that names a key names the connection's own. */
  predicate Honest(p: Pool, op: Op) { op.PutConn? && op.key.Some? ==> op.c in p.rused && p.rused[op.c] == op.key.value }

  function Do(s: System, op: Op): System {
    match op
    case GetConn(key, fails) =>
      var (q, r) := Get(s.p, key, fails);
      System(q, if r.Ok? then s.held + multiset{r.value} else s.held)
    case PutConn(c, key, close, status, fails) =>
      var (q, r) := Put(s.p, c, key, close, status, fails);
      System(q, if r.Ok? then s.held - multiset{c} else s.held)
    case CloseAllConns => s.(p := CloseAll(s.p).0)
    case Dies(c) => s.(p := s.p.(over := s.p.over + {c}))
  }

  predicate Run(s: System, ops: seq<Op>)
    decreases |ops|
  {
    ops != [] ==> Honest(s.p, ops[0]) && Run(Do(s, ops[0]), ops[1..])
  }

  function After(s: System, ops: seq<Op>): System
    decreases |ops|
  {
    if ops == [] then s else After(Do(s, ops[0]), ops[1..])
  }

  // ---------- the invariant ----------

  predicate Uses(used: map<Key, Conn>, k: Key, c: Conn) { k in used && used[k] == c }

  predicate Names(rused: map<Conn, Key>, c: Conn, k: Key) { c in rused && rused[c] == k }

  /** `_used` and `_rused` are inverse to each other. */
  ghost predicate Inverses(used: map<Key, Conn>, rused: map<Conn, Key>) {
    forall k, c: Conn :: Uses(used, k, c) <==> Names(rused, c, k)
  }

  lemma InversesAt(used: map<Key, Conn>, rused: map<Conn, Key>, k: Key, c: Conn)
    requires Inverses(used, rused)
    ensures Uses(used, k, c) <==> Names(rused, c, k)
  {
  }

  predicate DisjointParts(p: Pool) {
    && (forall i, j :: 0 <= i < j < |p.pool| ==> p.pool[i] != p.pool[j])
    && (forall i :: 0 <= i < |p.pool| ==> p.pool[i] !in p.rused && p.pool[i] < p.created)
    && (forall c :: c in p.rused ==> c < p.created)
  }

  ghost predicate Accounted(p: Pool) { forall c: Conn :: c < p.created ==> c in p.pool || c in p.rused || c in p.over }

  predicate Bounded(p: Pool) { |p.pool| <= p.minconn <= p.maxconn && |p.pool| + |p.used| <= p.maxconn }

  ghost predicate Inv(p: Pool) { Inverses(p.used, p.rused) && DisjointParts(p) && Accounted(p) && Bounded(p) }

  lemma NewPoolInv(minconn: nat, maxconn: nat)
    requires minconn <= maxconn
    ensures Inv(NewPool(minconn, maxconn))
  {
    var p := NewPool(minconn, maxconn);
    forall c: Conn | c < p.created ensures c in p.pool { assert p.pool[c] == c; }
  }

  lemma AssignInverts(used: map<Key, Conn>, rused: map<Conn, Key>, k: Key, c: Conn)
    requires Inverses(used, rused) && k !in used && c !in rused
    ensures Inverses(used[k := c], rused[c := k]) && |used[k := c]| == |used| + 1
  {
    assert used[k := c].Keys == used.Keys + {k};
    var u, r := used[k := c], rused[c := k];
    forall x, d: Conn ensures Uses(u, x, d) <==> Names(r, d, x) {
      hide Inverses;
      InversesAt(used, rused, x, d);
      InversesAt(used, rused, x, c);
      InversesAt(used, rused, k, d);
    }
  }

  lemma ReleaseInverts(used: map<Key, Conn>, rused: map<Conn, Key>, c: Conn)
    requires Inverses(used, rused) && c in rused
    ensures var k := rused[c]; k in used && used[k] == c && Inverses(used - {k}, rused - {c}) && |used - {k}| == |used| - 1
  {
    var k := rused[c];
    InversesAt(used, rused, k, c);
    assert (used - {k}).Keys == used.Keys - {k};
    var u, r := used - {k}, rused - {c};
    forall x, d: Conn ensures Uses(u, x, d) <==> Names(r, d, x) {
      hide Inverses;
      InversesAt(used, rused, x, d);
      InversesAt(used, rused, x, c);
      InversesAt(used, rused, k, d);
    }
  }

  lemma AssignKeeps(p: Pool, k: Key, c: Conn)
    requires Inverses(p.used, p.rused) && DisjointParts(p) && k !in p.used && c !in p.rused && c !in p.pool && c < p.created
    requires forall d: Conn :: d < p.created ==> d == c || d in p.pool || d in p.rused || d in p.over
    ensures var q := Assign(p, k, c); Inverses(q.used, q.rused) && DisjointParts(q) && Accounted(q) && |q.used| == |p.used| + 1
  {
    AssignInverts(p.used, p.rused, k, c);
    hide Inverses;
  }

  lemma TakeFromPoolKeeps(p: Pool, k: Key)
    requires Inv(p) && k !in p.used && p.pool != []
    ensures Inv(Assign(p.(pool := p.pool[..|p.pool| - 1]), k, p.pool[|p.pool| - 1]))
  {
    hide Inverses;
    var q, c := p.(pool := p.pool[..|p.pool| - 1]), p.pool[|p.pool| - 1];
    AssignKeeps(q, k, c);
  }

  lemma ConnectKeeps(p: Pool, k: Key)
    requires Inv(p) && k !in p.used && p.pool == [] && |p.used| != p.maxconn
    ensures Inv(Assign(p.(created := p.created + 1), k, p.created))
  {
    hide Inverses;
    AssignKeeps(p.(created := p.created + 1), k, p.created);
  }

  lemma CounterKeeps(p: Pool)
    requires Inv(p)
    ensures Inv(p.(keys := p.keys + 1))
  {
    hide Inverses;
  }

  lemma GetAtKeeps(p: Pool, k: Key, fails: bool)
    requires Inv(p)
    ensures Inv(GetAt(p, k, fails).0)
  {
    hide Inv, Assign;
    if k !in p.used && p.pool != [] {
      TakeFromPoolKeeps(p, k);
    } else if k !in p.used && |p.used| != p.maxconn {
      ConnectKeeps(p, k);
    }
  }

  lemma GetKeepsInv(p: Pool, key: Option<Key>, fails: bool)
    requires Inv(p)
    ensures Inv(Get(p, key, fails).0)
  {
    hide Inv, GetAt;
    match key
    case None =>
      CounterKeeps(p);
      GetAtKeeps(p.(keys := p.keys + 1), Number(p.keys + 1), fails);
    case Some(k) => GetAtKeeps(p, k, fails);
  }

  /** Between the two halves of `putconn` the connection is in the pool, or over, and still used. */
  lemma PutAwayKeeps(p: Pool, c: Conn, close: bool, status: Status, fails: bool)
    requires Inv(p) && c in p.rused && PutAway(p, c, close, status, fails).Some?
    ensures var q := PutAway(p, c, close, status, fails).value;
      && Inverses(q.used, q.rused) && Accounted(q) && (c in q.pool || c in q.over)
      && q == p.(pool := q.pool, over := q.over)
      && (q.pool == p.pool || (q.pool == p.pool + [c] && |q.pool| <= p.minconn))
  {
    var q := PutAway(p, c, close, status, fails).value;
  }

  lemma PutKeepsInv(p: Pool, c: Conn, key: Option<Key>, close: bool, status: Status, fails: bool)
    requires Inv(p) && (key.Some? ==> c in p.rused && p.rused[c] == key.value)
    ensures Inv(Put(p, c, key, close, status, fails).0)
  {
    hide PutAway, Inverses;
    if !p.closed && c in p.rused && PutAway(p, c, close, status, fails).Some? {
      PutAwayKeeps(p, c, close, status, fails);
      ReleaseInverts(p.used, p.rused, c);
    }
  }

  /** An honest putback never fails half-way: there is an entry to delete in both maps. */
  lemma HonestPutHasNoKeyError(p: Pool, c: Conn, key: Option<Key>, close: bool, status: Status, fails: bool)
    requires Inverses(p.used, p.rused) && (key.Some? ==> c in p.rused && p.rused[c] == key.value)
    ensures Put(p, c, key, close, status, fails).1 != Err(KeyError)
  {
    if c in p.rused { InversesAt(p.used, p.rused, p.rused[c], c); }
    hide Inverses;
  }

  lemma MoreOverKeeps(p: Pool, closed: bool, over: set<Conn>)
    requires Inv(p) && p.over <= over
    ensures Inv(p.(closed := closed, over := over))
  {
    hide Inverses;
  }

  lemma CloseAllKeepsInv(p: Pool)
    requires Inv(p)
    ensures Inv(CloseAll(p).0)
    ensures !p.closed ==> forall c: Conn :: c < p.created ==> c in CloseAll(p).0.over
  {
    MoreOverKeeps(p, true, CloseAll(p).0.over);
    forall c: Conn | c in p.rused ensures c in p.used.Values { InversesAt(p.used, p.rused, p.rused[c], c); }
    hide Inverses, DisjointParts, Bounded;
  }

  // ---------- theorems ----------

  lemma StepKeepsInv(s: System, op: Op)
    requires Inv(s.p) && Honest(s.p, op)
    ensures Inv(Do(s, op).p)
  {
    hide Inv, Get, Put;
    match op
    case GetConn(key, fails) => GetKeepsInv(s.p, key, fails);
    case PutConn(c, key, close, status, fails) => PutKeepsInv(s.p, c, key, close, status, fails);
    case CloseAllConns => CloseAllKeepsInv(s.p);
    case Dies(c) => MoreOverKeeps(s.p, s.p.closed, s.p.over + {c});
  }

  /**
   In every reachable state the two maps are inverse to each other, the free connections are used by nobody
   and stand in the pool once each, the numbers are within their limits and no connection is forgotten.
   */
  lemma {:induction false} ReachableStatesAreSound(s: System, ops: seq<Op>)
    requires Inv(s.p) && Run(s, ops)
    ensures Inv(After(s, ops).p)
    decreases |ops|
  {
    hide Inv, Do, Honest;
    if ops != [] {
      StepKeepsInv(s, ops[0]);
      ReachableStatesAreSound(Do(s, ops[0]), ops[1..]);
    }
  }

  /** Only keys of the pool's own making. */
  predicate AutoKeyed(ops: seq<Op>) {
    forall i :: 0 <= i < |ops| ==> (ops[i].GetConn? || ops[i].PutConn?) ==> ops[i].key.None?
  }

  predicate OwnKeys(p: Pool) { forall k :: k in p.used ==> k.Number? && 0 < k.n <= p.keys }

  /** Each connection is held once per user, and has one user at most. */
  ghost predicate HeldOnce(held: multiset<Conn>, rused: map<Conn, Key>) {
    forall c: Conn :: held[c] == if c in rused then 1 else 0
  }

  ghost predicate HeldInv(s: System) { Inv(s.p) && OwnKeys(s.p) && HeldOnce(s.held, s.p.rused) }

  lemma HeldMore(held: multiset<Conn>, rused: map<Conn, Key>, c: Conn, k: Key)
    requires HeldOnce(held, rused) && c !in rused
    ensures HeldOnce(held + multiset{c}, rused[c := k])
  {
  }

  lemma HeldLess(held: multiset<Conn>, rused: map<Conn, Key>, c: Conn)
    requires HeldOnce(held, rused) && c in rused
    ensures HeldOnce(held - multiset{c}, rused - {c})
  {
  }

  lemma AutoGetIsFresh(p: Pool, fails: bool)
    requires Inv(p) && OwnKeys(p)
    ensures var (q, r) := Get(p, None, fails);
      && OwnKeys(q)
      && (r.Err? ==> q.rused == p.rused)
      && (r.Ok? ==> r.value !in p.rused && q.rused == p.rused[r.value := Number(p.keys + 1)])
  {
    hide Accounted, Bounded;
    assert Number(p.keys + 1) !in p.used;
    hide Inverses;
  }

  lemma PutIsLocal(p: Pool, c: Conn, close: bool, status: Status, fails: bool)
    requires Inv(p)
    ensures var (q, r) := Put(p, c, None, close, status, fails);
      && (OwnKeys(p) ==> OwnKeys(q))
      && (r.Err? ==> q.rused == p.rused)
      && (r.Ok? ==> c in p.rused && q.rused == p.rused - {c})
  {
    if c in p.rused { InversesAt(p.used, p.rused, p.rused[c], c); }
    hide Accounted, Bounded, DisjointParts, Inverses;
  }

  lemma AutoGetKeepsHeld(s: System, fails: bool)
    requires HeldInv(s)
    ensures HeldInv(Do(s, GetConn(None, fails)))
  {
    StepKeepsInv(s, GetConn(None, fails));
    AutoGetIsFresh(s.p, fails);
    hide Inv, Get, OwnKeys, HeldOnce;
    var r := Get(s.p, None, fails).1;
    if r.Ok? { HeldMore(s.held, s.p.rused, r.value, Number(s.p.keys + 1)); }
  }

  lemma AutoStepKeepsHeld(s: System, op: Op)
    requires HeldInv(s) && Honest(s.p, op) && AutoKeyed([op])
    ensures HeldInv(Do(s, op))
  {
    StepKeepsInv(s, op);
    assert [op][0] == op;
    hide Inv, Get, Put, OwnKeys, HeldOnce;
    match op
    case GetConn(_, fails) => AutoGetKeepsHeld(s, fails);
    case PutConn(c, _, close, status, fails) =>
      PutIsLocal(s.p, c, close, status, fails);
      if c in s.p.rused { HeldLess(s.held, s.p.rused, c); }
    case CloseAllConns => SameKeys(s.p, CloseAll(s.p).0);
    case Dies(c) => SameKeys(s.p, s.p.(over := s.p.over + {c}));
  }

  lemma SameKeys(p: Pool, q: Pool)
    requires q.used == p.used && q.keys == p.keys
    ensures OwnKeys(p) ==> OwnKeys(q)
  {
  }

  /** With keys of the pool's own making, no connection is ever held twice. */
  lemma {:induction false} NoSharing(s: System, ops: seq<Op>, c: Conn)
    requires HeldInv(s) && Run(s, ops) && AutoKeyed(ops)
    ensures HeldInv(After(s, ops)) && After(s, ops).held[c] <= 1
    decreases |ops|
  {
    hide Inv, Do, Honest;
    if ops != [] {
      assert AutoKeyed([ops[0]]) && AutoKeyed(ops[1..]);
      AutoStepKeepsHeld(s, ops[0]);
      NoSharing(Do(s, ops[0]), ops[1..], c);
    }
  }

  /** From a new pool; and once `closeall` has been called, every connection ever created is over. */
  lemma PoolIsSafe(minconn: nat, maxconn: nat, ops: seq<Op>, c: Conn)
    requires minconn <= maxconn
    requires var s := System(NewPool(minconn, maxconn), multiset{}); Run(s, ops)
    ensures var t := After(System(NewPool(minconn, maxconn), multiset{}), ops);
      && Inv(t.p)
      && (AutoKeyed(ops) ==> t.held[c] <= 1)
      && (t.p.closed && c < t.p.created ==> c in t.p.over)
  {
    var s := System(NewPool(minconn, maxconn), multiset{});
    NewPoolInv(minconn, maxconn);
    ReachableStatesAreSound(s, ops);
    if AutoKeyed(ops) { NoSharing(s, ops, c); }
    ClosedMeansOver(s, ops);
  }

  ghost predicate AllOver(p: Pool) { p.closed ==> forall c: Conn :: c < p.created ==> c in p.over }

  lemma {:induction false} ClosedMeansOver(s: System, ops: seq<Op>)
    requires Inv(s.p) && AllOver(s.p) && Run(s, ops)
    ensures AllOver(After(s, ops).p)
    decreases |ops|
  {
    hide Inv, Honest;
    if ops != [] {
      StepKeepsInv(s, ops[0]);
      StepKeepsAllOver(s, ops[0]);
      ClosedMeansOver(Do(s, ops[0]), ops[1..]);
    }
  }

  lemma StepKeepsAllOver(s: System, op: Op)
    requires Inv(s.p) && AllOver(s.p)
    ensures AllOver(Do(s, op).p)
  {
    if op.CloseAllConns? { CloseAllKeepsInv(s.p); }
  }

  /** A key is taken from another connection: that one keeps its name and loses its entry. */
  lemma WrongKeyBreaks(p: Pool, q: Pool, c: Conn, k: Key)
    requires Inverses(p.used, p.rused) && k in p.used && p.used[k] != c
    requires q.used == p.used - {k} && (q.rused == p.rused || q.rused == p.rused - {c})
    ensures !Inverses(q.used, q.rused)
  {
    var d := p.used[k];
    InversesAt(p.used, p.rused, k, d);
    assert Names(q.rused, d, k) && !Uses(q.used, k, d);
    if Inverses(q.used, q.rused) { InversesAt(q.used, q.rused, k, d); }
  }

  /** A connection that goes to the pool without leaving a key was there already, is used, or is not the pool's. */
  lemma StrayBreaks(p: Pool, q: Pool, c: Conn)
    requires DisjointParts(p) && Accounted(p) && c !in p.over && q == p.(pool := p.pool + [c])
    ensures !DisjointParts(q)
  {
    var n := |p.pool|;
    assert q.pool[n] == c;
    if c in p.pool {
      var i :| 0 <= i < n && p.pool[i] == c;
      assert q.pool[i] == q.pool[n];
    }
  }

  /**
   Which putbacks with a key keep the pool sound: exactly those where the database has to be asked and raises, before
   anything is changed; where the key is the connection's own; and where the key is unknown and the connection is
   closed, now or before, and so does not go to the pool.
   */
  lemma PutKeepsInvIff(p: Pool, c: Conn, k: Key, close: bool, status: Status, fails: bool)
    requires Inv(p) && !p.closed
    ensures
      Inv(Put(p, c, Some(k), close, status, fails).0) <==>
        || (fails && (|p.pool| >= p.minconn || close || (c !in p.over && status != Idle)))
        || (c in p.rused && p.rused[c] == k)
        || (k !in p.used && (|p.pool| >= p.minconn || close || c in p.over || status == Unknown))
  {
    var away := PutAway(p, c, close, status, fails);
    var r := Put(p, c, Some(k), close, status, fails).0;
    if away.Some? && !(c in p.rused && p.rused[c] == k) {
      var q := away.value;
      if k in p.used {
        InversesAt(p.used, p.rused, k, c);
        WrongKeyBreaks(p, r, c, k);
      } else if q.pool != p.pool {
        StrayBreaks(p, q, c);
      } else {
        MoreOverKeeps(p, p.closed, q.over);
      }
    } else if away.Some? {
      PutKeepsInv(p, c, Some(k), close, status, fails);
    }
    hide Inverses, DisjointParts, Accounted;
  }

  /** Why putbacks must name the connection's own key: put back twice with its old key, a connection is handed out twice. */
  lemma PuttingBackTwiceShares()
    ensures var k1, k2 := Name("a"), Name("b");
      var (p1, c1) := Get(NewPool(2, 2), Some(k1), false);
      var (p2, c2) := Get(p1, Some(k2), false);
      && c1.Ok? && c2.Ok?
      && var (p3, r3) := Put(p2, c1.value, Some(k1), false, Idle, false);
         var (p4, r4) := Put(p3, c1.value, Some(k1), false, Idle, false);
         var (p5, c5) := Get(p4, None, false);
         var (p6, c6) := Get(p5, None, false);
         r3 == Ok(()) && r4 == Err(KeyError) && c5 == c6 == c1
  {
    var p := NewPool(2, 2);
    assert p.pool == [0, 1];
    var p2 := Get(Get(p, Some(Name("a")), false).0, Some(Name("b")), false).0;
    assert p2.pool == [] && p2.rused == map[1 := Name("a"), 0 := Name("b")] && p2.used == map[Name("a") := 1, Name("b") := 0];
    var p4 := Put(Put(p2, 1, Some(Name("a")), false, Idle, false).0, 1, Some(Name("a")), false, Idle, false).0;
    assert p4.pool == [1, 1] && p4.used == map[Name("b") := 0];
  }

  // ---------- the object ----------

  /** The free list of the pool holds what the database has created and the pool keeps. */
  class AbstractConnectionPool {
    const minconn: nat
    const maxconn: nat
    var closed: bool
    var pool: seq<Conn>
    var used: map<Key, Conn>
    var rused: map<Conn, Key>
    var keys: nat
    var created: nat
    var over: set<Conn>

    constructor (minconn: nat, maxconn: nat)
      ensures View() == NewPool(minconn, maxconn)
    {
      this.minconn, this.maxconn, closed, used, rused, keys, over := minconn, maxconn, false, map[], map[], 0, {};
      pool, created := [], 0;
      new;
      for i := 0 to minconn
        invariant created == i && pool == seq(i, j requires 0 <= j => j)
        invariant !closed && used == map[] && rused == map[] && keys == 0 && over == {}
      {
        var _ := Connect(None);
      }
    }

    function View(): Pool
      reads this
    {
      Pool(minconn, maxconn, closed, pool, used, rused, keys, created, over)
    }

    method Connect(key: Option<Key>) returns (c: Conn)
      modifies this
      ensures c == old(created)
      ensures View() == match key
        case Some(k) => Assign(old(View()).(created := c + 1), k, c)
        case None => old(View()).(created := c + 1, pool := old(pool) + [c])
    {
      c := created;
      created := created + 1;
      match key {
        case Some(k) =>
          used := used[k := c];
          rused := rused[c := k];
        case None => pool := pool + [c];
      }
    }

    method GetKey() returns (k: Key)
      modifies this`keys
      ensures k == Number(old(keys) + 1) && keys == old(keys) + 1
    {
      keys := keys + 1;
      return Number(keys);
    }

    method GetConn(key: Option<Key>, fails: bool) returns (r: Result<Conn, Error>)
      modifies this
      ensures (View(), r) == Get(old(View()), key, fails)
    {
      if closed { return Err(PoolClosed); }
      var k;
      if key.None? { k := GetKey(); } else { k := key.value; }
      if k in used { return Ok(used[k]); }
      if pool != [] {
        var c := pool[|pool| - 1];
        pool := pool[..|pool| - 1];
        used := used[k := c];
        rused := rused[c := k];
        return Ok(c);
      }
      if |used| == maxconn { return Err(PoolExhausted); }
      if fails { return Err(DatabaseError); }
      var c := Connect(Some(k));
      return Ok(c);
    }

    method PutConn(c: Conn, key: Option<Key>, close: bool, status: Status, fails: bool) returns (r: Result<(), Error>)
      modifies this
      ensures (View(), r) == Put(old(View()), c, key, close, status, fails)
    {
      if closed { return Err(PoolClosed); }
      var k;
      if key.None? {
        if c !in rused { return Err(UnkeyedConnection); }
        k := rused[c];
      } else {
        k := key.value;
      }
      if |pool| < minconn && !close {
        if c !in over {
          match status {
            case Unknown =>
              if fails { return Err(DatabaseError); }
              over := over + {c};
            case InTransaction =>
              if fails { return Err(DatabaseError); }
              pool := pool + [c];
            case Idle => pool := pool + [c];
          }
        }
      } else {
        if fails { return Err(DatabaseError); }
        over := over + {c};
      }
      if !closed || k in used {
        if k !in used { return Err(KeyError); }
        used := used - {k};
        if c !in rused { return Err(KeyError); }
        rused := rused - {c};
      }
      return Ok(());
    }

    method CloseAllConns() returns (r: Result<(), Error>)
      modifies this
      ensures (View(), r) == CloseAll(old(View()))
    {
      if closed { return Err(PoolClosed); }
      var values := Values(used);
      var conns := pool + values;
      CloseEach(conns);
      closed := true;
      assert (set c | c in conns) == (set c | c in pool) + used.Values;
      assert over == old(over) + (set c | c in pool) + used.Values;
      return Ok(());
    }

    method CloseEach(conns: seq<Conn>)
      modifies this`over
      ensures over == old(over) + set c | c in conns
    {
      for i := 0 to |conns|
        invariant forall c :: c in over <==> c in old(over) || c in conns[..i]
      {
        over := over + {conns[i]};
        assert conns[..i + 1] == conns[..i] + [conns[i]];
      }
      assert conns[..|conns|] == conns;
    }
  }

  method Values(m: map<Key, Conn>) returns (s: seq<Conn>)
    ensures (set c | c in s) == m.Values
  {
    s := [];
    var left := m;
    while left != map[]
      invariant left.Keys <= m.Keys && forall k :: k in left ==> left[k] == m[k]
      invariant forall c :: c in s || c in left.Values <==> c in m.Values
      decreases |left|
    {
      var k :| k in left;
      s := s + [left[k]];
      assert (left - {k}).Keys == left.Keys - {k};
      left := left - {k};
    }
  }
}
