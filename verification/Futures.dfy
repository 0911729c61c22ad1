/**
 Futures (future.py): one thread completes the future, any number of threads register callbacks and
 errbacks. A step is what one thread does under the future's lock, or one call of a callback.
 */
module Futures {
  import opened Wrappers

  datatype Kind = Callback | Errback

  /** `value` stands for the value of a success and for the exception of a failure. */
  datatype Completion<V> = Completion(kind: Kind, value: V)

  datatype Call<V> = Call(id: nat, value: V)

  /** The completing thread: still to come, about to make the k-th call, or stopped by a callback that raised. */
  datatype Completer = Idle | Firing(next: nat) | Aborted(next: nat)

  /** Registrations are numbered in the order of their `add_callback`/`add_errback` sections. */
  datatype State<V> = State(
    completion: Option<Completion<V>>,
    added: seq<Kind>,
    callbacks: seq<nat>,
    errbacks: seq<nat>,
    completer: Completer,
    calling: set<nat>,
    calls: seq<Call<V>>)

  datatype Step<V> =
    | Complete(kind: Kind, value: V)
    | CallNext(raises: bool)
    | Add(kind: Kind)
    | CallAdded(id: nat)

  function Empty<V>(): State<V> { State(None, [], [], [], Idle, {}, []) }

  function Backs<V>(s: State<V>, k: Kind): seq<nat> { if k.Callback? then s.callbacks else s.errbacks }

  /** With `error_on_callbacks` a callback that raises stops the thread that calls. */
  predicate Enabled<V>(s: State<V>, a: Step<V>) {
    match a
    case Complete(_, _) => s.completion.None? && s.completer.Idle?
    case CallNext(_) => s.completion.Some? && s.completer.Firing? && s.completer.next < |Backs(s, s.completion.value.kind)|
    case Add(_) => true
    case CallAdded(id) => s.completion.Some? && id in s.calling
  }

  function Do<V>(s: State<V>, a: Step<V>, errorOnCallbacks: bool): State<V>
    requires Enabled(s, a)
  {
    match a
    case Complete(kind, value) => s.(completion := Some(Completion(kind, value)), completer := Firing(0))
    case CallNext(raises) =>
      var c := s.completion.value;
      var k := s.completer.next;
      s.(calls := s.calls + [Call(Backs(s, c.kind)[k], c.value)],
         completer := if errorOnCallbacks && raises then Aborted(k + 1) else Firing(k + 1))
    case Add(kind) =>
      var id, t := |s.added|, s.(added := s.added + [kind]);
      if s.completion.None? then
        if kind.Callback? then t.(callbacks := s.callbacks + [id]) else t.(errbacks := s.errbacks + [id])
      else if s.completion.value.kind == kind then t.(calling := s.calling + {id})
      else t
    case CallAdded(id) => s.(calling := s.calling - {id}, calls := s.calls + [Call(id, s.completion.value.value)])
  }

  predicate Run<V>(s: State<V>, steps: seq<Step<V>>, errorOnCallbacks: bool)
    decreases |steps|
  {
    steps != [] ==> Enabled(s, steps[0]) && Run(Do(s, steps[0], errorOnCallbacks), steps[1..], errorOnCallbacks)
  }

  function After<V>(s: State<V>, steps: seq<Step<V>>, errorOnCallbacks: bool): State<V>
    requires Run(s, steps, errorOnCallbacks)
    decreases |steps|
  {
    if steps == [] then s else After(Do(s, steps[0], errorOnCallbacks), steps[1..], errorOnCallbacks)
  }

  /** A callback that raises stops the calls if it is to, and only then: the thread goes on to the next, if there is one. */
  lemma GoesOnIff<V>(s: State<V>, raises: bool, next: bool, errorOnCallbacks: bool)
    requires Enabled(s, CallNext(raises))
    ensures var t := Do(s, CallNext(raises), errorOnCallbacks);
      Enabled(t, CallNext(next)) <==> !(errorOnCallbacks && raises) && s.completer.next + 1 < |Backs(s, s.completion.value.kind)|
  {
  }

  /** After that the thread calls none any more. */
  lemma {:induction false} StoppedForGood<V>(s: State<V>, steps: seq<Step<V>>, errorOnCallbacks: bool)
    requires s.completer.Aborted? && Run(s, steps, errorOnCallbacks)
    ensures forall i :: 0 <= i < |steps| ==> !steps[i].CallNext?
    decreases |steps|
  {
    if steps != [] { StoppedForGood(Do(s, steps[0], errorOnCallbacks), steps[1..], errorOnCallbacks); }
  }

  function Times<V>(calls: seq<Call<V>>, id: nat): nat {
    if calls == [] then 0
    else Times(calls[..|calls| - 1], id) + if calls[|calls| - 1].id == id then 1 else 0
  }

  lemma TimesSnoc<V>(calls: seq<Call<V>>, c: Call<V>, id: nat)
    ensures Times(calls + [c], id) == Times(calls, id) + if c.id == id then 1 else 0
  {
    assert (calls + [c])[..|calls|] == calls;
  }

  predicate Lists(backs: seq<nat>, id: nat, k: nat) { k < |backs| && backs[k] == id }

  ghost predicate IsListed(backs: seq<nat>, id: nat) { exists k: nat :: Lists(backs, id, k) }

  lemma ListsSnoc(backs: seq<nat>, x: nat, id: nat)
    ensures forall k: nat :: Lists(backs + [x], id, k) <==> Lists(backs, id, k) || (k == |backs| && id == x)
    ensures IsListed(backs + [x], id) <==> IsListed(backs, id) || id == x
  {
    assert Lists(backs + [x], x, |backs|);
    forall k: nat | Lists(backs, id, k) ensures Lists(backs + [x], id, k) {}
  }

  lemma IsNotListed(backs: seq<nat>, added: seq<Kind>, kind: Kind, calling: set<nat>, id: nat)
    requires Listed(backs, added, kind, calling) && id >= |added|
    ensures !IsListed(backs, id)
  {
  }

  predicate Listed(backs: seq<nat>, added: seq<Kind>, kind: Kind, calling: set<nat>) {
    && (forall k :: 0 <= k < |backs| ==> backs[k] < |added| && added[backs[k]] == kind && backs[k] !in calling)
    && (forall j, k :: 0 <= j < k < |backs| ==> backs[j] != backs[k])
  }

  function Fired<V>(s: State<V>): nat { if s.completer.Idle? then 0 else s.completer.next }

  /** How often a registration has been called. */
  ghost predicate CountInv<V>(s: State<V>, id: nat)
    requires id < |s.added|
  {
    var n := Times(s.calls, id);
    var backs := Backs(s, s.added[id]);
    if s.completion.None? then n == 0 && IsListed(backs, id)
    else if s.completion.value.kind != s.added[id] then n == 0
    else
      && (forall k: nat :: Lists(backs, id, k) ==> n == if k < Fired(s) then 1 else 0)
      && (!IsListed(backs, id) ==> n == if id in s.calling then 0 else 1)
  }

  ghost predicate Inv<V>(s: State<V>) {
    && Listed(s.callbacks, s.added, Callback, s.calling) && Listed(s.errbacks, s.added, Errback, s.calling)
    && (s.completion.None? <==> s.completer.Idle?)
    && (s.completion.None? ==> s.calling == {} && s.calls == [])
    && (s.completion.Some? ==> Fired(s) <= |Backs(s, s.completion.value.kind)|)
    && (forall id :: id in s.calling ==> id < |s.added| && s.completion.Some? && s.added[id] == s.completion.value.kind)
    && (forall i :: 0 <= i < |s.calls| ==> s.completion.Some? && s.calls[i].id < |s.added| &&
                                           s.calls[i].value == s.completion.value.value)
    && (forall id :: 0 <= id < |s.added| ==> CountInv(s, id))
  }

  lemma {:induction false} NeverCalled<V>(calls: seq<Call<V>>, id: nat)
    requires forall i :: 0 <= i < |calls| ==> calls[i].id != id
    ensures Times(calls, id) == 0
  {
    if calls != [] { NeverCalled(calls[..|calls| - 1], id); }
  }

  lemma CompleteKeeps<V>(s: State<V>, a: Step<V>, e: bool)
    requires Inv(s) && Enabled(s, a) && a.Complete?
    ensures Inv(Do(s, a, e))
  {
    var t := Do(s, a, e);
    forall id | 0 <= id < |t.added| ensures CountInv(t, id) { assert CountInv(s, id); }
  }

  lemma AddKeeps<V>(s: State<V>, kind: Kind, e: bool)
    requires Inv(s)
    ensures Inv(Do(s, Add(kind), e))
  {
    var t := Do(s, Add(kind), e);
    var latest := |s.added|;
    forall id | 0 <= id < |t.added| ensures CountInv(t, id) { AddKeepsCount(s, kind, e, id); }
    AddKeepsListed(s.callbacks, s.added, Callback, s.calling, kind);
    AddKeepsListed(s.errbacks, s.added, Errback, s.calling, kind);
    hide CountInv, Listed;
  }

  lemma AddKeepsListed(backs: seq<nat>, added: seq<Kind>, kind: Kind, calling: set<nat>, k: Kind)
    requires Listed(backs, added, kind, calling)
    ensures Listed(backs, added + [k], kind, calling) && Listed(backs, added + [k], kind, calling + {|added|})
    ensures k == kind && |added| !in calling ==> Listed(backs + [|added|], added + [k], kind, calling)
  {
  }

  lemma AddKeepsCount<V>(s: State<V>, kind: Kind, e: bool, id: nat)
    requires Inv(s) && id <= |s.added|
    ensures CountInv(Do(s, Add(kind), e), id)
  {
    if id == |s.added| { NewCount(s, kind, e); } else { OldCount(s, kind, e, id); }
  }

  lemma NewCount<V>(s: State<V>, kind: Kind, e: bool)
    requires Inv(s)
    ensures CountInv(Do(s, Add(kind), e), |s.added|)
  {
    var id, backs := |s.added|, Backs(s, kind);
    NeverCalled(s.calls, id);
    ListsSnoc(backs, id, id);
    IsNotListed(backs, s.added, kind, s.calling, id);
    hide Times, Lists, IsListed, Listed, Inv;
    forall k: nat | Lists(backs, id, k) ensures false { ListedIs(backs, id, k); }
  }

  lemma OldCount<V>(s: State<V>, kind: Kind, e: bool, id: nat)
    requires Inv(s) && id < |s.added|
    ensures CountInv(Do(s, Add(kind), e), id)
  {
    assert CountInv(s, id);
    ListsSnoc(Backs(s, kind), |s.added|, id);
    hide Times, Lists, IsListed, Listed;
  }

  lemma ListedIs(backs: seq<nat>, id: nat, k: nat)
    requires Lists(backs, id, k)
    ensures IsListed(backs, id)
  {
  }

  lemma CallAddedKeeps<V>(s: State<V>, id': nat, e: bool)
    requires Inv(s) && Enabled(s, CallAdded(id'))
    ensures Inv(Do(s, CallAdded(id'), e))
  {
    hide Times;
    var t := Do(s, CallAdded(id'), e);
    forall id | 0 <= id < |t.added| ensures CountInv(t, id) {
      assert CountInv(s, id);
      TimesSnoc(s.calls, Call(id', s.completion.value.value), id);
    }
  }

  lemma CallNextKeeps<V>(s: State<V>, raises: bool, e: bool)
    requires Inv(s) && Enabled(s, CallNext(raises))
    ensures Inv(Do(s, CallNext(raises), e))
  {
    var t := Do(s, CallNext(raises), e);
    forall id | 0 <= id < |t.added| ensures CountInv(t, id) { CallNextKeepsCount(s, raises, e, id); }
    hide CountInv;
  }

  lemma CallNextKeepsCount<V>(s: State<V>, raises: bool, e: bool, id: nat)
    requires Inv(s) && Enabled(s, CallNext(raises)) && id < |s.added|
    ensures CountInv(Do(s, CallNext(raises), e), id)
  {
    var c, n := s.completion.value, s.completer.next;
    var backs := Backs(s, c.kind);
    assert CountInv(s, id);
    assert Lists(backs, backs[n], n) && s.added[backs[n]] == c.kind;
    ListedIs(backs, backs[n], n);
    ListedOnce(backs, s.added, c.kind, s.calling, n);
    TimesSnoc(s.calls, Call(backs[n], c.value), id);
    hide Times, IsListed, Listed, Lists, Inv;
  }

  lemma ListedOnce(backs: seq<nat>, added: seq<Kind>, kind: Kind, calling: set<nat>, n: nat)
    requires Listed(backs, added, kind, calling) && n < |backs|
    ensures forall k: nat :: Lists(backs, backs[n], k) ==> k == n
    ensures forall id: nat :: Lists(backs, id, n) ==> id == backs[n]
  {
  }

  lemma {:induction false} RunKeepsInv<V>(s: State<V>, steps: seq<Step<V>>, e: bool)
    requires Inv(s) && Run(s, steps, e)
    ensures Inv(After(s, steps, e))
    decreases |steps|
  {
    hide Inv, Enabled, Do;
    if steps != [] {
      var a := steps[0];
      match a {
        case Complete(_, _) => CompleteKeeps(s, a, e);
        case CallNext(raises) => CallNextKeeps(s, raises, e);
        case Add(kind) => AddKeeps(s, kind, e);
        case CallAdded(id) => CallAddedKeeps(s, id, e);
      }
      RunKeepsInv(Do(s, a, e), steps[1..], e);
    }
  }

  /** No thread is in the middle of completing or registering. */
  predicate Quiet<V>(s: State<V>) {
    && s.calling == {}
    && (s.completion.Some? ==> s.completer.Aborted? || Fired(s) == |Backs(s, s.completion.value.kind)|)
  }

  /**
   Under any interleaving and at any moment, no registration has been called twice, none of the kind that
   does not match the outcome has been called, and every call got the value of the completion.
   */
  lemma AtMostOnce<V>(steps: seq<Step<V>>, e: bool, id: nat)
    requires Run(Empty(), steps, e) && id < |After(Empty(), steps, e).added|
    ensures var s := After(Empty(), steps, e);
      && Times(s.calls, id) <= 1
      && (s.completion.None? || s.completion.value.kind != s.added[id] ==> Times(s.calls, id) == 0)
      && (forall i :: 0 <= i < |s.calls| ==> s.completion.Some? && s.calls[i].value == s.completion.value.value)
  {
    RunKeepsInv(Empty(), steps, e);
    var s := After(Empty(), steps, e);
    Counted(s, id);
  }

  lemma Counted<V>(s: State<V>, id: nat)
    requires Inv(s) && id < |s.added|
    ensures Times(s.calls, id) <= 1
    ensures s.completion.None? || s.completion.value.kind != s.added[id] ==> Times(s.calls, id) == 0
    ensures s.completion.Some? && s.completion.value.kind == s.added[id] && Quiet(s) ==>
              (Times(s.calls, id) == 1 <==> !Skipped(s, id))
  {
    assert CountInv(s, id);
    var backs := Backs(s, s.added[id]);
    if k: nat :| Lists(backs, id, k) { ListedIs(backs, id, k); }
  }

  /** Registered before the completion, behind the callback that stopped the completing thread. */
  ghost predicate Skipped<V>(s: State<V>, id: nat)
    requires id < |s.added|
  {
    var backs := Backs(s, s.added[id]);
    exists k: nat :: Fired(s) <= k && Lists(backs, id, k)
  }

  lemma {:induction false} NeverAborts<V>(s: State<V>, steps: seq<Step<V>>)
    requires Run(s, steps, false) && !s.completer.Aborted?
    ensures !After(s, steps, false).completer.Aborted?
    decreases |steps|
  {
    if steps != [] { NeverAborts(Do(s, steps[0], false), steps[1..]); }
  }

  /**
   Whatever the interleaving, once no thread is in the middle of anything each callback, added before,
   during or after the completion, has been called exactly once if the future succeeded and never if it
   failed; dually for errbacks.
   */
  lemma ExactlyOnce<V>(steps: seq<Step<V>>, id: nat)
    requires Run(Empty(), steps, false) && id < |After(Empty(), steps, false).added|
    requires Quiet(After(Empty(), steps, false))
    ensures var s := After(Empty(), steps, false);
      Times(s.calls, id) == if s.completion.Some? && s.completion.value.kind == s.added[id] then 1 else 0
  {
    RunKeepsInv(Empty(), steps, false);
    NeverAborts(Empty(), steps);
    Counted(After(Empty(), steps, false), id);
  }

  /** With `error_on_callbacks`, a matching registration is missed exactly when it stands behind one that raised. */
  lemma MissedIffSkipped<V>(steps: seq<Step<V>>, e: bool, id: nat)
    requires Run(Empty(), steps, e) && id < |After(Empty(), steps, e).added|
    requires var s := After(Empty(), steps, e);
      Quiet(s) && s.completion.Some? && s.completion.value.kind == s.added[id]
    ensures var s := After(Empty(), steps, e);
      Times(s.calls, id) == if Skipped(s, id) then 0 else 1
  {
    RunKeepsInv(Empty(), steps, e);
    Counted(After(Empty(), steps, e), id);
  }

  /** `chain`: of the two registrations exactly one is called, and once, so that the other future completes once. */
  lemma ChainCompletesOnce<V>(steps: seq<Step<V>>, onSuccess: nat, onFailure: nat)
    requires Run(Empty(), steps, false) && Quiet(After(Empty(), steps, false))
    requires var s := After(Empty(), steps, false);
      && s.completion.Some? && onSuccess < |s.added| && onFailure < |s.added|
      && s.added[onSuccess].Callback? && s.added[onFailure].Errback?
    ensures var s := After(Empty(), steps, false);
      && Times(s.calls, onSuccess) + Times(s.calls, onFailure) == 1
      && (Times(s.calls, onSuccess) == 1 <==> s.completion.value.kind.Callback?)
  {
    ExactlyOnce(steps, onSuccess);
    ExactlyOnce(steps, onFailure);
  }

  // ---------- the object ----------

  /** Its methods are the steps: what runs under the lock, and the calls made outside it. */
  class Future<V> {
    var isDone: bool
    var kind: Kind
    var value: Option<V>
    var callbacks: seq<nat>
    var errbacks: seq<nat>
    var added: seq<Kind>
    var completer: Completer
    var calling: set<nat>
    var calls: seq<Call<V>>

    constructor ()
      ensures View() == Empty() && Valid()
    {
      isDone, kind, value, callbacks, errbacks := false, Callback, None, [], [];
      added, completer, calling, calls := [], Idle, {}, [];
    }

    ghost predicate Valid()
      reads this
    {
      (isDone <==> value.Some?) && (value.None? <==> completer.Idle?)
    }

    function View(): State<V>
      reads this
    {
      State(if value.Some? then Some(Completion(kind, value.value)) else None, added, callbacks, errbacks, completer, calling, calls)
    }

    predicate Succeeded()
      reads this
    {
      isDone && kind.Callback?
    }

    predicate Failed()
      reads this
    {
      isDone && kind.Errback?
    }

    /** `success` and `failure`, up to the release of the lock; completing twice is an assertion error. */
    method Complete(kind: Kind, v: V)
      requires Valid() && !isDone
      modifies this
      ensures Valid() && View() == Do(old(View()), Step.Complete(kind, v), false)
    {
      this.kind, value := kind, Some(v);
      isDone, completer := true, Firing(0);
    }

    /** One round of the loop in `_call_backs`. */
    method CallNext(raises: bool, errorOnCallbacks: bool)
      requires Valid() && Enabled(View(), Step.CallNext(raises))
      modifies this
      ensures Valid() && View() == Do(old(View()), Step.CallNext(raises), errorOnCallbacks)
    {
      var backs := if kind.Callback? then callbacks else errbacks;
      var f := backs[completer.next];
      calls := calls + [Call(f, value.value)];
      completer := if errorOnCallbacks && raises then Aborted(completer.next + 1) else Firing(completer.next + 1);
    }

    /** `add_callback` and `add_errback`; `now` says that the thread goes on to call it itself. */
    method Add(k: Kind) returns (id: nat, now: bool)
      requires Valid()
      modifies this
      ensures Valid() && View() == Do(old(View()), Step.Add(k), false)
      ensures id == |old(added)| && (now <==> if k.Callback? then Succeeded() else Failed())
    {
      id, now := |added|, false;
      added := added + [k];
      if !isDone {
        if k.Callback? { callbacks := callbacks + [id]; } else { errbacks := errbacks + [id]; }
      } else if (if k.Callback? then Succeeded() else Failed()) {
        calling := calling + {id};
        now := true;
      }
    }

    method CallAdded(id: nat)
      requires Valid() && Enabled(View(), Step.CallAdded(id))
      modifies this
      ensures Valid() && View() == Do(old(View()), Step.CallAdded(id), false)
    {
      calls := calls + [Call(id, value.value)];
      calling := calling - {id};
    }
  }
}
