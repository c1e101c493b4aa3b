/**
 Deletion as a protocol: deletes, reconcilers that read, finalize and write back, other
 writers that read, edit without dropping finalizers and write back, and creations. Any
 number of these may be in flight at once, and a writer may give up. Each access to the store is an action of its
 own, so a delete is the read of the object and what follows from it.
 */
module DeletionRuns {
  import opened Common
  import opened Decimal
  import opened FakeStore
  import opened Finalizers

  /** What was read, and what will be written once it is ready. */
  datatype Round = Round(base: Object, work: Object, ready: bool)

  /** Finalizer x returned success in a round that had read `base`. */
  datatype Success = Success(x: string, base: Object)

  /** A delete that found no finalizers, or no object, when it read. */
  datatype Removal = Removal(key: Key, seen: Option<Object>)

  datatype State = State(store: Store, rounds: map<nat, Round>, removals: map<nat, Removal>, log: seq<Success>)

  datatype Action =
    | Read(id: nat, key: Key)
    | Finalize(id: nat, registered: map<string, Callback>, order: seq<string>)
    | Edit(id: nat, work: Object)
    | Write(id: nat, policy: Policy)
    | Abandon(id: nat)
    | DeleteRead(id: nat, key: Key, now: nat)
    | DeleteRemove(id: nat)
    | UserCreate(o: Object)

  predicate Unused(s: State, id: nat) {
    id !in s.rounds && id !in s.removals
  }

  ghost predicate Enabled(s: State, a: Action) {
    match a
    case Read(id, key) => Unused(s, id) && key in s.store
    case Finalize(id, registered, order) =>
      && id in s.rounds && !s.rounds[id].ready
      && AllDiscreet(registered)
      && forall x :: x in order ==> x in registered
    case Edit(id, work) =>
      && id in s.rounds && !s.rounds[id].ready
      && work.key == s.rounds[id].base.key && work.rv == s.rounds[id].base.rv
      && forall x :: x in s.rounds[id].base.finalizers ==> x in work.finalizers
    case Write(id, _) => id in s.rounds && s.rounds[id].ready
    case Abandon(id) => id in s.rounds
    case DeleteRead(id, _, _) => Unused(s, id)
    case DeleteRemove(id) => id in s.removals
    case UserCreate(_) => true
  }

  function Successes(xs: seq<string>, base: Object): seq<Success> {
    seq(|xs|, i requires 0 <= i < |xs| => Success(xs[i], base))
  }

  function Stored(s: Store, key: Key): Option<Object> {
    if key in s then Some(s[key]) else None
  }

  function After(s: State, a: Action): State
    requires Enabled(s, a)
  {
    match a
    case Read(id, key) => s.(rounds := s.rounds[id := Round(s.store[key], s.store[key], false)])
    case Finalize(id, registered, order) =>
      var base := s.rounds[id].base;
      var r := FinalizeAll(registered, order, base);
      s.(rounds := s.rounds[id := Round(base, r.obj, true)], log := s.log + Successes(r.succeeded, base))
    case Edit(id, work) => s.(rounds := s.rounds[id := s.rounds[id].(work := work, ready := true)])
    case Write(id, policy) =>
      s.(store := Update(s.store, policy, s.rounds[id].work).store, rounds := s.rounds - {id})
    case Abandon(id) => s.(rounds := s.rounds - {id})
    case DeleteRead(id, key, now) =>
      if key in s.store && s.store[key].finalizers != [] then
        s.(rounds := s.rounds[id := Round(s.store[key], s.store[key].(deletion := Some(now)), true)])
      else s.(removals := s.removals[id := Removal(key, Stored(s.store, key))])
    case DeleteRemove(id) => s.(store := Remove(s.store, s.removals[id].key).0, removals := s.removals - {id})
    case UserCreate(o) => s.(store := Create(s.store, o).store)
  }

  /** Without anything in between, the two halves of a delete are the delete of the client. */
  lemma DeleteIsReadThenWrite(s: State, id: nat, policy: Policy, key: Key, now: nat)
    requires Keyed(s.store) && Unused(s, id)
    ensures var t := After(s, DeleteRead(id, key, now));
            var u := if id in t.rounds then After(t, Write(id, policy)) else After(t, DeleteRemove(id));
            u == s.(store := Delete(s.store, policy, key, now).0)
  {
    var t := After(s, DeleteRead(id, key, now));
    assert t.rounds - {id} == s.rounds && t.removals - {id} == s.removals;
  }

  // ----- Which steps are harmless -----

  /** A version as the store prints it, from m up: what an object at version m can still come to before it wraps. */
  ghost predicate PrintsFrom(rv: string, m: nat) {
    exists n :: m <= n <= UINT64_MAX && rv == Print(n)
  }

  /** Somebody is still about to write an object of this key at a version that a new one can get. */
  ghost predicate Awaited(s: State, key: Key) {
    exists id :: id in s.rounds && s.rounds[id].base.key == key && PrintsFrom(s.rounds[id].base.rv, 1)
  }

  /** Somebody else is still about to write the object of round id at a version that it can get after it wraps. */
  ghost predicate AwaitedByOther(s: State, id: nat)
    requires id in s.rounds
  {
    exists j :: j in s.rounds && j != id && s.rounds[j].base.key == s.rounds[id].base.key && PrintsFrom(s.rounds[j].base.rv, 0)
  }

  /** The write takes the object from the largest version back to zero. */
  ghost predicate Wraps(s: Store, policy: Policy, o: Object) {
    VersionAt(s, o.key) == Some(UINT64_MAX) && Update(s, policy, o).error.None? && o.key in Update(s, policy, o).store
  }

  /** Creations and wraps of objects nobody else is about to write, and removals of objects that nothing holds. */
  ghost predicate Harmless(s: State, a: Action) {
    match a
    case UserCreate(o) => Create(s.store, o).error.Some? || !Awaited(s, o.key)
    case Write(id, policy) => id in s.rounds && Wraps(s.store, policy, s.rounds[id].work) ==> !AwaitedByOther(s, id)
    case DeleteRemove(id) =>
      id in s.removals && s.removals[id].key in s.store ==> s.store[s.removals[id].key].finalizers == []
    case _ => true
  }

  /** The state after a list of harmless actions, or None when one of them is not enabled or not harmless. */
  ghost function Exec(s: State, actions: seq<Action>): Option<State> {
    if actions == [] then Some(s)
    else
      match Exec(s, actions[..|actions| - 1])
      case None => None
      case Some(t) =>
        var a := actions[|actions| - 1];
        if Enabled(t, a) && Harmless(t, a) then Some(After(t, a)) else None
  }

  ghost predicate Reaches(s: State, t: State) {
    exists actions :: Exec(s, actions) == Some(t)
  }

  // ----- What a round knows -----

  /** Finalizer x returned success on exactly this object, which was being deleted and held by x. */
  ghost predicate SucceededOn(log: seq<Success>, x: string, base: Object) {
    Success(x, base) in log && base.deletion.Some? && x in base.finalizers
  }

  /** A finalizer the round is about to drop has succeeded. */
  ghost predicate Earned(s: State, r: Round) {
    && r.work.key == r.base.key && r.work.rv == r.base.rv && r.base.rv != ""
    && forall x :: x in r.base.finalizers && x !in r.work.finalizers ==> SucceededOn(s.log, x, r.base)
  }

  /** An object stored at version `stored` is not at version rv and will not get there before it wraps. */
  ghost predicate Stale(rv: string, stored: string) {
    rv != stored && VersionNumber(stored).Some? && !PrintsFrom(rv, VersionNumber(stored).value + 1)
  }

  /** A round that was not overtaken still knows the stored object. */
  ghost predicate UpToDate(s: Store, r: Round) {
    r.base.key in s ==> r.base == s[r.base.key] || Stale(r.base.rv, s[r.base.key].rv)
  }

  /** Every stored object has a version, as loading and creation guarantee. */
  ghost predicate Versioned(s: Store) {
    forall key :: key in s ==> s[key].rv != ""
  }

  ghost predicate GoodRounds(s: State) {
    forall id :: id in s.rounds ==> Earned(s, s.rounds[id]) && UpToDate(s.store, s.rounds[id])
  }

  ghost predicate GoodRemovals(s: State) {
    forall id :: id in s.removals && s.removals[id].seen.Some? ==> s.removals[id].seen.value.finalizers == []
  }

  ghost predicate Invariant(s: State) {
    Keyed(s.store) && Versioned(s.store) && GoodRounds(s) && GoodRemovals(s)
  }

  lemma SuccessesMember(xs: seq<string>, base: Object, x: string)
    requires x in xs
    ensures Success(x, base) in Successes(xs, base)
  {
    var i :| 0 <= i < |xs| && xs[i] == x;
    assert Successes(xs, base)[i] == Success(x, base);
  }

  /** What finalization drops from the list it has just logged as a success. */
  lemma FinalizeEarns(s: State, id: nat, registered: map<string, Callback>, order: seq<string>)
    requires Enabled(s, Finalize(id, registered, order)) && s.rounds[id].base.rv != ""
    ensures var t := After(s, Finalize(id, registered, order)); Earned(t, t.rounds[id])
  {
    var t, base := After(s, Finalize(id, registered, order)), s.rounds[id].base;
    var r := FinalizeAll(registered, order, base);
    RoundKeepsIdentity(registered, order, base);
    forall x | x in base.finalizers && x !in r.obj.finalizers
      ensures SucceededOn(t.log, x, base)
    {
      LostOnlyBySuccess(registered, order, base, x);
      SuccessesMember(r.succeeded, base, x);
    }
  }

  lemma KeptByFinalize(s: State, id: nat, registered: map<string, Callback>, order: seq<string>)
    requires Invariant(s) && Enabled(s, Finalize(id, registered, order))
    ensures Invariant(After(s, Finalize(id, registered, order)))
  {
    var t := After(s, Finalize(id, registered, order));
    assert Earned(s, s.rounds[id]) && UpToDate(s.store, s.rounds[id]);
    FinalizeEarns(s, id, registered, order);
    forall other | other in t.rounds ensures Earned(t, t.rounds[other]) && UpToDate(t.store, t.rounds[other]) {
      if other != id {
        assert Earned(s, s.rounds[other]) && UpToDate(s.store, s.rounds[other]);
      }
    }
  }

  /** A round was added or changed, for which the claims hold. */
  lemma KeptByRound(s: State, t: State, id: nat, r: Round)
    requires Invariant(s) && t == s.(rounds := s.rounds[id := r])
    requires Earned(s, r) && UpToDate(s.store, r)
    ensures Invariant(t)
  {
    forall other | other in t.rounds ensures Earned(t, t.rounds[other]) && UpToDate(t.store, t.rounds[other]) {
      if other != id {
        assert Earned(s, s.rounds[other]) && UpToDate(s.store, s.rounds[other]);
      }
    }
  }

  /** A store in which one object moved to its next version, or went. */
  ghost predicate Moved(s: Store, t: Store, key: Key) {
    && (forall other :: other != key ==> SameAt(s, t, other))
    && (key in t ==> key in s && t[key].key == key && (s[key] == t[key] || NextTo(s[key].rv, t[key].rv)))
  }

  ghost predicate NextTo(rv: string, next: string) {
    exists m :: m < UINT64_MAX && VersionNumber(rv) == Some(m) && IsVersion(m + 1, next)
  }

  ghost predicate IsVersion(n: nat, rv: string) {
    rv == Print(n) && VersionNumber(rv) == Some(n) && rv != ""
  }

  lemma PrintIsVersion(n: nat)
    requires n <= UINT64_MAX
    ensures IsVersion(n, Print(n))
  {
    PrintedVersion(n);
  }

  lemma UpdateMoves(s: Store, policy: Policy, o: Object)
    requires Keyed(s) && o.rv != "" && !Wraps(s, policy, o)
    ensures Moved(s, Update(s, policy, o).store, o.key)
  {
    var t := Update(s, policy, o);
    if o.key in s && t.error.None? && o.key in t.store {
      var m := VersionNumber(s[o.key].rv).value;
      PrintIsVersion(m + 1);
      assert NextTo(s[o.key].rv, Print(m + 1));
    }
  }

  lemma StaleMoves(rv: string, stored: string, next: string)
    requires NextTo(stored, next) && (rv == stored || Stale(rv, stored))
    ensures Stale(rv, next)
  {
    var m :| m < UINT64_MAX && VersionNumber(stored) == Some(m) && IsVersion(m + 1, next);
    if rv == stored {
      NotPrintedAbove(rv, m);
    } else {
      assert rv != Print(m + 1);
    }
  }

  /** A text that stands for m is not how a larger number is printed. */
  lemma NotPrintedAbove(rv: string, m: nat)
    requires VersionNumber(rv) == Some(m)
    ensures !PrintsFrom(rv, m + 1)
  {
    forall n | m + 1 <= n <= UINT64_MAX ensures rv != Print(n) { PrintIsVersion(n); }
  }

  lemma UpToDateKept(s: Store, t: Store, key: Key, r: Round)
    requires Moved(s, t, key) && UpToDate(s, r)
    ensures UpToDate(t, r)
  {
    if r.base.key != key {
      assert SameAt(s, t, r.base.key);
    } else if key in t && s[key] != t[key] {
      StaleMoves(r.base.rv, s[key].rv, t[key].rv);
    }
  }

  lemma KeptByMove(s: State, t: State, key: Key)
    requires Invariant(s) && Moved(s.store, t.store, key) && t.log == s.log
    requires forall id :: id in t.rounds ==> id in s.rounds && t.rounds[id] == s.rounds[id]
    requires GoodRemovals(t)
    ensures Invariant(t)
  {
    forall other | other in t.store ensures t.store[other].key == other && t.store[other].rv != "" {
      if other != key { assert SameAt(s.store, t.store, other); }
    }
    forall id | id in t.rounds ensures Earned(t, t.rounds[id]) && UpToDate(t.store, t.rounds[id]) {
      assert Earned(s, s.rounds[id]);
      UpToDateKept(s.store, t.store, key, s.rounds[id]);
    }
  }

  lemma FirstVersion()
    ensures IsVersion(1, "1")
  {
    PrintIsVersion(1);
    assert Print(1) == [DigitOf(1)] == "1";
  }

  /** A new object at version one is out of reach for whatever could not come back. */
  lemma KeptByCreate(s: State, o: Object)
    requires Invariant(s) && Harmless(s, UserCreate(o))
    ensures Invariant(After(s, UserCreate(o)))
  {
    var t := After(s, UserCreate(o));
    FirstVersion();
    if Create(s.store, o).error.None? {
      forall id | id in t.rounds ensures Earned(t, t.rounds[id]) && UpToDate(t.store, t.rounds[id]) {
        var r := s.rounds[id];
        assert Earned(s, r) && UpToDate(s.store, r);
        if r.base.key == o.key {
          assert !PrintsFrom(r.base.rv, 1);
          assert r.base.rv != Print(1);
          assert Stale(r.base.rv, "1");
        }
      }
    }
  }

  lemma WrappedStore(s: Store, policy: Policy, o: Object)
    requires Keyed(s) && Wraps(s, policy, o) && o.rv != ""
    ensures var t := Update(s, policy, o).store;
            && t == s[o.key := o.(rv := Print(0))] && IsVersion(0, Print(0))
            && o.key in s && o.rv == s[o.key].rv
  {
    PrintIsVersion(0);
  }

  /** An object back at version zero is out of reach for whatever cannot come. */
  lemma KeptByWrap(s: State, id: nat, policy: Policy)
    requires Invariant(s) && Enabled(s, Write(id, policy)) && Harmless(s, Write(id, policy))
    requires Wraps(s.store, policy, s.rounds[id].work)
    ensures Invariant(After(s, Write(id, policy)))
  {
    var t, key := After(s, Write(id, policy)), s.rounds[id].base.key;
    assert Earned(s, s.rounds[id]);
    WrappedStore(s.store, policy, s.rounds[id].work);
    forall j | j in t.rounds ensures Earned(t, t.rounds[j]) && UpToDate(t.store, t.rounds[j]) {
      var r := s.rounds[j];
      assert Earned(s, r) && UpToDate(s.store, r);
      if r.base.key == key {
        assert !PrintsFrom(r.base.rv, 0);
        assert r.base.rv != Print(0);
        assert Stale(r.base.rv, Print(0));
      }
    }
  }

  lemma KeptByWrite(s: State, id: nat, policy: Policy)
    requires Invariant(s) && Enabled(s, Write(id, policy)) && Harmless(s, Write(id, policy))
    ensures Invariant(After(s, Write(id, policy)))
  {
    assert Earned(s, s.rounds[id]);
    if Wraps(s.store, policy, s.rounds[id].work) {
      KeptByWrap(s, id, policy);
    } else {
      UpdateMoves(s.store, policy, s.rounds[id].work);
      KeptByMove(s, After(s, Write(id, policy)), s.rounds[id].base.key);
    }
  }

  /** Every step keeps the invariant; creations and wraps need that nobody else is about to write the object. */
  lemma KeptByEdit(s: State, id: nat, work: Object)
    requires Invariant(s) && Enabled(s, Edit(id, work))
    ensures Invariant(After(s, Edit(id, work)))
  {
    var t := After(s, Edit(id, work));
    assert Earned(s, s.rounds[id]) && UpToDate(s.store, s.rounds[id]);
    KeptByRound(s, t, id, t.rounds[id]);
  }

  lemma KeptByDeleteRead(s: State, id: nat, key: Key, now: nat)
    requires Invariant(s) && Enabled(s, DeleteRead(id, key, now))
    ensures Invariant(After(s, DeleteRead(id, key, now)))
  {
    var t := After(s, DeleteRead(id, key, now));
    if id in t.rounds {
      KeptByRound(s, t, id, t.rounds[id]);
    } else {
      KeptByMove(s, t, key);
    }
  }

  lemma InvariantKept(s: State, a: Action)
    requires Invariant(s) && Enabled(s, a) && (a.UserCreate? || a.Write? ==> Harmless(s, a))
    ensures Invariant(After(s, a))
  {
    var t := After(s, a);
    match a
    case Read(id, key) => KeptByRound(s, t, id, t.rounds[id]);
    case Finalize(id, registered, order) => KeptByFinalize(s, id, registered, order);
    case Edit(id, work) => KeptByEdit(s, id, work);
    case Write(id, policy) => KeptByWrite(s, id, policy);
    case Abandon(id) => KeptByMove(s, t, s.rounds[id].base.key);
    case DeleteRead(id, key, now) => KeptByDeleteRead(s, id, key, now);
    case DeleteRemove(id) => KeptByMove(s, t, s.removals[id].key);
    case UserCreate(o) => KeptByCreate(s, o);
  }

  /** Where runs start: the objects a client was built with, and nothing in flight. */
  lemma InvariantAtStart(initial: seq<Object>)
    requires DistinctKeys(initial)
    ensures LoadAll(initial).Some? && Invariant(State(LoadAll(initial).value, map[], map[], []))
  {
    LoadsIffDistinct(initial);
    LoadedStore(initial);
  }

  // ----- Nothing is dropped before its finalizer succeeded -----

  ghost predicate Holds(s: Store, key: Key, x: string) {
    key in s && x in s[key].finalizers
  }

  /** The stored object holds x, is being deleted, and x has returned success on that very object. */
  ghost predicate MayDrop(s: State, key: Key, x: string) {
    Holds(s.store, key, x) && SucceededOn(s.log, x, s.store[key])
  }

  /** The step takes a finalizer off the stored object, or the object away, before it succeeded. */
  ghost predicate Betrays(s: State, a: Action, key: Key, x: string)
    requires Enabled(s, a)
  {
    Holds(s.store, key, x) && !Holds(After(s, a).store, key, x) && !MayDrop(s, key, x)
  }

  lemma WriteDropsEarned(s: State, id: nat, policy: Policy, key: Key, x: string)
    requires Invariant(s) && Enabled(s, Write(id, policy))
    ensures !Betrays(s, Write(id, policy), key, x)
  {
    var r, t := s.rounds[id], After(s, Write(id, policy));
    assert Earned(s, r) && UpToDate(s.store, r);
    if r.base.key != key {
      UpdateStoresOrFails(s.store, policy, r.work);
      assert SameAt(s.store, t.store, key);
    } else if key in s.store && r.base != s.store[key] {
      StaleLoses(s.store, policy, r.work);
    }
  }

  lemma StaleLoses(s: Store, policy: Policy, o: Object)
    requires o.key in s && o.rv != "" && Stale(o.rv, s[o.key].rv)
    ensures Update(s, policy, o).store == s
  {
  }

  /** A stored finalizer disappears, with or without its object, only once it succeeded on the stored object. */
  lemma DroppedOnlyAfterSuccess(s: State, a: Action, key: Key, x: string)
    requires Invariant(s) && Enabled(s, a) && (a.Write? || Harmless(s, a))
    ensures !Betrays(s, a, key, x)
  {
    if a.Write? {
      WriteDropsEarned(s, a.id, a.policy, key, x);
    }
  }

  lemma {:induction false} InvariantOfRun(s: State, actions: seq<Action>)
    requires Invariant(s) && Exec(s, actions).Some?
    ensures Invariant(Exec(s, actions).value)
  {
    if actions != [] {
      var init := actions[..|actions| - 1];
      InvariantOfRun(s, init);
      InvariantKept(Exec(s, init).value, actions[|actions| - 1]);
    }
  }

  ghost predicate HoldsAfter(s: State, actions: seq<Action>, n: nat, key: Key, x: string)
    requires n <= |actions|
  {
    Exec(s, actions[..n]).Some? && Holds(Exec(s, actions[..n]).value.store, key, x)
  }

  /** Action n takes x off the stored object, on which x had succeeded, and x is not held again up to the end. */
  ghost predicate LastDrop(s: State, actions: seq<Action>, n: nat, key: Key, x: string) {
    && n < |actions| && Exec(s, actions[..n]).Some? && MayDrop(Exec(s, actions[..n]).value, key, x)
    && forall m :: n < m <= |actions| ==> !HoldsAfter(s, actions, m, key, x)
  }

  /**
   Over every run: an object that held x at the start holds it at the end, or some step took x off, and when
   the last such step did, x had returned success on the object as it was then stored.
   */
  lemma {:induction false} LeavesOnlyAfterSuccess(s: State, actions: seq<Action>, t: State, key: Key, x: string)
    requires Invariant(s) && Exec(s, actions) == Some(t) && Holds(s.store, key, x)
    ensures Holds(t.store, key, x) || exists n :: LastDrop(s, actions, n, key, x)
  {
    if actions != [] && !Holds(t.store, key, x) {
      var init := actions[..|actions| - 1];
      var u := Exec(s, init).value;
      assert actions[..|actions|] == actions;
      if Holds(u.store, key, x) {
        DroppedByLast(s, actions, key, x);
      } else {
        LeavesOnlyAfterSuccess(s, init, u, key, x);
        var n :| LastDrop(s, init, n, key, x);
        StillDropped(s, actions, n, key, x);
      }
    }
  }

  lemma DroppedByLast(s: State, actions: seq<Action>, key: Key, x: string)
    requires Invariant(s) && actions != [] && Exec(s, actions).Some? && !HoldsAfter(s, actions, |actions|, key, x)
    requires Holds(Exec(s, actions[..|actions| - 1]).value.store, key, x)
    ensures LastDrop(s, actions, |actions| - 1, key, x)
  {
    var init := actions[..|actions| - 1];
    assert actions[..|actions|] == actions;
    InvariantOfRun(s, init);
    DroppedOnlyAfterSuccess(Exec(s, init).value, actions[|actions| - 1], key, x);
  }

  lemma StillDropped(s: State, actions: seq<Action>, n: nat, key: Key, x: string)
    requires actions != [] && LastDrop(s, actions[..|actions| - 1], n, key, x)
    requires !HoldsAfter(s, actions, |actions|, key, x)
    ensures LastDrop(s, actions, n, key, x)
  {
    var init := actions[..|actions| - 1];
    assert actions[..n] == init[..n];
    forall m | n < m <= |actions| ensures !HoldsAfter(s, actions, m, key, x) {
      if m < |actions| {
        assert actions[..m] == init[..m] && !HoldsAfter(s, init, m, key, x);
      }
    }
  }

  /** And an undisturbed round in which every held finalizer succeeds removes the object. */
  lemma CleanRoundRemoves(s: Store, policy: Policy, key: Key, registered: map<string, Callback>, order: seq<string>)
    requires Keyed(s) && key in s && key.name != "" && s[key].deletion.Some? && VersionNumber(s[key].rv).Some?
    requires AllDiscreet(registered) && AllKeepDeletion(registered)
    requires forall x :: x in order ==> x in registered
    requires forall i, j :: 0 <= i < j < |order| ==> order[i] != order[j]
    requires forall x :: x in s[key].finalizers ==> x in order
    ensures var r := FinalizeAll(registered, order, s[key]);
            key !in Update(s, policy, r.obj).store <==> r.errors == []
  {
    RoundKeepsIdentity(registered, order, s[key]);
    CleanRoundEmptiesList(registered, order, s[key]);
    SucceedsOrStays(registered, order, s[key], "");
  }

  /** Whatever else is in flight, a deleted object can be read, finalized and written; it is gone then exactly if all succeeded. */
  lemma RoundRemoves(s: State, id: nat, policy: Policy, key: Key, registered: map<string, Callback>, order: seq<string>)
    requires Keyed(s.store) && Unused(s, id) && key in s.store && key.name != ""
    requires s.store[key].deletion.Some? && VersionNumber(s.store[key].rv).Some?
    requires AllDiscreet(registered) && AllKeepDeletion(registered)
    requires forall x :: x in order ==> x in registered
    requires forall i, j :: 0 <= i < j < |order| ==> order[i] != order[j]
    requires forall x :: x in s.store[key].finalizers ==> x in order
    ensures Enabled(s, Read(id, key))
    ensures var t := After(s, Read(id, key));
            && Enabled(t, Finalize(id, registered, order))
            && var u := After(t, Finalize(id, registered, order));
               && u.store == s.store && Enabled(u, Write(id, policy))
               && (key !in After(u, Write(id, policy)).store <==> FinalizeAll(registered, order, s.store[key]).errors == [])
  {
    CleanRoundRemoves(s.store, policy, key, registered, order);
  }

  // ----- The guards are needed -----

  /** Some harmless run from s leads to a write, or another harmless step, that betrays a finalizer. */
  ghost predicate CanBetray(s: State) {
    exists u, a, key, x :: Reaches(s, u) && Enabled(u, a) && (a.Write? || Harmless(u, a)) && Betrays(u, a, key, x)
  }

  lemma InvariantNeverBetrays(s: State)
    requires Invariant(s)
    ensures !CanBetray(s)
  {
    forall u, a, key, x | Reaches(s, u) && Enabled(u, a) && (a.Write? || Harmless(u, a)) ensures !Betrays(u, a, key, x) {
      var actions :| Exec(s, actions) == Some(u);
      InvariantOfRun(s, actions);
      DroppedOnlyAfterSuccess(u, a, key, x);
    }
  }

  lemma Step(o: State, s: State, a: Action) returns (t: State)
    requires Reaches(o, s) && Enabled(s, a) && Harmless(s, a)
    ensures t == After(s, a) && Reaches(o, t)
  {
    t := After(s, a);
    var actions :| Exec(o, actions) == Some(s);
    assert (actions + [a])[..|actions|] == actions;
    assert Exec(o, actions + [a]) == Some(t);
  }

  lemma ReachesItself(s: State)
    ensures Reaches(s, s)
  {
    assert Exec(s, []) == Some(s);
  }

  lemma {:induction false} AboveAll(ids: set<nat>) returns (b: nat)
    ensures forall i :: i in ids ==> i < b
  {
    if ids == {} {
      b := 0;
    } else {
      var i :| i in ids;
      var c := AboveAll(ids - {i});
      b := if c > i then c else i + 1;
      forall k | k in ids ensures k < b {
        if k != i { assert k in ids - {i}; }
      }
    }
  }

  lemma UnusedId(s: State) returns (j: nat)
    ensures Unused(s, j)
  {
    var ids := s.rounds.Keys + s.removals.Keys;
    j := AboveAll(ids);
    assert j !in ids;
  }

  lemma {:induction false} LongerThanAll(xs: seq<string>) returns (n: nat)
    ensures forall x :: x in xs ==> |x| < n
  {
    if xs == [] {
      n := 0;
    } else {
      n := LongerThanAll(xs[1..]);
      n := if n > |xs[0]| then n else |xs[0]| + 1;
    }
  }

  /** A finalizer in none of the lists that never ran. */
  lemma FreshName(log: seq<Success>, fs: seq<string>) returns (x: string)
    ensures x !in fs && forall i :: 0 <= i < |log| ==> log[i].x != x
  {
    var names := seq(|log|, i requires 0 <= i < |log| => log[i].x);
    var n := LongerThanAll(fs + names);
    x := seq(n, _ => 'x');
    assert x !in fs + names;
    forall i | 0 <= i < |log| ensures log[i].x != x { assert names[i] in fs + names; }
  }

  const POLICY := Policy(false, false)

  function NewObject(key: Key, x: string): Object {
    Object(key, "", [x], None, map[], "")
  }

  function Climbed(s: State, obj: Object, n: nat): State {
    s.(store := s.store[obj.key := obj.(rv := Print(n))])
  }

  /** A writer that changes nothing counts the version up. */
  lemma ClimbStep(o: State, s: State, obj: Object, n: nat)
    requires Reaches(o, Climbed(s, obj, n)) && obj.key.name != "" && obj.finalizers != [] && n < UINT64_MAX
    ensures Reaches(o, Climbed(s, obj, n + 1))
  {
    var u, now := Climbed(s, obj, n), obj.(rv := Print(n));
    PrintIsVersion(n);
    var j := UnusedId(u);
    var v := Step(o, u, Read(j, obj.key));
    var w := Step(o, v, Edit(j, now));
    assert w == u.(rounds := s.rounds[j := Round(now, now, true)]);
    assert VersionAt(w.store, obj.key) == Some(n);
    var t := Step(o, w, Write(j, POLICY));
    assert w.rounds - {j} == s.rounds;
    ClimbedStore(s.store, obj, n);
  }

  lemma ClimbedStore(s: Store, obj: Object, n: nat)
    requires obj.key.name != "" && obj.finalizers != [] && n < UINT64_MAX
    ensures Update(s[obj.key := obj.(rv := Print(n))], POLICY, obj.(rv := Print(n))).store
         == s[obj.key := obj.(rv := Print(n + 1))]
  {
    PrintIsVersion(n);
  }

  lemma {:induction false} Climb(o: State, s: State, obj: Object, m: nat, n: nat)
    requires Reaches(o, Climbed(s, obj, m)) && obj.key.name != "" && obj.finalizers != [] && m <= n <= UINT64_MAX
    ensures Reaches(o, Climbed(s, obj, n))
  {
    if n > m {
      Climb(o, s, obj, m, n - 1);
      ClimbStep(o, s, obj, n - 1);
    }
  }

  /** The awaited write gets ready, meets the object at its version, and replaces it. */
  lemma LateWriteBetrays(o: State, s: State, id: nat, obj: Object, x: string, n: nat)
    requires id in s.rounds && Earned(s, s.rounds[id]) && s.rounds[id].base.rv == Print(n) && n <= UINT64_MAX
    requires s.rounds[id].base.key == obj.key && obj.key.name != "" && Reaches(o, Climbed(s, obj, n))
    requires x in obj.finalizers && x !in s.rounds[id].base.finalizers && x !in s.rounds[id].work.finalizers
    requires forall i :: 0 <= i < |s.log| ==> s.log[i].x != x
    ensures CanBetray(o)
  {
    var r, key := s.rounds[id], obj.key;
    var u := Climbed(s, obj, n);
    PrintIsVersion(n);
    if !r.ready {
      u := Step(o, u, Edit(id, r.base));
    }
    assert u.rounds[id].ready && x !in u.rounds[id].work.finalizers && u.rounds[id].work.rv == Print(n);
    assert u.rounds[id].work.key == key && u.rounds[id].base.key == key && u.store[key] == obj.(rv := Print(n));
    assert u.log == s.log && !MayDrop(u, key, x);
    assert Betrays(u, Write(id, POLICY), key, x);
  }

  /**
   An object that is gone can be created anew without putting finalizers at risk exactly when nobody is
   still about to write it at a version that it can get again.
   */
  lemma RecreationIff(s: State, key: Key)
    requires Invariant(s) && key !in s.store && key.name != ""
    ensures (exists o: Object :: o.key == key && CanBetray(After(s, UserCreate(o)))) <==> Awaited(s, key)
  {
    if Awaited(s, key) {
      RecreationBetrays(s, key);
    } else {
      forall o: Object | o.key == key ensures !CanBetray(After(s, UserCreate(o))) {
        InvariantKept(s, UserCreate(o));
        InvariantNeverBetrays(After(s, UserCreate(o)));
      }
    }
  }

  lemma RecreationBetrays(s: State, key: Key)
    requires Invariant(s) && key !in s.store && key.name != "" && Awaited(s, key)
    ensures exists o: Object :: o.key == key && CanBetray(After(s, UserCreate(o)))
  {
    var id :| id in s.rounds && s.rounds[id].base.key == key && PrintsFrom(s.rounds[id].base.rv, 1);
    var n :| 1 <= n <= UINT64_MAX && s.rounds[id].base.rv == Print(n);
    var x := FreshName(s.log, s.rounds[id].base.finalizers + s.rounds[id].work.finalizers);
    var o := NewObject(key, x);
    var t := After(s, UserCreate(o));
    FirstVersion();
    assert t == Climbed(s, o, 1);
    ReachesItself(t);
    Climb(t, s, o, 1, n);
    assert Earned(s, s.rounds[id]);
    LateWriteBetrays(t, s, id, o, x, n);
  }

  /** The state after round id, not ready yet, writes `work`. */
  ghost function WriteOut(s: State, id: nat, work: Object, policy: Policy): State
    requires Enabled(s, Edit(id, work))
  {
    After(After(s, Edit(id, work)), Write(id, policy))
  }

  /**
   A round that knows an object at the largest version can write it, and so take it back to version zero,
   without putting finalizers at risk exactly when nobody else is still about to write the object at a version
   as the store prints it.
   */
  lemma WrapIff(s: State, id: nat, policy: Policy)
    requires Invariant(s) && id in s.rounds && !s.rounds[id].ready && s.rounds[id].base.key.name != ""
    requires Stored(s.store, s.rounds[id].base.key) == Some(s.rounds[id].base)
    requires VersionNumber(s.rounds[id].base.rv) == Some(UINT64_MAX)
    ensures (exists work :: Enabled(s, Edit(id, work)) && CanBetray(WriteOut(s, id, work, policy))) <==> AwaitedByOther(s, id)
  {
    if AwaitedByOther(s, id) {
      WrapBetrays(s, id, policy);
    } else {
      forall work | Enabled(s, Edit(id, work)) ensures !CanBetray(WriteOut(s, id, work, policy)) {
        var u := After(s, Edit(id, work));
        InvariantKept(s, Edit(id, work));
        assert !AwaitedByOther(u, id);
        InvariantKept(u, Write(id, policy));
        InvariantNeverBetrays(WriteOut(s, id, work, policy));
      }
    }
  }

  lemma WrittenOut(s: State, id: nat, work: Object, policy: Policy)
    requires Keyed(s.store) && Enabled(s, Edit(id, work)) && work.key.name != "" && work.finalizers != [] && work.rv != ""
    requires Stored(s.store, s.rounds[id].base.key) == Some(s.rounds[id].base)
    requires VersionNumber(s.rounds[id].base.rv) == Some(UINT64_MAX)
    ensures WriteOut(s, id, work, policy) == Climbed(s.(rounds := s.rounds - {id}), work, 0)
  {
    assert Wraps(s.store, policy, work);
    WrappedStore(s.store, policy, work);
    assert After(s, Edit(id, work)).rounds - {id} == s.rounds - {id};
  }

  lemma WrapBetrays(s: State, id: nat, policy: Policy)
    requires Invariant(s) && id in s.rounds && !s.rounds[id].ready && s.rounds[id].base.key.name != ""
    requires Stored(s.store, s.rounds[id].base.key) == Some(s.rounds[id].base)
    requires VersionNumber(s.rounds[id].base.rv) == Some(UINT64_MAX) && AwaitedByOther(s, id)
    ensures exists work :: Enabled(s, Edit(id, work)) && CanBetray(WriteOut(s, id, work, policy))
  {
    var base := s.rounds[id].base;
    var j :| j in s.rounds && j != id && s.rounds[j].base.key == base.key && PrintsFrom(s.rounds[j].base.rv, 0);
    var n :| 0 <= n <= UINT64_MAX && s.rounds[j].base.rv == Print(n);
    var x := FreshName(s.log, s.rounds[j].base.finalizers + s.rounds[j].work.finalizers);
    var work := base.(finalizers := base.finalizers + [x]);
    assert Earned(s, s.rounds[id]) && Earned(s, s.rounds[j]);
    assert Enabled(s, Edit(id, work));
    WrittenOut(s, id, work, policy);
    LateWriteAfterWrap(s.(rounds := s.rounds - {id}), j, work, x, n);
  }

  /** From version zero the object climbs to the version that is awaited. */
  lemma LateWriteAfterWrap(s: State, j: nat, work: Object, x: string, n: nat)
    requires j in s.rounds && Earned(s, s.rounds[j]) && s.rounds[j].base.rv == Print(n) && n <= UINT64_MAX
    requires s.rounds[j].base.key == work.key && work.key.name != "" && x in work.finalizers
    requires x !in s.rounds[j].base.finalizers && x !in s.rounds[j].work.finalizers
    requires forall i :: 0 <= i < |s.log| ==> s.log[i].x != x
    ensures CanBetray(Climbed(s, work, 0))
  {
    var t := Climbed(s, work, 0);
    ReachesItself(t);
    Climb(t, s, work, 0, n);
    LateWriteBetrays(t, s, j, work, x, n);
  }

  /** Such a write is pending whenever an object that nothing holds is read by one client and deleted by another. */
  lemma AwaitedArises(s: State, key: Key)
    requires Invariant(s) && key in s.store && s.store[key].finalizers == [] && PrintsFrom(s.store[key].rv, 1)
    ensures exists t :: Reaches(s, t) && key !in t.store && Awaited(t, key)
  {
    ReachesItself(s);
    var i := UnusedId(s);
    var u := Step(s, s, Read(i, key));
    var j := UnusedId(u);
    var v := Step(s, u, DeleteRead(j, key, 0));
    var t := Step(s, v, DeleteRemove(j));
    assert i in t.rounds && t.rounds[i].base == s.store[key];
    assert Awaited(t, key);
  }

  /** A removal that finds the object as it was read takes no finalizer away. */
  lemma UntouchedRemovalIsHarmless(s: State, id: nat)
    requires Invariant(s) && id in s.removals && Stored(s.store, s.removals[id].key) == s.removals[id].seen
    ensures Harmless(s, DeleteRemove(id))
  {
  }

  /** Some harmless run leads to a state in which the pending removal of the key betrays a finalizer. */
  ghost predicate RemovalCanBetray(s: State, id: nat, key: Key) {
    exists u, x :: Reaches(s, u) && id in u.removals && u.removals[id].key == key && Betrays(u, DeleteRemove(id), key, x)
  }

  /** Everything that holds the object has succeeded on it, and no update can change it any more. */
  ghost predicate Frozen(s: State, key: Key) {
    && key in s.store && s.store[key].finalizers != []
    && (forall x :: x in s.store[key].finalizers ==> MayDrop(s, key, x))
    && VersionAt(s.store, key).None?
  }

  /**
   A removal that is pending for a named key can betray a finalizer, in some harmless continuation, exactly
   unless the key is frozen.
   */
  lemma RemovalCanBetrayIff(s: State, id: nat, key: Key)
    requires Invariant(s) && id in s.removals && s.removals[id].key == key && key.name != ""
    ensures RemovalCanBetray(s, id, key) <==> !Frozen(s, key)
  {
    if Frozen(s, key) {
      FrozenIsSafe(s, id, key);
    } else {
      ReachesItself(s);
      if key !in s.store {
        GoneAtRisk(s, s, id, key);
      } else if s.store[key].finalizers == [] {
        UnheldAtRisk(s, id, key);
      } else if x :| x in s.store[key].finalizers && !MayDrop(s, key, x) {
        assert Betrays(s, DeleteRemove(id), key, x);
      } else {
        StoredAtRisk(s, id, key);
      }
    }
  }

  lemma FrozenStep(s: State, a: Action, key: Key)
    requires Invariant(s) && Frozen(s, key) && Enabled(s, a) && Harmless(s, a)
    ensures Frozen(After(s, a), key) && SameAt(s.store, After(s, a).store, key)
  {
    var t := After(s, a);
    if a.Write? {
      var r := s.rounds[a.id];
      assert Earned(s, r);
      if r.base.key != key {
        UpdateStoresOrFails(s.store, a.policy, r.work);
      }
      assert SameAt(s.store, t.store, key);
    }
    assert s.log <= t.log;
  }

  lemma {:induction false} FrozenRun(s: State, actions: seq<Action>, key: Key)
    requires Invariant(s) && Frozen(s, key) && Exec(s, actions).Some?
    ensures Frozen(Exec(s, actions).value, key)
  {
    if actions != [] {
      var init := actions[..|actions| - 1];
      FrozenRun(s, init, key);
      InvariantOfRun(s, init);
      FrozenStep(Exec(s, init).value, actions[|actions| - 1], key);
    }
  }

  lemma FrozenIsSafe(s: State, id: nat, key: Key)
    requires Invariant(s) && Frozen(s, key)
    ensures !RemovalCanBetray(s, id, key)
  {
    forall u, x | Reaches(s, u) && id in u.removals ensures !Betrays(u, DeleteRemove(id), key, x) {
      var actions :| Exec(s, actions) == Some(u);
      FrozenRun(s, actions, key);
    }
  }

  /** All others give up, and a writer adds a finalizer. */
  lemma StoredAtRisk(s: State, id: nat, key: Key)
    requires Invariant(s) && id in s.removals && s.removals[id].key == key && key in s.store && key.name != ""
    requires VersionAt(s.store, key).Some?
    ensures RemovalCanBetray(s, id, key)
  {
    ReachesItself(s);
    var t := AllGiveUp(s, s, key);
    var obj := s.store[key];
    var x := FreshName(s.log, obj.finalizers);
    var work := obj.(finalizers := obj.finalizers + [x]);
    var j := UnusedId(t);
    var v := Step(s, t, Read(j, key));
    var w := Step(s, v, Edit(j, work));
    assert w == t.(rounds := t.rounds[j := Round(obj, work, true)]);
    assert !AwaitedByOther(w, j);
    var u := Step(s, w, Write(j, POLICY));
    assert Holds(u.store, key, x) && u.log == s.log;
    assert Betrays(u, DeleteRemove(id), key, x);
  }

  /** Another delete is faster, and the object is created anew. */
  lemma UnheldAtRisk(s: State, id: nat, key: Key)
    requires Invariant(s) && id in s.removals && s.removals[id].key == key && key.name != ""
    requires key in s.store && s.store[key].finalizers == []
    ensures RemovalCanBetray(s, id, key)
  {
    ReachesItself(s);
    var j := UnusedId(s);
    var u := Step(s, s, DeleteRead(j, key, 0));
    InvariantKept(s, DeleteRead(j, key, 0));
    var v := Step(s, u, DeleteRemove(j));
    InvariantKept(u, DeleteRemove(j));
    GoneAtRisk(s, v, id, key);
  }

  /** All writers give up, and the object is created, held by a finalizer. */
  lemma GoneAtRisk(o: State, s: State, id: nat, key: Key)
    requires Reaches(o, s) && Invariant(s) && id in s.removals && s.removals[id].key == key
    requires key !in s.store && key.name != ""
    ensures RemovalCanBetray(o, id, key)
  {
    var t := AllGiveUp(o, s, key);
    var x := FreshName(t.log, []);
    var u := Step(o, t, UserCreate(NewObject(key, x)));
    assert Betrays(u, DeleteRemove(id), key, x);
  }

  /** Whoever is still about to write the object gives up. */
  lemma {:induction false} AllGiveUp(o: State, s: State, key: Key) returns (t: State)
    requires Reaches(o, s)
    ensures Reaches(o, t) && t == s.(rounds := t.rounds) && forall id :: id in t.rounds ==> t.rounds[id].base.key != key
    decreases |s.rounds|
  {
    if id :| id in s.rounds && s.rounds[id].base.key == key {
      var u := Step(o, s, Abandon(id));
      assert u.rounds.Keys == s.rounds.Keys - {id};
      t := AllGiveUp(o, u, key);
    } else {
      t := s;
    }
  }

  // ----- Deletes without anything in between -----

  /** Every removal comes right after the read it belongs to. */
  ghost predicate Atomic(actions: seq<Action>) {
    forall i :: 0 <= i < |actions| && actions[i].DeleteRemove? ==>
      i > 0 && actions[i - 1].DeleteRead? && actions[i - 1].id == actions[i].id
  }

  /** Runs in which removals are not guarded. */
  ghost function Perform(s: State, actions: seq<Action>): Option<State> {
    if actions == [] then Some(s)
    else
      match Perform(s, actions[..|actions| - 1])
      case None => None
      case Some(t) =>
        var a := actions[|actions| - 1];
        if Enabled(t, a) && (a.DeleteRemove? || Harmless(t, a)) then Some(After(t, a)) else None
  }

  /** They are harmless if their deletes are atomic, so the guarantee holds of them. */
  lemma {:induction false} AtomicDeletesAreHarmless(s: State, actions: seq<Action>)
    requires Perform(s, actions).Some? && Atomic(actions)
    ensures Exec(s, actions) == Perform(s, actions)
  {
    if actions != [] {
      var init, a := actions[..|actions| - 1], actions[|actions| - 1];
      AtomicDeletesAreHarmless(s, init);
      if a.DeleteRemove? {
        var read := init[|init| - 1];
        assert actions[|actions| - 2] == read;
        FreshRemovalIsHarmless(Perform(s, init[..|init| - 1]).value, read);
      }
    }
  }

  lemma FreshRemovalIsHarmless(s: State, read: Action)
    requires read.DeleteRead? && Enabled(s, read)
    ensures Harmless(After(s, read), DeleteRemove(read.id))
  {
  }

  lemma AtomicDeletesLeaveAfterSuccess(s: State, actions: seq<Action>, t: State, key: Key, x: string)
    requires Invariant(s) && Perform(s, actions) == Some(t) && Atomic(actions) && Holds(s.store, key, x)
    ensures Holds(t.store, key, x) || exists n :: LastDrop(s, actions, n, key, x)
  {
    AtomicDeletesAreHarmless(s, actions);
    LeavesOnlyAfterSuccess(s, actions, t, key, x);
  }
}
