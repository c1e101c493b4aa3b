/** Registered finalizers, the finalizer list of an object, and one finalization round. */
module Finalizers {
  import opened Common
  import opened FakeStore

  // ----- The list helpers -----

  function Without(s: seq<string>, x: string): seq<string> {
    Filter((y: string) => y != x, s)
  }

  lemma WithoutMember(s: seq<string>, x: string, y: string)
    ensures y in Without(s, x) <==> y in s && y != x
  {
    FilterMember((z: string) => z != x, s, y);
  }

  method ContainsFinalizer(f: seq<string>, x: string) returns (found: bool)
    ensures found <==> x in f
  {
    for i := 0 to |f|
      invariant x !in f[..i]
    {
      if f[i] == x {
        return true;
      }
    }
    return false;
  }

  method AddFinalizer(f: seq<string>, x: string) returns (r: seq<string>)
    ensures x in r && (if x in f then r == f else r == f + [x])
  {
    for i := 0 to |f|
      invariant x !in f[..i]
    {
      if f[i] == x {
        return f;
      }
    }
    return f + [x];
  }

  /** Shifts the rest of the list left over each occurrence and looks at the same position again. */
  method RemoveFinalizer(list: seq<string>, x: string) returns (f: seq<string>)
    ensures f == Without(list, x)
  {
    f := list;
    var i := 0;
    ghost var seen := 0;
    while i < |f|
      invariant 0 <= i <= |f| && 0 <= seen <= |list|
      invariant f[i..] == list[seen..]
      invariant f[..i] == Without(list[..seen], x)
      decreases |list| - seen
    {
      FilterStep((y: string) => y != x, list, seen);
      assert f[i] == list[seen..][0];
      assert list[seen + 1..] == list[seen..][1..] == f[i..][1..];
      if f[i] == x {
        f := f[..i] + f[i + 1..];
      } else {
        assert f[..i + 1] == f[..i] + [f[i]];
        i := i + 1;
      }
      seen := seen + 1;
    }
    assert list[..|list|] == list && f[..i] == f;
  }

  // ----- One round -----

  /** What a finalizer reports. It may change the object it is given. */
  datatype Verdict = Verdict(obj: Object, updated: bool, statusUpdated: bool, error: Option<string>)

  type Callback = Object -> Verdict

  datatype Report = Report(
    obj: Object,
    updated: bool,
    statusUpdated: bool,
    errors: seq<string>,       // keys of the finalizers that failed
    succeeded: seq<string>)    // history: keys of those that returned success

  function FinalizeKey(r: Report, key: string, f: Callback): Report {
    if r.obj.deletion.None? then
      if key in r.obj.finalizers then r
      else r.(obj := r.obj.(finalizers := r.obj.finalizers + [key]), updated := true)
    else if key !in r.obj.finalizers then r
    else
      var v := f(r.obj);
      if v.error.Some? then
        r.(obj := v.obj, updated := r.updated || v.updated, statusUpdated := r.statusUpdated || v.statusUpdated,
           errors := r.errors + [key])
      else
        r.(obj := v.obj.(finalizers := Without(v.obj.finalizers, key)), updated := true,
           statusUpdated := r.statusUpdated || v.statusUpdated, succeeded := r.succeeded + [key])
  }

  /** The keys of `order` in turn. */
  function FinalizeAll(registered: map<string, Callback>, order: seq<string>, o: Object): Report
    requires forall key :: key in order ==> key in registered
  {
    if order == [] then Report(o, false, false, [], [])
    else
      var last := order[|order| - 1];
      FinalizeKey(FinalizeAll(registered, order[..|order| - 1], o), last, registered[last])
  }

  class Registry {
    var registered: map<string, Callback>

    constructor ()
      ensures registered == map[]
    {
      registered := map[];
    }

    method Register(key: string, f: Callback) returns (ok: bool)
      modifies this
      ensures ok <==> key !in old(registered)
      ensures registered == if ok then old(registered)[key := f] else old(registered)
    {
      if key in registered {
        return false;
      }
      registered := registered[key := f];
      return true;
    }

    /** `order` is the order in which the loop meets the keys of the map. */
    method Finalize(order: seq<string>, o: Object) returns (r: Report)
      requires forall key :: key in order <==> key in registered
      requires forall i, j :: 0 <= i < j < |order| ==> order[i] != order[j]
      ensures r == FinalizeAll(registered, order, o)
    {
      r := Report(o, false, false, [], []);
      for i := 0 to |order|
        invariant r == FinalizeAll(registered, order[..i], o)
      {
        assert order[..i + 1][..i] == order[..i];
        var key := order[i];
        var contains := ContainsFinalizer(r.obj.finalizers, key);
        if r.obj.deletion.None? && !contains {
          var f := AddFinalizer(r.obj.finalizers, key);
          r := r.(obj := r.obj.(finalizers := f), updated := true);
        } else if r.obj.deletion.Some? && contains {
          var v := registered[key](r.obj);
          if v.error.Some? {
            r := r.(obj := v.obj, updated := r.updated || v.updated,
                    statusUpdated := r.statusUpdated || v.statusUpdated, errors := r.errors + [key]);
          } else {
            var f := RemoveFinalizer(v.obj.finalizers, key);
            r := r.(obj := v.obj.(finalizers := f), updated := true,
                    statusUpdated := r.statusUpdated || v.statusUpdated, succeeded := r.succeeded + [key]);
          }
        }
      }
      assert order[..|order|] == order;
    }
  }

  // ----- What a round reports -----

  /** The object as the loop meets it at the i-th key. */
  function Before(registered: map<string, Callback>, order: seq<string>, o: Object, i: nat): Object
    requires i < |order| && forall key :: key in order ==> key in registered
  {
    FinalizeAll(registered, order[..i], o).obj
  }

  /** The i-th key is added: the object is not being deleted and lacks it. */
  predicate Adds(registered: map<string, Callback>, order: seq<string>, o: Object, i: nat)
    requires i < |order| && forall key :: key in order ==> key in registered
  {
    Before(registered, order, o, i).deletion.None? && order[i] !in Before(registered, order, o, i).finalizers
  }

  /** The finalizer of the i-th key runs: the object is being deleted and still lists it. */
  predicate Runs(registered: map<string, Callback>, order: seq<string>, o: Object, i: nat)
    requires i < |order| && forall key :: key in order ==> key in registered
  {
    Before(registered, order, o, i).deletion.Some? && order[i] in Before(registered, order, o, i).finalizers
  }

  function VerdictAt(registered: map<string, Callback>, order: seq<string>, o: Object, i: nat): Verdict
    requires i < |order| && forall key :: key in order ==> key in registered
  {
    registered[order[i]](Before(registered, order, o, i))
  }

  /** The finalizer of the i-th key runs and reports something of interest. */
  predicate Reports(registered: map<string, Callback>, order: seq<string>, o: Object, p: (string, Verdict) -> bool, i: nat)
    requires i < |order| && forall key :: key in order ==> key in registered
  {
    Runs(registered, order, o, i) && p(order[i], VerdictAt(registered, order, o, i))
  }

  ghost predicate SomeVerdict(registered: map<string, Callback>, order: seq<string>, o: Object, p: (string, Verdict) -> bool)
    requires forall key :: key in order ==> key in registered
  {
    exists i :: 0 <= i < |order| && Reports(registered, order, o, p, i)
  }

  ghost predicate SomeAdded(registered: map<string, Callback>, order: seq<string>, o: Object)
    requires forall key :: key in order ==> key in registered
  {
    exists i :: 0 <= i < |order| && Adds(registered, order, o, i)
  }

  lemma SameBefore(registered: map<string, Callback>, order: seq<string>, o: Object, i: nat)
    requires i < |order| - 1 && forall key :: key in order ==> key in registered
    ensures Before(registered, order[..|order| - 1], o, i) == Before(registered, order, o, i)
  {
    assert order[..|order| - 1][..i] == order[..i];
  }

  lemma SameReports(registered: map<string, Callback>, order: seq<string>, o: Object, p: (string, Verdict) -> bool, i: nat)
    requires i < |order| - 1 && forall key :: key in order ==> key in registered
    ensures Reports(registered, order[..|order| - 1], o, p, i) == Reports(registered, order, o, p, i)
  {
    SameBefore(registered, order, o, i);
  }

  lemma OneMoreVerdict(registered: map<string, Callback>, order: seq<string>, o: Object, p: (string, Verdict) -> bool)
    requires order != [] && forall key :: key in order ==> key in registered
    ensures var n := |order| - 1;
            SomeVerdict(registered, order, o, p) <==>
            SomeVerdict(registered, order[..n], o, p) || Reports(registered, order, o, p, n)
  {
    if SomeVerdict(registered, order, o, p) {
      var i: nat :| i < |order| && Reports(registered, order, o, p, i);
      if i < |order| - 1 {
        SameReports(registered, order, o, p, i);
      }
    }
    if SomeVerdict(registered, order[..|order| - 1], o, p) {
      var i: nat :| i < |order| - 1 && Reports(registered, order[..|order| - 1], o, p, i);
      SameReports(registered, order, o, p, i);
    }
  }

  lemma OneMoreAdded(registered: map<string, Callback>, order: seq<string>, o: Object)
    requires order != [] && forall key :: key in order ==> key in registered
    ensures var n := |order| - 1;
            SomeAdded(registered, order, o) <==> SomeAdded(registered, order[..n], o) || Adds(registered, order, o, n)
  {
    var init := order[..|order| - 1];
    forall i | 0 <= i < |init| ensures Adds(registered, init, o, i) == Adds(registered, order, o, i) {
      SameBefore(registered, order, o, i);
    }
  }

  /** The status flag is set exactly if a finalizer that ran, failing or not, reported a status change. */
  lemma {:induction false} StatusUpdatedIff(registered: map<string, Callback>, order: seq<string>, o: Object)
    requires forall key :: key in order ==> key in registered
    ensures FinalizeAll(registered, order, o).statusUpdated <==>
            SomeVerdict(registered, order, o, (_, v: Verdict) => v.statusUpdated)
  {
    if order != [] {
      StatusUpdatedIff(registered, order[..|order| - 1], o);
      OneMoreVerdict(registered, order, o, (_, v: Verdict) => v.statusUpdated);
    }
  }

  /** The update flag is set exactly if a key was added, or a finalizer succeeded, or one failed and reported a change. */
  lemma {:induction false} UpdatedIff(registered: map<string, Callback>, order: seq<string>, o: Object)
    requires forall key :: key in order ==> key in registered
    ensures FinalizeAll(registered, order, o).updated <==>
            || SomeAdded(registered, order, o)
            || SomeVerdict(registered, order, o, (_, v: Verdict) => v.error.None? || v.updated)
  {
    if order != [] {
      UpdatedIff(registered, order[..|order| - 1], o);
      OneMoreAdded(registered, order, o);
      OneMoreVerdict(registered, order, o, (_, v: Verdict) => v.error.None? || v.updated);
    }
  }

  /** Errors are reported for exactly the keys whose finalizers ran and failed; the others that ran succeeded. */
  lemma {:induction false} ErrorsIff(registered: map<string, Callback>, order: seq<string>, o: Object, x: string)
    requires forall key :: key in order ==> key in registered
    ensures var r := FinalizeAll(registered, order, o);
            && (x in r.errors <==> SomeVerdict(registered, order, o, (key, v: Verdict) => key == x && v.error.Some?))
            && (x in r.succeeded <==> SomeVerdict(registered, order, o, (key, v: Verdict) => key == x && v.error.None?))
  {
    if order != [] {
      ErrorsIff(registered, order[..|order| - 1], o, x);
      OneMoreVerdict(registered, order, o, (key, v: Verdict) => key == x && v.error.Some?);
      OneMoreVerdict(registered, order, o, (key, v: Verdict) => key == x && v.error.None?);
    }
  }

  /** But for its finalizers, the object is left as the last finalizer that ran left it, failing or not. */
  lemma {:induction false} LastRunStays(registered: map<string, Callback>, order: seq<string>, o: Object, i: nat)
    requires i < |order| && forall key :: key in order ==> key in registered
    requires Runs(registered, order, o, i) && forall k :: i < k < |order| ==> !Runs(registered, order, o, k)
    ensures var r := FinalizeAll(registered, order, o);
            r.obj == VerdictAt(registered, order, o, i).obj.(finalizers := r.obj.finalizers)
  {
    var init := order[..|order| - 1];
    if i < |init| {
      forall k | i <= k < |init| ensures Runs(registered, init, o, k) == Runs(registered, order, o, k) {
        SameBefore(registered, order, o, k);
      }
      SameBefore(registered, order, o, i);
      LastRunStays(registered, init, o, i);
      assert !Runs(registered, order, o, |init|);
    }
  }

  // ----- What a round guarantees -----

  /** Callbacks leave the object's identity, version and finalizer list alone. */
  ghost predicate Discreet(f: Callback) {
    forall o :: f(o).obj.key == o.key && f(o).obj.rv == o.rv && f(o).obj.finalizers == o.finalizers
  }

  ghost predicate AllDiscreet(registered: map<string, Callback>) {
    forall key :: key in registered ==> Discreet(registered[key])
  }

  /** Callbacks also keep the deletion timestamp. */
  ghost predicate AllKeepDeletion(registered: map<string, Callback>) {
    forall key, o :: key in registered ==> registered[key](o).obj.deletion == o.deletion
  }

  lemma {:induction false} RoundKeepsIdentity(registered: map<string, Callback>, order: seq<string>, o: Object)
    requires AllDiscreet(registered) && forall key :: key in order ==> key in registered
    ensures var r := FinalizeAll(registered, order, o); r.obj.key == o.key && r.obj.rv == o.rv
  {
    if order != [] {
      RoundKeepsIdentity(registered, order[..|order| - 1], o);
    }
  }

  /** An object that is not being deleted only gains the registered keys it lacks, and no finalizer runs. */
  lemma {:induction false} RoundAdds(registered: map<string, Callback>, order: seq<string>, o: Object)
    requires o.deletion.None? && forall key :: key in order ==> key in registered
    ensures var r := FinalizeAll(registered, order, o);
            && r.obj == o.(finalizers := r.obj.finalizers)
            && o.finalizers <= r.obj.finalizers
            && (forall x :: x in r.obj.finalizers <==> x in o.finalizers || x in order)
            && (r.updated <==> exists x :: x in order && x !in o.finalizers)
            && !r.statusUpdated && r.errors == [] && r.succeeded == []
  {
    if order != [] {
      var last := order[|order| - 1];
      RoundAdds(registered, order[..|order| - 1], o);
      assert order == order[..|order| - 1] + [last];
    }
  }

  /** While a round still sees the deletion timestamp, the list has only shrunk. */
  lemma {:induction false} ShrinksWhileDeleting(registered: map<string, Callback>, order: seq<string>, o: Object, x: string)
    requires AllDiscreet(registered) && forall key :: key in order ==> key in registered
    ensures var r := FinalizeAll(registered, order, o);
            r.obj.deletion.Some? ==> o.deletion.Some? && (x in r.obj.finalizers ==> x in o.finalizers)
  {
    if order != [] {
      var init, last := order[..|order| - 1], order[|order| - 1];
      ShrinksWhileDeleting(registered, init, o, x);
      var before := FinalizeAll(registered, init, o);
      assert Discreet(registered[last]);
      WithoutMember(before.obj.finalizers, last, x);
    }
  }

  /** A key leaves the list only when its finalizer returned success, and success only comes during deletion. */
  lemma {:induction false} LostOnlyBySuccess(registered: map<string, Callback>, order: seq<string>, o: Object, x: string)
    requires AllDiscreet(registered) && forall key :: key in order ==> key in registered
    ensures var r := FinalizeAll(registered, order, o);
            && (x in o.finalizers && x !in r.obj.finalizers ==> x in r.succeeded)
            && (x in r.succeeded ==> o.deletion.Some? && x in order && x in o.finalizers)
  {
    if order != [] {
      var init, last := order[..|order| - 1], order[|order| - 1];
      LostOnlyBySuccess(registered, init, o, x);
      ShrinksWhileDeleting(registered, init, o, x);
      LostStep(FinalizeAll(registered, init, o), last, registered[last], x);
      assert order == init + [last];
    }
  }

  lemma LostStep(before: Report, key: string, f: Callback, x: string)
    requires Discreet(f)
    ensures var after := FinalizeKey(before, key, f);
            && (x in before.obj.finalizers && x !in after.obj.finalizers ==> x in after.succeeded)
            && (x in before.succeeded ==> x in after.succeeded)
            && (x in after.succeeded && x !in before.succeeded ==>
                  x == key && before.obj.deletion.Some? && x in before.obj.finalizers)
  {
    WithoutMember(before.obj.finalizers, key, x);
  }

  /** During deletion every listed key of the order either succeeds and goes, or fails and stays. */
  lemma {:induction false} SucceedsOrStays(registered: map<string, Callback>, order: seq<string>, o: Object, x: string)
    requires AllDiscreet(registered) && AllKeepDeletion(registered) && o.deletion.Some?
    requires forall key :: key in order ==> key in registered
    requires forall i, j :: 0 <= i < j < |order| ==> order[i] != order[j]
    ensures var r := FinalizeAll(registered, order, o);
            && r.obj.deletion == o.deletion
            && (x in r.obj.finalizers <==> x in o.finalizers && x !in r.succeeded)
            && (x in r.errors || x in r.succeeded <==> x in order && x in o.finalizers)
            && !(x in r.errors && x in r.succeeded)
  {
    if order != [] {
      var init, last := order[..|order| - 1], order[|order| - 1];
      SucceedsOrStays(registered, init, o, x);
      SucceedsOrStays(registered, init, o, last);
      var before := FinalizeAll(registered, init, o);
      assert Discreet(registered[last]);
      WithoutMember(before.obj.finalizers, last, x);
      assert order == init + [last] && last !in init;
    }
  }

  /** A round without errors over keys that cover the list leaves the list empty. */
  lemma CleanRoundEmptiesList(registered: map<string, Callback>, order: seq<string>, o: Object)
    requires AllDiscreet(registered) && AllKeepDeletion(registered) && o.deletion.Some?
    requires forall key :: key in order ==> key in registered
    requires forall i, j :: 0 <= i < j < |order| ==> order[i] != order[j]
    requires forall x :: x in o.finalizers ==> x in order
    ensures var r := FinalizeAll(registered, order, o); r.obj.finalizers == [] <==> r.errors == []
  {
    var r := FinalizeAll(registered, order, o);
    forall x { SucceedsOrStays(registered, order, o, x); }
    if r.obj.finalizers != [] {
      assert r.obj.finalizers[0] in r.errors;
    }
    if r.errors != [] {
      assert r.errors[0] in r.obj.finalizers;
    }
  }
}
