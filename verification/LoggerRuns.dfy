/**
 One fulfilment of a promise tree while other goroutines keep deriving loggers from it.

 A derivation holds the read lock of the logger it derives from, from its check of the
 promise until the new logger is complete; it appends the new promise in between.
 Fulfilment needs the write lock of one logger at a time, and reads the list of
 children after it let that lock go. All of these are separate actions here.
 */
module LoggerRuns {
  import opened Common
  import opened Logger

  /** A delegating logger with its promise. A node is published once its derivation has returned. */
  datatype Node<L> = Node(
    logger: L,
    promise: bool,          // the logger's promise is not nil
    children: seq<nat>,     // childPromises
    op: Op,                 // how it was derived; unused for the root, node 0
    // History.
    parent: nat,
    slot: nat,              // its place in the parent's children
    owner: nat,             // the goroutine that derives it
    published: bool,
    done: bool)             // reached by fulfilment

  /** A derivation in flight: it holds the read lock of node `from`. */
  datatype Deriving = Checked(from: nat, op: Op) | Appended(from: nat, child: nat)

  /** Pending calls of the recursive fulfilment, innermost first. */
  datatype Frame<L> = Visit(p: nat, parent: L) | Expand(p: nat, mine: L)

  datatype State<L> = State(
    nodes: seq<Node<L>>,
    threads: map<nat, Deriving>,
    stack: seq<Frame<L>>,
    actual: Option<L>)      // set when fulfilment begins

  datatype Action<L> =
    | Check(t: nat, from: nat, op: Op)
    | Append(t: nat)
    | Publish(t: nat)
    | Begin(actual: L)
    | Write
    | Recurse

  function Init<L>(initial: L): State<L> {
    State([Node(initial, true, [], V(0), 0, 0, 0, true, false)], map[], [], None)
  }

  ghost predicate Enabled<L>(s: State<L>, a: Action<L>) {
    match a
    case Check(t, from, _) =>
      t !in s.threads && from < |s.nodes| && s.nodes[from].published && s.nodes[from].promise
    case Append(t) => t in s.threads && s.threads[t].Checked? && s.threads[t].from < |s.nodes|
    case Publish(t) => t in s.threads && s.threads[t].Appended? && s.threads[t].child < |s.nodes|
    case Begin(_) => s.actual.None? && |s.nodes| > 0 && s.nodes[0].promise
    case Write =>
      && s.stack != [] && s.stack[0].Visit? && s.stack[0].p < |s.nodes|
      && forall t :: t in s.threads ==> s.threads[t].from != s.stack[0].p
    case Recurse => s.stack != [] && s.stack[0].Expand? && s.stack[0].p < |s.nodes|
  }

  function FieldsOf<L>(s: State<L>, i: nat): PromiseFields
    requires i < |s.nodes|
  {
    if i == 0 then ROOT else FieldsFor(s.nodes[i].op)
  }

  function Visits<L>(children: seq<nat>, mine: L): (r: seq<Frame<L>>)
    ensures |r| == |children|
    ensures forall i :: 0 <= i < |r| ==> r[i] == Visit(children[i], mine)
  {
    seq(|children|, i requires 0 <= i < |children| => Visit(children[i], mine))
  }

  ghost function After<L>(impl: Impl<L>, s: State<L>, a: Action<L>): State<L>
    requires Enabled(s, a)
  {
    match a
    case Check(t, from, op) => s.(threads := s.threads[t := Checked(from, op)])
    case Append(t) =>
      var from, child := s.threads[t].from, |s.nodes|;
      var n := s.nodes[from];
      s.(nodes := s.nodes[from := n.(children := n.children + [child])]
                  + [Node(n.logger, false, [], s.threads[t].op, from, |n.children|, t, false, false)],
         threads := s.threads[t := Appended(from, child)])
    case Publish(t) =>
      var child := s.threads[t].child;
      s.(nodes := s.nodes[child := s.nodes[child].(promise := true, published := true)],
         threads := s.threads - {t})
    case Begin(actual) => s.(actual := Some(actual), stack := [Visit(0, actual)])
    case Write =>
      var p := s.stack[0].p;
      var mine := Instantiate(impl, FieldsOf(s, p), s.stack[0].parent);
      s.(nodes := s.nodes[p := s.nodes[p].(logger := mine, promise := false, done := true)],
         stack := [Expand(p, mine)] + s.stack[1..])
    case Recurse => s.(stack := Visits(s.nodes[s.stack[0].p].children, s.stack[0].mine) + s.stack[1..])
  }

  ghost function Exec<L>(impl: Impl<L>, s: State<L>, actions: seq<Action<L>>): Option<State<L>> {
    if actions == [] then Some(s)
    else
      match Exec(impl, s, actions[..|actions| - 1])
      case None => None
      case Some(t) =>
        var a := actions[|actions| - 1];
        if Enabled(t, a) then Some(After(impl, t, a)) else None
  }

  // ----- What every action keeps -----

  ghost predicate InTree<L>(s: State<L>, i: nat)
    requires i < |s.nodes|
  {
    var n := s.nodes[i];
    && (if i == 0 then n.parent == 0 else
          n.parent < i && n.slot < |s.nodes[n.parent].children| && s.nodes[n.parent].children[n.slot] == i)
    && forall k :: 0 <= k < |n.children| ==> i < n.children[k] < |s.nodes| && s.nodes[n.children[k]].parent == i
  }

  ghost predicate Tree<L>(s: State<L>) {
    |s.nodes| > 0 && forall i :: 0 <= i < |s.nodes| ==> InTree(s, i)
  }

  ghost predicate HoldsLock<L>(s: State<L>, t: nat)
    requires t in s.threads
  {
    var d := s.threads[t];
    && d.from < |s.nodes|
    && s.nodes[d.from].promise
    && (d.Appended? ==>
          && d.child < |s.nodes|
          && !s.nodes[d.child].published
          && s.nodes[d.child].parent == d.from
          && s.nodes[d.child].owner == t)
  }

  /** A logger under construction has a goroutine holding the read lock of the logger above it. */
  ghost predicate Consistent<L>(s: State<L>, i: nat)
    requires i < |s.nodes|
  {
    var n := s.nodes[i];
    if n.published then n.promise == !n.done
    else i > 0 && !n.promise && !n.done && n.owner in s.threads && s.threads[n.owner] == Appended(n.parent, i)
  }

  ghost predicate Locks<L>(s: State<L>) {
    && (forall t :: t in s.threads ==> HoldsLock(s, t))
    && (forall i :: 0 <= i < |s.nodes| ==> Consistent(s, i))
  }

  lemma TreeKeptByAppend<L>(impl: Impl<L>, s: State<L>, t: nat)
    requires Tree(s) && Enabled(s, Append(t))
    ensures Tree(After(impl, s, Append(t)))
  {
    var u, from := After(impl, s, Append(t)), s.threads[t].from;
    forall i | 0 <= i < |u.nodes| ensures InTree(u, i) {
      if i < |s.nodes| {
        assert InTree(s, i);
        assert u.nodes[i].parent == s.nodes[i].parent && u.nodes[i].slot == s.nodes[i].slot;
        assert s.nodes[i].children <= u.nodes[i].children;
        if i > 0 {
          assert s.nodes[s.nodes[i].parent].children <= u.nodes[s.nodes[i].parent].children;
        }
      }
    }
  }

  /** Actions that leave the shape of the tree alone. */
  lemma TreeKeptByShape<L>(s: State<L>, u: State<L>)
    requires Tree(s) && |u.nodes| == |s.nodes|
    requires forall i :: 0 <= i < |s.nodes| ==>
      u.nodes[i].parent == s.nodes[i].parent && u.nodes[i].slot == s.nodes[i].slot
      && u.nodes[i].children == s.nodes[i].children
    ensures Tree(u)
  {
    forall i | 0 <= i < |u.nodes| ensures InTree(u, i) {
      assert InTree(s, i);
    }
  }

  lemma TreeKept<L>(impl: Impl<L>, s: State<L>, a: Action<L>)
    requires Tree(s) && Enabled(s, a)
    ensures Tree(After(impl, s, a))
  {
    if a.Append? {
      TreeKeptByAppend(impl, s, a.t);
    } else {
      TreeKeptByShape(s, After(impl, s, a));
    }
  }

  lemma LocksKeptByCheck<L>(impl: Impl<L>, s: State<L>, a: Action<L>)
    requires Locks(s) && Enabled(s, a) && a.Check?
    ensures Locks(After(impl, s, a))
  {
    var u := After(impl, s, a);
    forall t | t in u.threads ensures HoldsLock(u, t) {
      if t != a.t { assert HoldsLock(s, t); }
    }
    forall i | 0 <= i < |u.nodes| ensures Consistent(u, i) { assert Consistent(s, i); }
  }

  lemma LocksKeptByAppend<L>(impl: Impl<L>, s: State<L>, t: nat)
    requires Locks(s) && Enabled(s, Append(t))
    ensures Locks(After(impl, s, Append(t)))
  {
    var u := After(impl, s, Append(t));
    forall w | w in u.threads ensures HoldsLock(u, w) { assert HoldsLock(s, w); }
    forall i | 0 <= i < |u.nodes| ensures Consistent(u, i) {
      if i < |s.nodes| { assert Consistent(s, i); }
    }
  }

  lemma LocksKeptByPublish<L>(impl: Impl<L>, s: State<L>, t: nat)
    requires Locks(s) && Enabled(s, Publish(t))
    ensures Locks(After(impl, s, Publish(t)))
  {
    var u := After(impl, s, Publish(t));
    assert HoldsLock(s, t) && Consistent(s, s.threads[t].child);
    forall w | w in u.threads ensures HoldsLock(u, w) { assert HoldsLock(s, w); }
    forall i | 0 <= i < |u.nodes| ensures Consistent(u, i) { assert Consistent(s, i); }
  }

  /** A node whose parent was fulfilled is complete: nobody can be constructing it. */
  lemma ParentDonePublished<L>(s: State<L>, i: nat)
    requires Tree(s) && Locks(s) && i < |s.nodes| && s.nodes[i].parent < |s.nodes|
    requires i > 0 ==> s.nodes[s.nodes[i].parent].done
    ensures s.nodes[i].published
  {
    assert Consistent(s, i) && Consistent(s, s.nodes[i].parent);
    assert !s.nodes[i].published ==> HoldsLock(s, s.nodes[i].owner);
  }

  lemma LocksKeptByWrite<L>(impl: Impl<L>, s: State<L>)
    requires Tree(s) && Locks(s) && Enabled(s, Write)
    requires var p := s.stack[0].p; s.nodes[p].parent < |s.nodes| && (p > 0 ==> s.nodes[s.nodes[p].parent].done)
    ensures Locks(After(impl, s, Write))
  {
    var u, p := After(impl, s, Write), s.stack[0].p;
    ParentDonePublished(s, p);
    forall w | w in u.threads ensures HoldsLock(u, w) { assert HoldsLock(s, w); }
    forall i | 0 <= i < |u.nodes| ensures Consistent(u, i) { assert Consistent(s, i); }
  }

  /** The logger that node p is instantiated from. */
  function Base<L>(s: State<L>, p: nat): L
    requires p < |s.nodes| && s.actual.Some? && s.nodes[p].parent < |s.nodes|
  {
    if p == 0 then s.actual.value else s.nodes[s.nodes[p].parent].logger
  }

  ghost predicate Reached<L>(s: State<L>, p: nat)
    requires p < |s.nodes|
  {
    s.nodes[p].parent < |s.nodes| && (p > 0 ==> s.nodes[s.nodes[p].parent].done)
  }

  ghost predicate GoodFrame<L>(s: State<L>, f: Frame<L>)
    requires s.actual.Some?
  {
    f.p < |s.nodes| &&
    match f
    case Visit(p, parent) => Reached(s, p) && parent == Base(s, p)
    case Expand(p, mine) => s.nodes[p].done && mine == s.nodes[p].logger
  }

  /** A node that was written holds its options on top of the logger above, which was written before. */
  ghost predicate Written<L>(impl: Impl<L>, s: State<L>, i: nat)
    requires s.actual.Some? && i < |s.nodes|
  {
    s.nodes[i].done ==> Reached(s, i) && s.nodes[i].logger == Instantiate(impl, FieldsOf(s, i), Base(s, i))
  }

  ghost predicate OnStack<L>(s: State<L>, visit: bool, p: nat) {
    exists k :: 0 <= k < |s.stack| && s.stack[k].Visit? == visit && s.stack[k].p == p
  }

  /** Node i was reached, or is still in the reach of the pending calls. */
  ghost predicate Covered<L>(s: State<L>, i: nat)
    requires i < |s.nodes| && s.nodes[i].parent < |s.nodes|
  {
    || s.nodes[i].done
    || OnStack(s, true, i)
    || (i > 0 && (!s.nodes[s.nodes[i].parent].done || OnStack(s, false, s.nodes[i].parent)))
  }

  ghost predicate Progress<L>(impl: Impl<L>, s: State<L>)
    requires Tree(s)
  {
    if s.actual.None? then s.stack == [] && forall i :: 0 <= i < |s.nodes| ==> !s.nodes[i].done
    else
      && (forall k :: 0 <= k < |s.stack| ==> GoodFrame(s, s.stack[k]))
      && (forall i :: 0 <= i < |s.nodes| ==> Written(impl, s, i))
      && (forall i :: 0 <= i < |s.nodes| ==> InTree(s, i) && Covered(s, i))
  }

  ghost predicate NewBelowPending<L>(u: State<L>, i: nat)
    requires i < |u.nodes|
  {
    0 < i && !u.nodes[i].done && u.nodes[i].parent < |u.nodes| && !u.nodes[u.nodes[i].parent].done
  }

  ghost predicate SameResult<L>(s: State<L>, u: State<L>, i: nat)
    requires i < |s.nodes| && i < |u.nodes|
  {
    && u.nodes[i].logger == s.nodes[i].logger && u.nodes[i].parent == s.nodes[i].parent
    && u.nodes[i].done == s.nodes[i].done && u.nodes[i].op == s.nodes[i].op
  }

  /** Derivations change no result of fulfilment and reach no pending call. */
  lemma ProgressKeptByDeriving<L>(impl: Impl<L>, s: State<L>, u: State<L>)
    requires Tree(s) && Tree(u) && Progress(impl, s)
    requires u.actual == s.actual && u.stack == s.stack && |s.nodes| <= |u.nodes|
    requires forall i :: 0 <= i < |s.nodes| ==> SameResult(s, u, i)
    requires forall i :: |s.nodes| <= i < |u.nodes| ==> NewBelowPending(u, i)
    ensures Progress(impl, u)
  {
    if s.actual.Some? {
      forall k | 0 <= k < |u.stack| ensures GoodFrame(u, u.stack[k]) {
        assert GoodFrame(s, s.stack[k]) && SameResult(s, u, s.stack[k].p);
        assert InTree(s, s.stack[k].p) && SameResult(s, u, s.nodes[s.stack[k].p].parent);
      }
      forall i | 0 <= i < |u.nodes| ensures InTree(u, i) && Written(impl, u, i) && Covered(u, i) {
        if i < |s.nodes| {
          assert InTree(s, i) && SameResult(s, u, i) && SameResult(s, u, s.nodes[i].parent);
          assert Written(impl, s, i) && Covered(s, i);
          assert OnStack(s, true, i) == OnStack(u, true, i);
          assert OnStack(s, false, s.nodes[i].parent) == OnStack(u, false, s.nodes[i].parent);
        } else {
          assert NewBelowPending(u, i);
        }
      }
    } else {
      forall i | 0 <= i < |u.nodes| ensures !u.nodes[i].done {
        if i < |s.nodes| { assert SameResult(s, u, i); } else { assert NewBelowPending(u, i); }
      }
    }
  }

  lemma ProgressKeptByWrite<L>(impl: Impl<L>, s: State<L>)
    requires Tree(s) && Progress(impl, s) && Enabled(s, Write) && s.actual.Some?
    ensures Tree(After(impl, s, Write)) && Progress(impl, After(impl, s, Write))
  {
    var u, p := After(impl, s, Write), s.stack[0].p;
    TreeKept(impl, s, Write);
    assert GoodFrame(s, s.stack[0]) && Written(impl, s, p) && InTree(s, p);
    assert s.nodes[p].done ==> u.nodes[p].logger == s.nodes[p].logger;
    forall k | 0 <= k < |u.stack| ensures GoodFrame(u, u.stack[k]) {
      if k > 0 { assert u.stack[k] == s.stack[k] && GoodFrame(s, s.stack[k]); }
    }
    forall i | 0 <= i < |u.nodes| ensures Written(impl, u, i) { assert Written(impl, s, i) && InTree(s, i); }
    forall i | 0 <= i < |u.nodes| ensures InTree(u, i) && Covered(u, i) {
      assert InTree(s, i) && InTree(u, i);
      CoveredByWrite(impl, s, i);
    }
  }

  lemma CoveredByWrite<L>(impl: Impl<L>, s: State<L>, i: nat)
    requires Tree(s) && Enabled(s, Write) && i < |s.nodes| && s.nodes[i].parent < |s.nodes| && Covered(s, i)
    ensures Covered(After(impl, s, Write), i)
  {
    var u, p := After(impl, s, Write), s.stack[0].p;
    assert u.stack[0].Expand? && u.stack[0].p == p;
    assert forall k :: 0 < k < |s.stack| ==> u.stack[k] == s.stack[k];
    if i != p && !s.nodes[i].done {
      if OnStack(s, true, i) {
        var k :| 0 <= k < |s.stack| && s.stack[k].Visit? && s.stack[k].p == i;
        assert u.stack[k].Visit? && u.stack[k].p == i;
      } else if OnStack(s, false, s.nodes[i].parent) {
        var k :| 0 <= k < |s.stack| && s.stack[k].Expand? && s.stack[k].p == s.nodes[i].parent;
        assert u.stack[k].Expand? && u.stack[k].p == s.nodes[i].parent;
      }
    }
  }

  lemma ProgressKeptByRecurse<L>(impl: Impl<L>, s: State<L>)
    requires Tree(s) && Progress(impl, s) && Enabled(s, Recurse) && s.actual.Some?
    ensures Tree(After(impl, s, Recurse)) && Progress(impl, After(impl, s, Recurse))
  {
    var u, p, mine := After(impl, s, Recurse), s.stack[0].p, s.stack[0].mine;
    var kids := s.nodes[p].children;
    TreeKept(impl, s, Recurse);
    assert GoodFrame(s, s.stack[0]) && InTree(s, p);
    forall k | 0 <= k < |u.stack| ensures GoodFrame(u, u.stack[k]) {
      if k < |kids| {
        assert u.stack[k] == Visit(kids[k], mine);
      } else {
        assert u.stack[k] == s.stack[k - |kids| + 1] && GoodFrame(s, s.stack[k - |kids| + 1]);
      }
    }
    forall i | 0 <= i < |u.nodes| ensures Written(impl, u, i) { assert Written(impl, s, i); }
    forall i | 0 <= i < |u.nodes| ensures InTree(u, i) && Covered(u, i) {
      assert InTree(s, i) && InTree(u, i);
      CoveredByRecurse(impl, s, i);
    }
  }

  lemma CoveredByRecurse<L>(impl: Impl<L>, s: State<L>, i: nat)
    requires Tree(s) && Enabled(s, Recurse) && i < |s.nodes| && s.nodes[i].parent < |s.nodes| && Covered(s, i)
    ensures Covered(After(impl, s, Recurse), i)
  {
    var u, p := After(impl, s, Recurse), s.stack[0].p;
    var kids := s.nodes[p].children;
    assert InTree(s, i);
    if !s.nodes[i].done {
      if OnStack(s, true, i) {
        var k :| 0 <= k < |s.stack| && s.stack[k].Visit? && s.stack[k].p == i;
        assert u.stack[k - 1 + |kids|] == s.stack[k];
      } else if i > 0 && OnStack(s, false, s.nodes[i].parent) {
        var k :| 0 <= k < |s.stack| && s.stack[k].Expand? && s.stack[k].p == s.nodes[i].parent;
        if s.nodes[i].parent == p {
          assert u.stack[s.nodes[i].slot] == Visit(i, s.stack[0].mine);
        } else {
          assert u.stack[k - 1 + |kids|] == s.stack[k];
        }
      }
    }
  }

  ghost predicate Invariant<L>(impl: Impl<L>, s: State<L>) {
    Tree(s) && Locks(s) && Progress(impl, s)
  }

  lemma InvariantKept<L>(impl: Impl<L>, s: State<L>, a: Action<L>)
    requires Invariant(impl, s) && Enabled(s, a)
    ensures Invariant(impl, After(impl, s, a))
  {
    var u := After(impl, s, a);
    TreeKept(impl, s, a);
    match a
    case Check(_, _, _) =>
      LocksKeptByCheck(impl, s, a);
      ProgressKeptByDeriving(impl, s, u);
    case Append(t) =>
      LocksKeptByAppend(impl, s, t);
      assert HoldsLock(s, t) && Consistent(s, s.threads[t].from);
      ProgressKeptByDeriving(impl, s, u);
    case Publish(t) =>
      LocksKeptByPublish(impl, s, t);
      ProgressKeptByDeriving(impl, s, u);
    case Begin(actual) => InvariantKeptByBegin(impl, s, actual);
    case Write =>
      assert GoodFrame(s, s.stack[0]);
      LocksKeptByWrite(impl, s);
      ProgressKeptByWrite(impl, s);
    case Recurse =>
      assert forall t :: t in s.threads ==> HoldsLock(s, t) ==> HoldsLock(u, t);
      assert forall i :: 0 <= i < |s.nodes| ==> Consistent(s, i) ==> Consistent(u, i);
      ProgressKeptByRecurse(impl, s);
  }

  lemma InvariantKeptByBegin<L>(impl: Impl<L>, s: State<L>, actual: L)
    requires Invariant(impl, s) && Enabled(s, Begin(actual))
    ensures Invariant(impl, After(impl, s, Begin(actual)))
  {
    var u := After(impl, s, Begin(actual));
    TreeKept(impl, s, Begin(actual));
    assert InTree(s, 0) && GoodFrame(u, u.stack[0]);
    assert OnStack(u, true, 0) by { assert u.stack[0].Visit? && u.stack[0].p == 0; }
    forall t | t in u.threads ensures HoldsLock(u, t) { assert HoldsLock(s, t); }
    forall i | 0 <= i < |u.nodes| ensures Consistent(u, i) && InTree(u, i) && Covered(u, i) {
      assert Consistent(s, i) && InTree(s, i);
    }
  }

  lemma {:induction false} InvariantOfRun<L>(impl: Impl<L>, initial: L, actions: seq<Action<L>>)
    requires Exec(impl, Init(initial), actions).Some?
    ensures Invariant(impl, Exec(impl, Init(initial), actions).value)
  {
    if actions == [] {
      var s := Init(initial);
      assert InTree(s, 0) && Consistent(s, 0);
    } else {
      var before := actions[..|actions| - 1];
      InvariantOfRun(impl, initial, before);
      InvariantKept(impl, Exec(impl, Init(initial), before).value, actions[|actions| - 1]);
    }
  }

  // ----- What a finished fulfilment has done -----

  /** The derivations that lead from the root to node i. */
  ghost function Path<L>(s: State<L>, i: nat): seq<Op>
    requires Tree(s) && i < |s.nodes|
    decreases i
  {
    if i == 0 then [] else
      assert InTree(s, i);
      Path(s, s.nodes[i].parent) + [s.nodes[i].op]
  }

  lemma {:induction false} DoneByChain<L>(impl: Impl<L>, s: State<L>, i: nat)
    requires Tree(s) && Progress(impl, s) && s.actual.Some? && i < |s.nodes| && s.nodes[i].done
    ensures s.nodes[i].logger == FulfillAll(impl, s.actual.value, Path(s, i))
    decreases i
  {
    assert Written(impl, s, i) && InTree(s, i);
    if i > 0 {
      DoneByChain(impl, s, s.nodes[i].parent);
      var above := Path(s, s.nodes[i].parent);
      assert (above + [s.nodes[i].op])[..|above|] == above;
    } else {
      assert Instantiate(impl, ROOT, s.actual.value) == s.actual.value;
    }
  }

  lemma {:induction false} AllDone<L>(impl: Impl<L>, s: State<L>, i: nat)
    requires Tree(s) && Progress(impl, s) && s.actual.Some? && s.stack == [] && i < |s.nodes|
    ensures s.nodes[i].done
    decreases i
  {
    assert InTree(s, i) && Covered(s, i);
    if i > 0 {
      AllDone(impl, s, s.nodes[i].parent);
    }
  }

  /**
   Once the traversal ended, no logger ever derived waits for a promise, whatever was
   derived meanwhile, and each is the real logger under the derivations that made it.
   */
  lemma NoPromiseMissed<L>(impl: Impl<L>, initial: L, actions: seq<Action<L>>, s: State<L>, i: nat)
    requires Exec(impl, Init(initial), actions) == Some(s) && s.actual.Some? && s.stack == [] && i < |s.nodes|
    ensures s.nodes[i].published && !s.nodes[i].promise
    ensures Tree(s) && s.nodes[i].logger == FulfillAll(impl, s.actual.value, Path(s, i))
    ensures s.threads == map[]
  {
    InvariantOfRun(impl, initial, actions);
    NothingPending(impl, s, i);
    DoneByChain(impl, s, i);
  }

  lemma NothingPending<L>(impl: Impl<L>, s: State<L>, i: nat)
    requires Invariant(impl, s) && s.actual.Some? && s.stack == [] && i < |s.nodes|
    ensures s.nodes[i].done && s.nodes[i].published && !s.nodes[i].promise
    ensures s.threads == map[]
  {
    AllDone(impl, s, i);
    assert Consistent(s, i);
    forall t ensures t !in s.threads {
      if t in s.threads {
        assert HoldsLock(s, t) && Consistent(s, s.threads[t].from);
        AllDone(impl, s, s.threads[t].from);
      }
    }
  }

  /** Until fulfilment reaches it, every logger is the initial one. */
  lemma {:induction false} InitialUntilDone<L>(impl: Impl<L>, initial: L, actions: seq<Action<L>>, s: State<L>, i: nat)
    requires Exec(impl, Init(initial), actions) == Some(s) && i < |s.nodes| && !s.nodes[i].done
    ensures s.nodes[i].logger == initial
  {
    if actions != [] {
      var before, a := actions[..|actions| - 1], actions[|actions| - 1];
      var u := Exec(impl, Init(initial), before).value;
      InvariantOfRun(impl, initial, before);
      if i < |u.nodes| && !u.nodes[i].done {
        InitialUntilDone(impl, initial, before, u, i);
      }
      if a.Append? {
        assert HoldsLock(u, a.t) && Consistent(u, u.threads[a.t].from);
        InitialUntilDone(impl, initial, before, u, u.threads[a.t].from);
      }
    }
  }

  /** Derived before or after: with the usual identities the logger is the same. */
  lemma DerivedEarlyOrLate<L(!new)>(impl: Impl<L>, initial: L, actions: seq<Action<L>>, s: State<L>, i: nat, op: Op)
    requires Exec(impl, Init(initial), actions) == Some(s) && s.actual.Some? && s.stack == [] && i < |s.nodes|
    requires Identities(impl)
    ensures Tree(s) && s.nodes[i].logger == DirectAll(impl, s.actual.value, Path(s, i))
    ensures Direct(impl, s.nodes[i].logger, op) == DirectAll(impl, s.actual.value, Path(s, i) + [op])
  {
    NoPromiseMissed(impl, initial, actions, s, i);
    ChainCommutes(impl, s.actual.value, Path(s, i));
    assert (Path(s, i) + [op])[..|Path(s, i)|] == Path(s, i);
  }

  // ----- Fulfilment can always end -----

  ghost predicate Reaches<L(!new)>(impl: Impl<L>, s: State<L>, t: State<L>) {
    exists actions :: Exec(impl, s, actions) == Some(t)
  }

  lemma Step<L(!new)>(impl: Impl<L>, o: State<L>, s: State<L>, a: Action<L>) returns (t: State<L>)
    requires Reaches(impl, o, s) && Invariant(impl, s) && Enabled(s, a)
    ensures t == After(impl, s, a) && Reaches(impl, o, t) && Invariant(impl, t)
  {
    t := After(impl, s, a);
    var actions :| Exec(impl, o, actions) == Some(s);
    assert (actions + [a])[..|actions|] == actions;
    assert Exec(impl, o, actions + [a]) == Some(t);
    InvariantKept(impl, s, a);
  }

  /** The derivation of goroutine w is completed. */
  lemma DerivationEnds<L(!new)>(impl: Impl<L>, o: State<L>, s: State<L>, w: nat) returns (t: State<L>)
    requires Reaches(impl, o, s) && Invariant(impl, s) && w in s.threads
    ensures Reaches(impl, o, t) && Invariant(impl, t)
    ensures t.threads == s.threads - {w} && t.stack == s.stack && t.actual == s.actual
  {
    t := s;
    assert HoldsLock(t, w);
    if t.threads[w].Checked? {
      t := Step(impl, o, t, Append(w));
    }
    assert HoldsLock(t, w) && t.threads - {w} == s.threads - {w};
    t := Step(impl, o, t, Publish(w));
  }

  lemma {:induction false} DerivationsEnd<L(!new)>(impl: Impl<L>, o: State<L>, s: State<L>) returns (t: State<L>)
    requires Reaches(impl, o, s) && Invariant(impl, s)
    ensures Reaches(impl, o, t) && Invariant(impl, t)
    ensures t.threads == map[] && t.stack == s.stack && t.actual == s.actual
    decreases |s.threads|
  {
    if s.threads == map[] {
      t := s;
    } else {
      var w :| w in s.threads;
      var u := DerivationEnds(impl, o, s, w);
      assert |u.threads| < |s.threads| by {
        assert s.threads.Keys == u.threads.Keys + {w};
      }
      t := DerivationsEnd(impl, o, u);
    }
  }

  /** One pending call and all that it calls. */
  lemma {:induction false} CallEnds<L(!new)>(impl: Impl<L>, o: State<L>, s: State<L>) returns (t: State<L>)
    requires Reaches(impl, o, s) && Invariant(impl, s) && s.threads == map[] && s.actual.Some? && s.stack != []
    ensures Reaches(impl, o, t) && Invariant(impl, t) && t.threads == map[] && t.actual == s.actual
    ensures t.stack == s.stack[1..] && |t.nodes| == |s.nodes|
    decreases |s.nodes| - s.stack[0].p, 2
  {
    assert GoodFrame(s, s.stack[0]);
    t := s;
    if t.stack[0].Visit? {
      t := Step(impl, o, t, Write);
    }
    assert InTree(t, t.stack[0].p);
    var p, kids := t.stack[0].p, t.nodes[t.stack[0].p].children;
    t := Step(impl, o, t, Recurse);
    assert t.stack[|kids|..] == s.stack[1..];
    t := CallsEnd(impl, o, t, |kids|, p);
  }

  /** The first n pending calls, on nodes beyond p. */
  lemma {:induction false} CallsEnd<L(!new)>(impl: Impl<L>, o: State<L>, s: State<L>, n: nat, p: nat) returns (t: State<L>)
    requires Reaches(impl, o, s) && Invariant(impl, s) && s.threads == map[] && s.actual.Some?
    requires p < |s.nodes| && n <= |s.stack| && forall k :: 0 <= k < n ==> p < s.stack[k].p
    ensures Reaches(impl, o, t) && Invariant(impl, t) && t.threads == map[] && t.actual == s.actual
    ensures t.stack == s.stack[n..] && |t.nodes| == |s.nodes|
    decreases |s.nodes| - p, 1, n
  {
    if n == 0 {
      t := s;
    } else {
      assert GoodFrame(s, s.stack[0]);
      var u := CallEnds(impl, o, s);
      t := CallsEnd(impl, o, u, n - 1, p);
      assert s.stack[1..][n - 1..] == s.stack[n..];
    }
  }

  lemma {:induction false} StackEnds<L(!new)>(impl: Impl<L>, o: State<L>, s: State<L>) returns (t: State<L>)
    requires Reaches(impl, o, s) && Invariant(impl, s) && s.threads == map[] && s.actual.Some?
    ensures Reaches(impl, o, t) && t.stack == [] && t.actual == s.actual
    decreases |s.stack|
  {
    if s.stack == [] {
      t := s;
    } else {
      var u := CallEnds(impl, o, s);
      t := StackEnds(impl, o, u);
    }
  }

  /** From every state of every run fulfilment can begin, unless it has, and be brought to its end. */
  lemma CanAlwaysFulfill<L(!new)>(impl: Impl<L>, initial: L, actions: seq<Action<L>>, s: State<L>, actual: L)
    returns (t: State<L>)
    requires Exec(impl, Init(initial), actions) == Some(s)
    ensures Reaches(impl, s, t) && t.stack == []
    ensures t.actual == if s.actual.Some? then s.actual else Some(actual)
  {
    InvariantOfRun(impl, initial, actions);
    assert Exec(impl, s, []) == Some(s);
    t := s;
    if s.actual.None? {
      assert Consistent(s, 0);
      t := Step(impl, s, t, Begin(actual));
    }
    t := DerivationsEnd(impl, s, t);
    t := StackEnds(impl, s, t);
  }

  lemma {:induction false} Unused(ids: set<nat>) returns (bound: nat)
    ensures forall n :: n in ids ==> n < bound
  {
    if ids == {} {
      bound := 0;
    } else {
      var n :| n in ids;
      var rest := Unused(ids - {n});
      bound := if rest > n then rest else n + 1;
      forall m | m in ids ensures m < bound { assert m == n || m in ids - {n}; }
    }
  }

  /** As long as fulfilment has not reached a complete logger, another one can be derived from it. */
  lemma CanAlwaysDerive<L(!new)>(impl: Impl<L>, initial: L, actions: seq<Action<L>>, s: State<L>, from: nat, op: Op)
    returns (t: State<L>)
    requires Exec(impl, Init(initial), actions) == Some(s) && from < |s.nodes|
    requires s.nodes[from].published && !s.nodes[from].done
    ensures Reaches(impl, s, t) && |t.nodes| == |s.nodes| + 1
    ensures var n := t.nodes[|s.nodes|]; n.published && n.promise && n.op == op && n.parent == from && n.logger == initial
  {
    InvariantOfRun(impl, initial, actions);
    InitialUntilDone(impl, initial, actions, s, from);
    assert Exec(impl, s, []) == Some(s);
    var w := Unused(s.threads.Keys);
    assert Consistent(s, from);
    var u := Step(impl, s, s, Check(w, from, op));
    var v := Step(impl, s, u, Append(w));
    assert v.threads[w] == Appended(from, |s.nodes|);
    assert v.nodes[|s.nodes|] == Node(s.nodes[from].logger, false, [], op, from, |s.nodes[from].children|, w, false, false);
    t := Step(impl, s, v, Publish(w));
  }
}
