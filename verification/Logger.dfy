/**
 Delegating loggers: a tree of promises that is fulfilled with a real logger later on.

 `Impl` is the real logger, any implementation of naming, tagging and verbosity over
 any type of logger. `PromiseFields` is what one promise remembers, and
 `Instantiate` is how fulfilment turns the parent's logger into its own.
 */
module Logger {
  import opened Common

  datatype Impl<!L> = Impl(withName: (L, string) -> L, withValues: (L, seq<string>) -> L, v: (L, int) -> L)

  /** A derivation. The tags of a call without arguments are nil, not empty. */
  datatype Op = WithName(name: string) | WithValues(tags: Option<seq<string>>) | V(level: int)

  datatype PromiseFields = PromiseFields(name: Option<string>, tags: Option<seq<string>>, level: int)

  const ROOT := PromiseFields(None, None, 0)

  function FieldsFor(op: Op): PromiseFields {
    match op
    case WithName(n) => PromiseFields(Some(n), None, 0)
    case WithValues(t) => PromiseFields(None, t, 0)
    case V(n) => PromiseFields(None, None, n)
  }

  function Instantiate<L>(impl: Impl<L>, p: PromiseFields, parent: L): L {
    var named := if p.name.Some? then impl.withName(parent, p.name.value) else parent;
    var tagged := if p.tags.Some? then impl.withValues(named, p.tags.value) else named;
    if p.level != 0 then impl.v(tagged, p.level) else tagged
  }

  /** The same derivation made on the real logger. */
  function Direct<L>(impl: Impl<L>, l: L, op: Op): L {
    match op
    case WithName(n) => impl.withName(l, n)
    case WithValues(t) => impl.withValues(l, if t.Some? then t.value else [])
    case V(n) => impl.v(l, n)
  }

  function FulfillAll<L>(impl: Impl<L>, l: L, ops: seq<Op>): L {
    if ops == [] then l
    else Instantiate(impl, FieldsFor(ops[|ops| - 1]), FulfillAll(impl, l, ops[..|ops| - 1]))
  }

  function DirectAll<L>(impl: Impl<L>, l: L, ops: seq<Op>): L {
    if ops == [] then l
    else Direct(impl, DirectAll(impl, l, ops[..|ops| - 1]), ops[|ops| - 1])
  }

  /** Verbosity zero and an empty list of tags change nothing. */
  ghost predicate Identities<L(!new)>(impl: Impl<L>) {
    forall l :: impl.v(l, 0) == l && impl.withValues(l, []) == l
  }

  /** A chain of derivations gives the same logger before and after fulfilment. */
  ghost predicate Commutes<L(!new)>(impl: Impl<L>) {
    forall l, ops :: FulfillAll(impl, l, ops) == DirectAll(impl, l, ops)
  }

  /** Fulfilment commutes with every chain exactly for loggers with those identities. */
  lemma CommutesIffIdentities<L(!new)>(impl: Impl<L>)
    ensures Commutes(impl) <==> Identities(impl)
  {
    if Identities(impl) {
      forall l, ops ensures FulfillAll(impl, l, ops) == DirectAll(impl, l, ops) { ChainCommutes(impl, l, ops); }
    }
    if Commutes(impl) {
      forall l
        ensures impl.v(l, 0) == l && impl.withValues(l, []) == l
      {
        OneStepChain(impl, l, V(0));
        OneStepChain(impl, l, WithValues(None));
        assert FulfillAll(impl, l, [V(0)]) == DirectAll(impl, l, [V(0)]);
        assert FulfillAll(impl, l, [WithValues(None)]) == DirectAll(impl, l, [WithValues(None)]);
      }
    }
  }

  lemma OneStepChain<L>(impl: Impl<L>, l: L, op: Op)
    ensures FulfillAll(impl, l, [op]) == Instantiate(impl, FieldsFor(op), l)
    ensures DirectAll(impl, l, [op]) == Direct(impl, l, op)
  {
    assert [op][..0] == [];
  }

  lemma {:induction false} ChainCommutes<L(!new)>(impl: Impl<L>, l: L, ops: seq<Op>)
    requires Identities(impl)
    ensures FulfillAll(impl, l, ops) == DirectAll(impl, l, ops)
  {
    if ops != [] {
      ChainCommutes(impl, l, ops[..|ops| - 1]);
    }
  }

  // ----- The promise tree on the heap -----

  /** What a derivation returns: another delegating logger, or the real one derived from. */
  datatype Derived<L> = Delegating(pending: DelegatingLogger<L>) | Concrete(actual: L)

  /** All promises below a root, each with the promise it hangs from and its depth, which stays below `bound`. */
  datatype Tree<L> = Tree(
    root: LoggerPromise<L>,
    all: set<LoggerPromise<L>>,
    parent: map<LoggerPromise<L>, LoggerPromise<L>>,
    depth: map<LoggerPromise<L>, nat>,
    bound: nat)

  /** Everything but the root hangs from a promise less deep. */
  ghost predicate Rooted<L>(t: Tree<L>) {
    && t.root in t.all && t.root !in t.parent
    && t.depth.Keys == t.all && t.parent.Keys == t.all - {t.root}
    && (forall q :: q in t.all ==> t.depth[q] < t.bound)
    && (forall q :: q in t.parent ==> t.parent[q] in t.all && t.depth[t.parent[q]] < t.depth[q])
  }

  /** The lists of children are those of the tree. */
  ghost predicate Linked<L>(t: Tree<L>)
    requires Rooted(t)
    reads t.all
  {
    && (forall q, i :: q in t.all && 0 <= i < |q.childPromises| ==>
          q.childPromises[i] in t.parent && t.parent[q.childPromises[i]] == q)
    && (forall q :: q in t.parent ==> q in t.parent[q].childPromises)
  }

  /** Each promise has a logger of its own. */
  ghost predicate OwnLoggers<L>(t: Tree<L>) {
    forall p, q :: p in t.all && q in t.all && p != q ==> p.logger != q.logger
  }

  ghost predicate Valid<L>(t: Tree<L>)
    reads t.all
  {
    Rooted(t) && Linked(t) && OwnLoggers(t)
  }

  ghost function Loggers<L>(t: Tree<L>): set<DelegatingLogger<L>> {
    set q | q in t.all :: q.logger
  }

  /** What fulfilment with `actual` makes of a promise: the options from the root down to it. */
  ghost function Goal<L>(impl: Impl<L>, t: Tree<L>, actual: L, q: LoggerPromise<L>): L
    requires Rooted(t) && q in t.all
    decreases t.depth[q]
  {
    Instantiate(impl, q.fields, if q == t.root then actual else Goal(impl, t, actual, t.parent[q]))
  }

  /** q hangs, at any depth, from p. */
  ghost predicate Under<L>(t: Tree<L>, q: LoggerPromise<L>, p: LoggerPromise<L>)
    requires Rooted(t) && q in t.all
    decreases t.depth[q]
  {
    q == p || (q != t.root && Under(t, t.parent[q], p))
  }

  ghost predicate Done<L>(impl: Impl<L>, t: Tree<L>, actual: L, q: LoggerPromise<L>)
    requires Rooted(t) && q in t.all
    reads q.logger
  {
    q.logger.logger == Goal(impl, t, actual, q) && q.logger.promise == null
  }

  /** The promises whose loggers are what they should be. */
  ghost function Settled<L>(impl: Impl<L>, t: Tree<L>, actual: L): set<LoggerPromise<L>>
    requires Rooted(t)
    reads Loggers(t)
  {
    set q | q in t.all && Done(impl, t, actual, q)
  }

  ghost function Below<L>(t: Tree<L>, p: LoggerPromise<L>): set<LoggerPromise<L>>
    requires Rooted(t)
  {
    set q | q in t.all && Under(t, q, p)
  }

  lemma BelowSplits<L>(t: Tree<L>, p: LoggerPromise<L>, s: set<LoggerPromise<L>>)
    requires Valid(t) && p in t.all && p in s
    requires forall k :: 0 <= k < |p.childPromises| ==> Below(t, p.childPromises[k]) <= s
    ensures Below(t, p) <= s
  {
    forall q | q in Below(t, p) ensures q in s {
      if q != p {
        UnderSomeChild(t, q, p);
        var k :| 0 <= k < |p.childPromises| && Under(t, q, p.childPromises[k]);
        assert q in Below(t, p.childPromises[k]);
      }
    }
  }

  /** What hangs from p, as a tree of its own. */
  ghost function Part<L>(t: Tree<L>, p: LoggerPromise<L>): Tree<L>
    requires Rooted(t) && p in t.all
  {
    var all := Below(t, p);
    Tree(p, all, map q | q in all && q != p && q in t.parent :: t.parent[q], map q | q in all && q in t.depth :: t.depth[q], t.bound)
  }

  lemma PartIsRooted<L>(t: Tree<L>, p: LoggerPromise<L>)
    requires Rooted(t) && p in t.all
    ensures Rooted(Part(t, p)) && Part(t, p).all <= t.all
  {
    var part := Part(t, p);
    forall q | q in part.all && q != p ensures q in t.parent && t.parent[q] in part.all {
      assert Under(t, q, p);
    }
  }

  lemma PartIsValid<L>(t: Tree<L>, p: LoggerPromise<L>)
    requires Valid(t) && p in t.all
    ensures Valid(Part(t, p)) && Loggers(Part(t, p)) <= Loggers(t)
  {
    PartIsRooted(t, p);
    var part := Part(t, p);
    forall q, i | q in part.all && 0 <= i < |q.childPromises|
      ensures q.childPromises[i] in part.parent && part.parent[q.childPromises[i]] == q
    {
      var c := q.childPromises[i];
      assert t.parent[c] == q;
      if c == p {
        NotAboveItself(t, q, p);
      }
      assert Under(t, c, p);
    }
  }

  lemma WholeIsPart<L>(t: Tree<L>)
    requires Rooted(t)
    ensures Part(t, t.root) == t
  {
    forall q | q in t.all ensures q in Below(t, t.root) { UnderRoot(t, q); }
    assert Below(t, t.root) == t.all;
  }

  /** What hangs from p is no less deep. */
  lemma {:induction false} NotAboveItself<L>(t: Tree<L>, q: LoggerPromise<L>, p: LoggerPromise<L>)
    requires Rooted(t) && q in t.all && p in t.all && Under(t, q, p)
    ensures t.depth[p] <= t.depth[q]
    decreases t.depth[q]
  {
    if q != p {
      NotAboveItself(t, t.parent[q], p);
    }
  }

  lemma {:induction false} UnderRoot<L>(t: Tree<L>, q: LoggerPromise<L>)
    requires Rooted(t) && q in t.all
    ensures Under(t, q, t.root)
    decreases t.depth[q]
  {
    if q != t.root {
      UnderRoot(t, t.parent[q]);
    }
  }

  /** Whatever hangs from p is p or hangs from one of its children. */
  lemma {:induction false} UnderSomeChild<L>(t: Tree<L>, q: LoggerPromise<L>, p: LoggerPromise<L>)
    requires Valid(t) && q in t.all && p in t.all && Under(t, q, p) && q != p
    ensures exists i :: 0 <= i < |p.childPromises| && Under(t, q, p.childPromises[i])
    decreases t.depth[q]
  {
    if t.parent[q] == p {
      var i :| 0 <= i < |p.childPromises| && p.childPromises[i] == q;
      assert Under(t, q, p.childPromises[i]);
    } else {
      UnderSomeChild(t, t.parent[q], p);
      var i :| 0 <= i < |p.childPromises| && Under(t, t.parent[q], p.childPromises[i]);
      assert Under(t, q, p.childPromises[i]);
    }
  }

  class DelegatingLogger<L> {
    var logger: L
    var promise: LoggerPromise?<L>

    constructor (initial: L)
      ensures logger == initial && promise == null
    {
      logger := initial;
      promise := null;
    }

    /** WithName, WithValues or V. While a promise is pending, the promise of the new logger hangs below it. */
    method Derive(impl: Impl<L>, op: Op, ghost t: Tree<L>) returns (r: Derived<L>, ghost t': Tree<L>)
      requires promise != null ==> Valid(t) && promise in t.all
      modifies if promise == null then {} else {promise}
      ensures promise == null ==> r == Concrete(Direct(impl, logger, op)) && t' == t
      ensures promise != null ==>
                && r.Delegating? && fresh(r.pending) && r.pending.logger == logger
                && r.pending.promise != null && fresh(r.pending.promise) && r.pending.promise.logger == r.pending
                && r.pending.promise.fields == FieldsFor(op) && r.pending.promise.childPromises == []
                && promise.childPromises == old(promise.childPromises) + [r.pending.promise]
                && t' == Grown(t, promise, r.pending.promise) && Valid(t')
    {
      t' := t;
      if promise == null {
        return Concrete(Direct(impl, logger, op)), t';
      }
      var res;
      res, t' := promise.Derive(logger, op, t);
      return Delegating(res), t';
    }

    /** Fulfils all that hangs from this logger's promise; without a pending promise, nothing happens. */
    method Fulfill(impl: Impl<L>, actual: L, ghost t: Tree<L>)
      requires promise != null ==> Valid(t) && promise in t.all
      modifies if promise == null || !Rooted(t) || promise !in t.all then {} else Loggers(Part(t, promise))
      ensures old(promise) == null ==> promise == null && logger == old(logger)
      ensures old(promise) != null ==>
                && Rooted(Part(t, old(promise)))
                && forall q :: q in t.all && Under(t, q, old(promise)) ==> Done(impl, Part(t, old(promise)), actual, q)
      ensures old(promise) != null && old(promise) == t.root ==> forall q :: q in t.all ==> Done(impl, t, actual, q)
    {
      if promise != null {
        ghost var part := Part(t, promise);
        PartIsValid(t, promise);
        promise.Fulfill(impl, actual, part, actual);
        forall q | q in part.all ensures q in Settled(impl, part, actual) {
          UnderRoot(part, q);
          assert q in Below(part, part.root);
        }
        WholeIsPart(t);
      }
    }
  }

  /** The tree with one more promise, hung from `at`. */
  ghost function Grown<L>(t: Tree<L>, at: LoggerPromise<L>, child: LoggerPromise<L>): Tree<L>
    requires Rooted(t) && at in t.all
  {
    Tree(t.root, t.all + {child}, t.parent[child := at], t.depth[child := t.depth[at] + 1], t.bound + 1)
  }

  method NewDelegatingLogger<L>(initial: L) returns (l: DelegatingLogger<L>, ghost t: Tree<L>)
    ensures fresh(l) && l.logger == initial
    ensures l.promise != null && fresh(l.promise) && l.promise.logger == l
    ensures l.promise.fields == ROOT && l.promise.childPromises == []
    ensures t == Tree(l.promise, {l.promise}, map[], map[l.promise := 0], 1) && Valid(t)
  {
    l := new DelegatingLogger(initial);
    var p := new LoggerPromise(l, ROOT);
    l.promise := p;
    t := Tree(p, {p}, map[], map[p := 0], 1);
  }

  class LoggerPromise<L> {
    const logger: DelegatingLogger<L>
    const fields: PromiseFields
    var childPromises: seq<LoggerPromise<L>>

    constructor (l: DelegatingLogger<L>, f: PromiseFields)
      ensures logger == l && fields == f && childPromises == []
    {
      logger, fields, childPromises := l, f, [];
    }

    /** WithName, WithValues or V of the promise: a new logger that uses `current` and whose promise is appended here. */
    method Derive(current: L, op: Op, ghost t: Tree<L>) returns (res: DelegatingLogger<L>, ghost t': Tree<L>)
      requires Valid(t) && this in t.all
      modifies this`childPromises
      ensures fresh(res) && res.logger == current
      ensures res.promise != null && fresh(res.promise) && res.promise.logger == res
      ensures res.promise.fields == FieldsFor(op) && res.promise.childPromises == []
      ensures childPromises == old(childPromises) + [res.promise]
      ensures t' == Grown(t, this, res.promise) && Valid(t')
    {
      res := new DelegatingLogger(current);
      var child := new LoggerPromise(res, FieldsFor(op));
      t' := Adopt(child, t);
      res.promise := child;
    }

    /** Appends the promise of a new logger; the tree, whatever is above, has grown by it. */
    method Adopt(child: LoggerPromise<L>, ghost t: Tree<L>) returns (ghost t': Tree<L>)
      requires Valid(t) && this in t.all
      requires child !in t.all && child.childPromises == [] && child.logger !in Loggers(t)
      modifies this`childPromises
      ensures childPromises == old(childPromises) + [child]
      ensures t' == Grown(t, this, child) && Valid(t')
    {
      childPromises := childPromises + [child];
      t' := Grown(t, this, child);
    }

    /** Writes this promise's own logger. */
    method Settle(impl: Impl<L>, parent: L, ghost t: Tree<L>, ghost actual: L) returns (mine: L)
      requires Valid(t) && this in t.all
      requires parent == if this == t.root then actual else Goal(impl, t, actual, t.parent[this])
      modifies logger
      ensures mine == Goal(impl, t, actual, this)
      ensures old(Settled(impl, t, actual)) + {this} <= Settled(impl, t, actual)
    {
      mine := parent;
      if fields.name.Some? {
        mine := impl.withName(mine, fields.name.value);
      }
      if fields.tags.Some? {
        mine := impl.withValues(mine, fields.tags.value);
      }
      if fields.level != 0 {
        mine := impl.v(mine, fields.level);
      }
      logger.logger := mine;
      logger.promise := null;
    }

    /** All that hangs from here becomes what `actual` makes of it, and nothing that already was changes. */
    method Fulfill(impl: Impl<L>, parent: L, ghost t: Tree<L>, ghost actual: L)
      requires Valid(t) && this in t.all
      requires parent == if this == t.root then actual else Goal(impl, t, actual, t.parent[this])
      modifies Loggers(t)
      ensures old(Settled(impl, t, actual)) + Below(t, this) <= Settled(impl, t, actual)
      decreases t.bound - t.depth[this]
    {
      ghost var before := Settled(impl, t, actual);
      var mine := Settle(impl, parent, t, actual);
      for i := 0 to |childPromises|
        invariant before + {this} <= Settled(impl, t, actual)
        invariant forall k :: 0 <= k < i ==> Below(t, childPromises[k]) <= Settled(impl, t, actual)
      {
        childPromises[i].Fulfill(impl, mine, t, actual);
      }
      BelowSplits(t, this, Settled(impl, t, actual));
    }
  }

  // ----- From the root to a promise -----

  /** The promises of a tree remember derivations, and the root none. */
  ghost predicate Remembers<L>(t: Tree<L>, ops: map<LoggerPromise<L>, Op>)
    requires Rooted(t)
  {
    && t.root.fields == ROOT
    && forall q :: q in t.parent ==> q in ops && q.fields == FieldsFor(ops[q])
  }

  ghost function Chain<L>(t: Tree<L>, ops: map<LoggerPromise<L>, Op>, q: LoggerPromise<L>): seq<Op>
    requires Rooted(t) && q in t.all && Remembers(t, ops)
    decreases t.depth[q]
  {
    if q == t.root then [] else Chain(t, ops, t.parent[q]) + [ops[q]]
  }

  /** What fulfilment makes of a promise is the chain of derivations that led to it, applied to the actual logger. */
  lemma {:induction false} GoalIsChain<L>(impl: Impl<L>, t: Tree<L>, actual: L, ops: map<LoggerPromise<L>, Op>, q: LoggerPromise<L>)
    requires Rooted(t) && q in t.all && Remembers(t, ops)
    ensures Goal(impl, t, actual, q) == FulfillAll(impl, actual, Chain(t, ops, q))
    decreases t.depth[q]
  {
    if q != t.root {
      GoalIsChain(impl, t, actual, ops, t.parent[q]);
      var above := Chain(t, ops, t.parent[q]);
      assert (above + [ops[q]])[..|above|] == above;
    }
  }
}
