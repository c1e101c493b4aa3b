/** A cache put together from one cache per namespace, and one for cluster-scoped kinds. */
module MultiNamespace {
  import opened Common
  import opened CacheReader

  /** One kind's view of the caches; `namespaced` is its scope. */
  datatype MultiCache = MultiCache(caches: map<string, Indexer>, cluster: Indexer, namespaced: bool)

  /** The configured namespaces, in the order in which the loop meets them. */
  ghost predicate IsOrder(mc: MultiCache, order: seq<string>) {
    && (forall ns :: ns in order <==> ns in mc.caches)
    && (forall i, j :: 0 <= i < j < |order| ==> order[i] != order[j])
  }

  /** What each inner cache returns, in turn, for the unchanged options. */
  function AllLists(mc: MultiCache, order: seq<string>, opts: ListOptions): seq<Object>
    requires forall ns :: ns in order ==> ns in mc.caches
  {
    if order == [] then []
    else
      var ns := order[|order| - 1];
      AllLists(mc, order[..|order| - 1], opts)
      + match Listing(mc.caches[ns], opts) case Ok(objs) => objs case Err(_) => []
  }

  ghost predicate AllAnswerable(mc: MultiCache, opts: ListOptions) {
    forall ns :: ns in mc.caches ==> Answerable(mc.caches[ns], opts)
  }

  /** The options without their limit, if it is one. */
  function Unlimited(opts: ListOptions): ListOptions {
    if opts.limit > 0 then opts.(limit := 0) else opts
  }

  /** What an all-namespaces listing hands out, and the limits it passed on. */
  ghost predicate Collected(mc: MultiCache, order: seq<string>, opts: ListOptions, got: seq<Object>, asked: seq<int>)
    requires forall ns :: ns in order ==> ns in mc.caches
  {
    CollectedFrom(AllLists(mc, order, Unlimited(opts)), opts, got, asked)
  }

  ghost predicate CollectedFrom(all: seq<Object>, opts: ListOptions, got: seq<Object>, asked: seq<int>) {
    if opts.limit <= 0 then got == all
    else
      && |got| <= opts.limit
      && multiset(got) <= multiset(all)
      && AllPositive(asked)
      && (opts.labels.None? ==> got <= all && |got| == Min(opts.limit, |all|))
  }

  ghost predicate AllPositive(asked: seq<int>) {
    forall k :: 0 <= k < |asked| ==> asked[k] > 0
  }

  /** What the loop has in hand when the caches so far hold `all`. */
  ghost predicate Gathered(all: seq<Object>, opts: ListOptions, items: seq<Object>) {
    if opts.limit <= 0 then items == all
    else
      && |items| <= opts.limit
      && multiset(items) <= multiset(all)
      && (opts.labels.None? ==> items <= all && (items == all || |items| == opts.limit))
  }

  /** What one cache adds to them, listed without a limit and with what remains of it. */
  ghost predicate Adds(all: seq<Object>, one: seq<Object>, opts: ListOptions, remaining: int) {
    if opts.limit <= 0 then one == all
    else one <= all && |one| <= remaining && (opts.labels.None? && |one| != remaining ==> one == all)
  }

  lemma InnerCall(ix: Indexer, opts: ListOptions, remaining: int)
    requires Listing(ix, opts.(limit := remaining)).Ok?
    requires if opts.limit > 0 then remaining > 0 else remaining == opts.limit
    ensures Answerable(ix, opts) && Listing(ix, Unlimited(opts)).Ok?
    ensures Adds(Listing(ix, Unlimited(opts)).value, Listing(ix, opts.(limit := remaining)).value, opts, remaining)
  {
    if opts.limit > 0 {
      assert opts.(limit := remaining).(limit := 0) == opts.(limit := 0);
      LimitedPrefix(ix, opts.(limit := remaining));
    } else {
      assert opts.(limit := remaining) == opts;
    }
  }

  lemma PrefixMultiset<T>(a: seq<T>, b: seq<T>)
    requires a <= b
    ensures multiset(a) <= multiset(b)
  {
    assert b == a + b[|a|..];
  }

  lemma GatheredMore(all: seq<Object>, more: seq<Object>, opts: ListOptions, items: seq<Object>, one: seq<Object>, remaining: int)
    requires Gathered(all, opts, items) && Adds(more, one, opts, remaining)
    requires opts.limit > 0 ==> 0 < remaining == opts.limit - |items|
    ensures Gathered(all + more, opts, items + one)
  {
    if opts.limit > 0 {
      PrefixMultiset(one, more);
      if opts.labels.None? {
        assert items == all;
        assert all + more == all + one + more[|one|..];
      }
    }
  }

  ghost predicate AnswerableUpTo(mc: MultiCache, order: seq<string>, opts: ListOptions, i: nat)
    requires i <= |order| && forall ns :: ns in order ==> ns in mc.caches
  {
    forall k :: 0 <= k < i ==> Answerable(mc.caches[order[k]], opts)
  }

  lemma AnswerableInAnyOrder(mc: MultiCache, order: seq<string>, opts: ListOptions)
    requires IsOrder(mc, order)
    ensures AllAnswerable(mc, opts) <==> AnswerableUpTo(mc, order, opts, |order|)
  {
  }

  /** The last call failed: its cache is the first in the order that cannot answer. */
  ghost predicate Failed(mc: MultiCache, order: seq<string>, opts: ListOptions, asked: seq<int>, e: Error)
    requires forall ns :: ns in order ==> ns in mc.caches
  {
    && 0 < |asked| <= |order|
    && AnswerableUpTo(mc, order, opts, |asked| - 1)
    && !Answerable(mc.caches[order[|asked| - 1]], opts)
    && Listing(mc.caches[order[|asked| - 1]], opts) == Err(e)
  }

  lemma CallFailed(mc: MultiCache, order: seq<string>, opts: ListOptions, asked: seq<int>, remaining: int)
    requires forall ns :: ns in order ==> ns in mc.caches
    requires |asked| < |order| && AnswerableUpTo(mc, order, opts, |asked|)
    requires Listing(mc.caches[order[|asked|]], opts.(limit := remaining)).Err?
    ensures Failed(mc, order, opts, asked + [remaining], Listing(mc.caches[order[|asked|]], opts.(limit := remaining)).error)
  {
    assert |asked + [remaining]| - 1 == |asked|;
  }

  // ----- What the listing collects -----

  function Part(ix: Indexer, opts: ListOptions): seq<Object> {
    match Listing(ix, opts) case Ok(objs) => objs case Err(_) => []
  }

  /** A limit is set and used up. */
  predicate UsedUp(opts: ListOptions, left: int) {
    opts.limit > 0 && left <= 0
  }

  /** What is left of the limit after the caches of the order. */
  function Left(mc: MultiCache, order: seq<string>, opts: ListOptions): int
    requires forall ns :: ns in order ==> ns in mc.caches
  {
    if order == [] || opts.limit <= 0 then opts.limit
    else
      var left := Left(mc, order[..|order| - 1], opts);
      if left <= 0 then left else left - |Part(mc.caches[order[|order| - 1]], opts.(limit := left))|
  }

  /** What they have contributed: each its list for what was left of the limit, until that is used up. */
  function Got(mc: MultiCache, order: seq<string>, opts: ListOptions): seq<Object>
    requires forall ns :: ns in order ==> ns in mc.caches
  {
    if order == [] then []
    else
      var init := order[..|order| - 1];
      var left := Left(mc, init, opts);
      Got(mc, init, opts) + if UsedUp(opts, left) then [] else Part(mc.caches[order[|order| - 1]], opts.(limit := left))
  }

  lemma GotStep(mc: MultiCache, order: seq<string>, opts: ListOptions, i: nat)
    requires i < |order| && (forall ns :: ns in order ==> ns in mc.caches) && !UsedUp(opts, Left(mc, order[..i], opts))
    ensures var left := Left(mc, order[..i], opts);
            var one := Part(mc.caches[order[i]], opts.(limit := left));
            && Got(mc, order[..i + 1], opts) == Got(mc, order[..i], opts) + one
            && Left(mc, order[..i + 1], opts) == if opts.limit > 0 then left - |one| else left
  {
    assert order[..i + 1][..i] == order[..i];
  }

  lemma {:induction false} GotStops(mc: MultiCache, order: seq<string>, opts: ListOptions, i: nat)
    requires i <= |order| && forall ns :: ns in order ==> ns in mc.caches
    requires i == |order| || UsedUp(opts, Left(mc, order[..i], opts))
    ensures Got(mc, order, opts) == Got(mc, order[..i], opts)
    decreases |order| - i
  {
    if i < |order| {
      assert order[..i + 1][..i] == order[..i];
      GotStops(mc, order, opts, i + 1);
    } else {
      assert order[..i] == order;
    }
  }

  /** One cache, with what is left of the limit, against the same cache without a limit. */
  lemma PartAdds(ix: Indexer, opts: ListOptions, left: int)
    requires if opts.limit > 0 then left > 0 else left == opts.limit
    ensures Adds(Part(ix, Unlimited(opts)), Part(ix, opts.(limit := left)), opts, left)
  {
    if Listing(ix, opts.(limit := left)).Ok? {
      InnerCall(ix, opts, left);
    }
  }

  /** Any order: what was collected is part of what there is, within the limit, and all that fits without labels. */
  lemma {:induction false} GotGathered(mc: MultiCache, order: seq<string>, opts: ListOptions)
    requires forall ns :: ns in order ==> ns in mc.caches
    ensures Gathered(AllLists(mc, order, Unlimited(opts)), opts, Got(mc, order, opts))
    ensures opts.limit > 0 ==> 0 <= Left(mc, order, opts) == opts.limit - |Got(mc, order, opts)|
    ensures opts.limit <= 0 ==> Left(mc, order, opts) == opts.limit
  {
    if order != [] {
      var init, ix := order[..|order| - 1], mc.caches[order[|order| - 1]];
      GotGathered(mc, init, opts);
      var left := Left(mc, init, opts);
      var all, more := AllLists(mc, init, Unlimited(opts)), Part(ix, Unlimited(opts));
      assert AllLists(mc, order, Unlimited(opts)) == all + more;
      if UsedUp(opts, left) {
        FullStays(all, more, opts, Got(mc, init, opts));
      } else {
        PartAdds(ix, opts, left);
        GatheredMore(all, more, opts, Got(mc, init, opts), Part(ix, opts.(limit := left)), left);
      }
    }
  }

  lemma LeftIsRest(mc: MultiCache, order: seq<string>, opts: ListOptions)
    requires forall ns :: ns in order ==> ns in mc.caches
    ensures opts.limit > 0 ==> 0 <= Left(mc, order, opts) == opts.limit - |Got(mc, order, opts)|
  {
    GotGathered(mc, order, opts);
  }

  lemma FullStays(all: seq<Object>, more: seq<Object>, opts: ListOptions, items: seq<Object>)
    requires Gathered(all, opts, items) && opts.limit > 0 && |items| == opts.limit
    ensures Gathered(all + more, opts, items + [])
  {
    PrefixMultiset(all, all + more);
  }

  lemma GotCollected(mc: MultiCache, order: seq<string>, opts: ListOptions, asked: seq<int>)
    requires (forall ns :: ns in order ==> ns in mc.caches) && (opts.limit > 0 ==> AllPositive(asked))
    ensures Collected(mc, order, opts, Got(mc, order, opts), asked)
  {
    GotGathered(mc, order, opts);
  }

  /** Nothing beyond what a limited list scans matches. */
  ghost predicate Complete(ix: Indexer, opts: ListOptions) {
    Candidates(ix, opts).Ok? && 0 < opts.limit < |Candidates(ix, opts).value| ==>
      forall o :: o in Candidates(ix, opts).value[opts.limit..] ==> !LabelsMatch(opts)(o)
  }

  lemma PartIsWholeIff(ix: Indexer, opts: ListOptions)
    requires Answerable(ix, opts) && opts.limit > 0
    ensures |Part(ix, opts)| <= |Part(ix, opts.(limit := 0))|
    ensures |Part(ix, opts)| == |Part(ix, opts.(limit := 0))| <==> Complete(ix, opts)
  {
    var scanned, rest := ScanSplits(ix, opts);
    FilterNone(LabelsMatch(opts), rest);
    if rest != [] {
      assert (scanned + rest)[opts.limit..] == rest;
    }
  }

  /** Every cache, asked for what was left, was scanned to its last match. */
  ghost predicate AllComplete(mc: MultiCache, order: seq<string>, opts: ListOptions)
    requires forall ns :: ns in order ==> ns in mc.caches
  {
    order == [] ||
    var init := order[..|order| - 1];
    AllComplete(mc, init, opts) && Complete(mc.caches[order[|order| - 1]], opts.(limit := Left(mc, init, opts)))
  }

  lemma {:induction false} AllGotIff(mc: MultiCache, order: seq<string>, opts: ListOptions)
    requires opts.limit > 0 && forall ns :: ns in order ==> ns in mc.caches && Answerable(mc.caches[ns], opts)
    ensures |Got(mc, order, opts)| <= |AllLists(mc, order, Unlimited(opts))|
    ensures Left(mc, order, opts) > 0 ==>
              (|Got(mc, order, opts)| == |AllLists(mc, order, Unlimited(opts))| <==> AllComplete(mc, order, opts))
  {
    if order != [] {
      var init, ix := order[..|order| - 1], mc.caches[order[|order| - 1]];
      AllGotIff(mc, init, opts);
      var left := Left(mc, init, opts);
      if left > 0 {
        assert opts.(limit := left).(limit := 0) == Unlimited(opts);
        PartIsWholeIff(ix, opts.(limit := left));
      }
    }
  }

  /** A limited listing has as many objects as limit and matches allow. */
  ghost predicate GotIsExact(mc: MultiCache, order: seq<string>, opts: ListOptions)
    requires forall ns :: ns in order ==> ns in mc.caches
  {
    |Got(mc, order, opts)| == Min(opts.limit, |AllLists(mc, order, Unlimited(opts))|)
  }

  /** That is so exactly if it used the limit up or missed no match. */
  lemma GotIsExactIff(mc: MultiCache, order: seq<string>, opts: ListOptions)
    requires IsOrder(mc, order) && opts.limit > 0 && AllAnswerable(mc, opts)
    ensures GotIsExact(mc, order, opts) <==> Left(mc, order, opts) == 0 || AllComplete(mc, order, opts)
  {
    GotGathered(mc, order, opts);
    AllGotIff(mc, order, opts);
  }

  ghost predicate ExactForAllMultiCaches(labels: Option<LabelSelector>) {
    forall mc: MultiCache, order: seq<string>, opts: ListOptions |
      IsOrder(mc, order) && opts.labels == labels && opts.limit > 0 && AllAnswerable(mc, opts) :: GotIsExact(mc, order, opts)
  }

  /** A selector can be limited in all caches together, whatever they hold and in any order, exactly if it tells no objects apart. */
  lemma ExactForAllMultiCachesIff(labels: Option<LabelSelector>)
    ensures ExactForAllMultiCaches(labels) <==> Uniform(labels)
  {
    if Uniform(labels) {
      forall mc: MultiCache, order: seq<string>, opts: ListOptions |
        IsOrder(mc, order) && opts.labels == labels && opts.limit > 0 && AllAnswerable(mc, opts)
        ensures GotIsExact(mc, order, opts)
      {
        UniformIsExact(mc, order, opts);
      }
    } else {
      var yes :| labels.value(yes);
      var no :| !labels.value(no);
      var ix, opts := MissingCache(labels.value, yes, no);
      OneCache(ix, opts);
    }
  }

  lemma UniformIsExact(mc: MultiCache, order: seq<string>, opts: ListOptions)
    requires IsOrder(mc, order) && Uniform(opts.labels) && opts.limit > 0 && AllAnswerable(mc, opts)
    ensures GotIsExact(mc, order, opts)
  {
    GotIsExactIff(mc, order, opts);
    LeftIsRest(mc, order, opts);
    if Left(mc, order, opts) > 0 {
      UniformMissesNone(mc, order, opts);
    }
  }

  lemma {:induction false} UniformMissesNone(mc: MultiCache, order: seq<string>, opts: ListOptions)
    requires opts.limit > 0 && forall ns :: ns in order ==> ns in mc.caches && Answerable(mc.caches[ns], opts)
    requires Uniform(opts.labels) && Left(mc, order, opts) > 0
    ensures AllComplete(mc, order, opts)
  {
    if order != [] {
      var init, ix := order[..|order| - 1], mc.caches[order[|order| - 1]];
      UniformMissesNone(mc, init, opts);
      var o := opts.(limit := Left(mc, init, opts));
      UniformSelector(ix, o);
      PartIsWholeIff(ix, o);
    }
  }

  /** A single cache, seen as several. */
  function Alone(ix: Indexer): MultiCache {
    MultiCache(map["ns" := ix], ix, true)
  }

  lemma AloneIsItself(ix: Indexer, opts: ListOptions)
    requires opts.limit > 0
    ensures Got(Alone(ix), ["ns"], opts) == Part(ix, opts)
    ensures AllLists(Alone(ix), ["ns"], Unlimited(opts)) == Part(ix, opts.(limit := 0))
  {
    assert ["ns"][..0] == [] && opts.(limit := opts.limit) == opts;
  }

  lemma OneCache(ix: Indexer, opts: ListOptions)
    requires opts.limit > 0 && Answerable(ix, opts) && !LimitIsExact(ix, opts)
    ensures !ExactForAllMultiCaches(opts.labels)
  {
    AloneIsItself(ix, opts);
    assert IsOrder(Alone(ix), ["ns"]) && AllAnswerable(Alone(ix), opts);
    assert !GotIsExact(Alone(ix), ["ns"], opts);
  }

  /** Asks the next cache for what remains of the limit. */
  method AskNext(mc: MultiCache, order: seq<string>, opts: ListOptions, i: nat, remaining: int, ghost asked: seq<int>)
    returns (one: Result<seq<Object>, Error>)
    requires i == |asked| < |order| && (forall ns :: ns in order ==> ns in mc.caches) && AnswerableUpTo(mc, order, opts, i)
    requires remaining == Left(mc, order[..i], opts) && !UsedUp(opts, remaining)
    ensures one.Err? ==> Failed(mc, order, opts, asked + [remaining], one.error)
    ensures one.Ok? ==>
              && AnswerableUpTo(mc, order, opts, i + 1)
              && Got(mc, order[..i + 1], opts) == Got(mc, order[..i], opts) + one.value
              && Left(mc, order[..i + 1], opts) == if opts.limit > 0 then remaining - |one.value| else remaining
  {
    one := CacheReader.List(mc.caches[order[i]], opts.(limit := remaining));
    if one.Err? {
      CallFailed(mc, order, opts, asked, remaining);
    } else {
      GotStep(mc, order, opts, i);
    }
  }

  /** The loop over all namespaces. `asked` records the limits the inner caches were called with. */
  method Gather(mc: MultiCache, order: seq<string>, opts: ListOptions)
    returns (out: Result<seq<Object>, Error>, asked: seq<int>)
    requires IsOrder(mc, order)
    ensures out.Ok? ==> out.value == Got(mc, order, opts)
    ensures out.Ok? ==> Ended(mc, order, opts, out.value, asked) && Collected(mc, order, opts, out.value, asked)
    ensures out.Err? ==> Failed(mc, order, opts, asked, out.error)
  {
    var allItems: seq<Object> := [];
    var limitSet := opts.limit > 0;
    var remaining := opts.limit;
    asked := [];
    var i := 0;
    while i < |order|
      invariant 0 <= i <= |order| && |asked| == i
      invariant AnswerableUpTo(mc, order, opts, i)
      invariant allItems == Got(mc, order[..i], opts) && remaining == Left(mc, order[..i], opts)
      invariant !UsedUp(opts, remaining) && (limitSet ==> AllPositive(asked))
    {
      var one := AskNext(mc, order, opts, i, remaining, asked);
      asked := asked + [remaining];
      if one.Err? {
        return one, asked;
      }
      allItems := allItems + one.value;
      i := i + 1;
      LeftIsRest(mc, order[..i], opts);
      if limitSet {
        remaining := remaining - |one.value|;
        if remaining == 0 {
          break;
        }
      }
    }
    LeftIsRest(mc, order[..i], opts);
    GotStops(mc, order, opts, i);
    GotCollected(mc, order, opts, asked);
    return Ok(allItems), asked;
  }

  /** Every call was answered, and either all caches were called or the limit was reached. */
  ghost predicate Ended(mc: MultiCache, order: seq<string>, opts: ListOptions, items: seq<Object>, asked: seq<int>)
    requires forall ns :: ns in order ==> ns in mc.caches
  {
    && |asked| <= |order| && AnswerableUpTo(mc, order, opts, |asked|)
    && (|asked| == |order| || (opts.limit > 0 && |items| == opts.limit))
  }

  /** All caches can answer: then no order makes the loop fail. Without a limit only then does it succeed. */
  lemma GatherAnswers(mc: MultiCache, order: seq<string>, opts: ListOptions, out: Result<seq<Object>, Error>, asked: seq<int>)
    requires IsOrder(mc, order)
    requires if out.Ok? then Ended(mc, order, opts, out.value, asked) else Failed(mc, order, opts, asked, out.error)
    ensures AllAnswerable(mc, opts) ==> out.Ok?
    ensures opts.limit <= 0 ==> (out.Ok? <==> AllAnswerable(mc, opts))
  {
    AnswerableInAnyOrder(mc, order, opts);
  }

  /** List. The items already in the caller's list stay in front of an all-namespaces listing. */
  method List(mc: MultiCache, order: seq<string>, initial: seq<Object>, opts: ListOptions)
    returns (out: Result<seq<Object>, Error>, asked: seq<int>)
    requires IsOrder(mc, order)
    ensures !mc.namespaced ==> out == Listing(mc.cluster, opts)
    ensures mc.namespaced && opts.ns != "" ==>
              out == if opts.ns in mc.caches then Listing(mc.caches[opts.ns], opts) else Err(UnknownNamespace)
    ensures mc.namespaced && opts.ns == "" && out.Ok? ==>
              out.value == initial + Got(mc, order, opts) && Collected(mc, order, opts, Got(mc, order, opts), asked)
    ensures mc.namespaced && opts.ns == "" && out.Err? ==> Failed(mc, order, opts, asked, out.error)
    ensures mc.namespaced && opts.ns == "" && AllAnswerable(mc, opts) ==> out.Ok?
    ensures mc.namespaced && opts.ns == "" && opts.limit <= 0 ==> (out.Ok? <==> AllAnswerable(mc, opts))
  {
    asked := [];
    if !mc.namespaced {
      out := CacheReader.List(mc.cluster, opts);
    } else if opts.ns != "" {
      if opts.ns !in mc.caches {
        return Err(UnknownNamespace), asked;
      }
      out := CacheReader.List(mc.caches[opts.ns], opts);
    } else {
      out, asked := Gather(mc, order, opts);
      GatherAnswers(mc, order, opts, out, asked);
      if out.Ok? {
        out := Ok(initial + out.value);
      }
    }
  }

  // ----- Agreement with one cache of everything -----

  /** `big` is a cache of all namespaces, and each inner cache is its part for one namespace. */
  ghost predicate PartsOf(mc: MultiCache, big: Indexer) {
    forall ns :: ns in mc.caches ==>
      && ns != "" && ProperNamespace(ns)
      && mc.caches[ns].extractors == big.extractors
      && multiset(mc.caches[ns].items) == multiset(Filter(InNamespace(ns), big.items))
  }

  ghost function AskedIn(big: Indexer, opts: ListOptions, configured: seq<string>): Object -> bool {
    (o: Object) => o.ns in configured && Asked(big, opts)(o)
  }

  lemma PartIsProper(mc: MultiCache, big: Indexer, ns: string)
    requires PartsOf(mc, big) && ns in mc.caches
    ensures ProperItems(mc.caches[ns])
  {
    forall o | o in mc.caches[ns].items ensures ProperNamespace(o.ns) {
      assert o in multiset(mc.caches[ns].items);
      FilterMember(InNamespace(ns), big.items, o);
      assert o in multiset(Filter(InNamespace(ns), big.items));
    }
  }

  /** An inner cache, holding only its namespace, is asked what the big one is asked. */
  lemma SameQuestion(mc: MultiCache, big: Indexer, ns: string, opts: ListOptions, x: Object)
    requires PartsOf(mc, big) && ns in mc.caches
    ensures Asked(mc.caches[ns], opts)(x) == Asked(big, opts)(x)
  {
    if opts.fields.Some? {
      assert MeetsAll(mc.caches[ns], opts.fields.value, x) == MeetsAll(big, opts.fields.value, x);
    }
  }

  lemma CountInOneList(mc: MultiCache, big: Indexer, ns: string, opts: ListOptions, x: Object)
    requires PartsOf(mc, big) && ns in mc.caches && Answerable(big, opts) && opts.ns == "" && opts.limit <= 0
    ensures Answerable(mc.caches[ns], opts) && Listing(mc.caches[ns], opts).Ok?
    ensures multiset(Listing(mc.caches[ns], opts).value)[x] ==
            if x.ns == ns && Asked(big, opts)(x) then multiset(big.items)[x] else 0
  {
    var ix := mc.caches[ns];
    PartIsProper(mc, big, ns);
    ListAgreesWithScan(ix, opts);
    FilterCount(Asked(ix, opts), ix.items, x);
    FilterCount(InNamespace(ns), big.items, x);
    SameQuestion(mc, big, ns, opts, x);
  }

  lemma {:induction false} CountInAllLists(mc: MultiCache, big: Indexer, order: seq<string>, opts: ListOptions, x: Object)
    requires PartsOf(mc, big) && Answerable(big, opts) && opts.ns == "" && opts.limit <= 0
    requires forall ns :: ns in order ==> ns in mc.caches
    requires forall i, j :: 0 <= i < j < |order| ==> order[i] != order[j]
    ensures multiset(AllLists(mc, order, opts))[x] ==
            if x.ns in order && Asked(big, opts)(x) then multiset(big.items)[x] else 0
  {
    if order != [] {
      var init, ns := order[..|order| - 1], order[|order| - 1];
      assert order == init + [ns] && ns !in init;
      CountInAllLists(mc, big, init, opts, x);
      CountInOneList(mc, big, ns, opts, x);
    }
  }

  /** Without a limit, all namespaces together are the big cache restricted to the configured namespaces. */
  lemma UnlimitedListIsOneBigList(mc: MultiCache, big: Indexer, order: seq<string>, opts: ListOptions)
    requires PartsOf(mc, big) && Answerable(big, opts) && opts.ns == "" && opts.limit <= 0 && IsOrder(mc, order)
    ensures AllAnswerable(mc, opts)
    ensures multiset(AllLists(mc, order, opts)) == multiset(Filter(AskedIn(big, opts, order), big.items))
  {
    forall x ensures multiset(AllLists(mc, order, opts))[x] == multiset(Filter(AskedIn(big, opts, order), big.items))[x] {
      CountInAllLists(mc, big, order, opts, x);
      FilterCount(AskedIn(big, opts, order), big.items, x);
    }
  }

  /** How many there are to list does not depend on the order of the caches, so neither does a limited length. */
  lemma LimitedLengthForAnyOrder(mc: MultiCache, big: Indexer, order: seq<string>, opts: ListOptions, got: seq<Object>, asked: seq<int>)
    requires PartsOf(mc, big) && Answerable(big, opts) && opts.ns == "" && opts.limit > 0 && opts.labels.None?
    requires IsOrder(mc, order) && Collected(mc, order, opts, got, asked)
    ensures |got| == Min(opts.limit, |Filter(AskedIn(big, opts.(limit := 0), order), big.items)|)
    ensures multiset(got) <= multiset(Filter(AskedIn(big, opts.(limit := 0), order), big.items))
  {
    var free := opts.(limit := 0);
    UnlimitedListIsOneBigList(mc, big, order, free);
    var all, whole := AllLists(mc, order, free), Filter(AskedIn(big, free, order), big.items);
    assert |multiset(all)| == |all| && |multiset(whole)| == |whole|;
  }
}
