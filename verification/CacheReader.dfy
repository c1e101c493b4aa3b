/**
 Reading from a cache of one kind: field indexes and listing.

 The indexer is modelled by its contract: it holds items, in whatever order it
 iterates them, and an index lookup yields the items whose index function yields the key.
 */
module CacheReader {
  import opened Common

  datatype Object = Object(ns: string, name: string, labels: map<string, string>, body: string)

  type Extractor = Object -> seq<string>

  /** The contents of a cache, and the extractors registered per field. */
  datatype Indexer = Indexer(items: seq<Object>, extractors: map<string, Extractor>)

  datatype Operator = Equals | DoubleEquals | NotEquals

  datatype Requirement = Requirement(field: string, op: Operator, value: string)

  type LabelSelector = map<string, string> -> bool

  datatype ListOptions = ListOptions(
    labels: Option<LabelSelector>,
    fields: Option<seq<Requirement>>,
    ns: string,
    limit: int)

  datatype Error = NotExact | NoSuchIndex | UnknownNamespace

  // ----- Index keys -----

  const ALL_NAMESPACES := "__all_namespaces"

  function KeyToNamespacedKey(ns: string, baseKey: string): string {
    if ns != "" then ns + "/" + baseKey else ALL_NAMESPACES + "/" + baseKey
  }

  function Prefixed(ns: string, vals: seq<string>): (r: seq<string>)
    ensures |r| == |vals|
    ensures forall i :: 0 <= i < |vals| ==> r[i] == KeyToNamespacedKey(ns, vals[i])
  {
    seq(|vals|, i requires 0 <= i < |vals| => KeyToNamespacedKey(ns, vals[i]))
  }

  /** Keys of a namespaced object are doubled: once under its namespace, once under all of them. */
  function IndexKeys(ns: string, vals: seq<string>): seq<string> {
    if ns == "" then Prefixed("", vals) else Prefixed(ns, vals) + Prefixed("", vals)
  }

  /**
   The loop of the index function, for any way to make keys. For a cluster-scoped object `vals` is the extractor's
   own slice; otherwise it has room for all keys twice.
   */
  method WriteKeys(own: string -> string, every: string -> string, rawVals: array<string>, vals: array<string>)
    requires vals == rawVals || vals.Length == rawVals.Length * 2
    modifies vals
    ensures var n, raw := rawVals.Length, old(rawVals[..]);
            && (forall j :: 0 <= j < n ==> vals[j] == own(raw[j]))
            && (vals != rawVals ==> forall j :: 0 <= j < n ==> vals[n + j] == every(raw[j]))
  {
    var n := rawVals.Length;
    ghost var raw := rawVals[..];
    for i := 0 to n
      invariant forall j :: i <= j < n ==> rawVals[j] == raw[j]
      invariant forall j :: 0 <= j < i ==> vals[j] == own(raw[j])
      invariant vals != rawVals ==> forall j :: 0 <= j < i ==> vals[n + j] == every(raw[j])
    {
      var rawVal := rawVals[i];
      vals[i] := own(rawVal);
      if vals != rawVals {
        vals[n + i] := every(rawVal);
      }
    }
  }

  /** The index function. For a cluster-scoped object it overwrites the extractor's own slice. */
  method IndexValues(ns: string, rawVals: array<string>) returns (vals: array<string>)
    modifies rawVals
    ensures vals[..] == IndexKeys(ns, old(rawVals[..]))
    ensures if ns == "" then vals == rawVals else fresh(vals) && rawVals[..] == old(rawVals[..])
  {
    if ns == "" {
      vals := rawVals;
    } else {
      vals := new string[rawVals.Length * 2](_ => "");
    }
    ghost var raw := rawVals[..];
    WriteKeys(val => KeyToNamespacedKey(ns, val), val => KeyToNamespacedKey("", val), rawVals, vals);
    KeysByPlace(ns, raw, vals[..]);
  }

  lemma KeysByPlace(ns: string, raw: seq<string>, keys: seq<string>)
    requires |keys| == if ns == "" then |raw| else |raw| * 2
    requires forall j :: 0 <= j < |raw| ==> keys[j] == Prefixed(ns, raw)[j]
    requires ns != "" ==> forall j :: 0 <= j < |raw| ==> keys[|raw| + j] == Prefixed("", raw)[j]
    ensures keys == IndexKeys(ns, raw)
  {
    assert keys[..|raw|] == Prefixed(ns, raw);
    if ns != "" {
      assert keys[|raw|..] == Prefixed("", raw);
      assert keys == keys[..|raw|] + keys[|raw|..];
    }
  }

  /** A name a cluster can give to a namespace, as far as the keys are concerned. */
  predicate ProperNamespace(ns: string) {
    '/' !in ns && ns != ALL_NAMESPACES
  }

  lemma SplitAtSlash(a: string, b: string, c: string, d: string)
    requires '/' !in a && '/' !in c && a + "/" + b == c + "/" + d
    ensures a == c && b == d
  {
    var s := a + "/" + b;
    assert s[|a|] == '/' && s[|c|] == '/';
    assert a == s[..|a|] == c;
    assert b == s[|a| + 1..] == d;
  }

  lemma KeysAreInjective(ns: string, key: string, ns': string, key': string)
    requires ProperNamespace(ns) && ProperNamespace(ns')
    requires KeyToNamespacedKey(ns, key) == KeyToNamespacedKey(ns', key')
    ensures ns == ns' && key == key'
  {
    var a := if ns != "" then ns else ALL_NAMESPACES;
    var b := if ns' != "" then ns' else ALL_NAMESPACES;
    SplitAtSlash(a, key, b, key');
  }

  lemma PrefixedLookup(ns: string, vals: seq<string>, asked: string, val: string)
    requires ProperNamespace(ns) && ProperNamespace(asked)
    ensures KeyToNamespacedKey(asked, val) in Prefixed(ns, vals) <==> asked == ns && val in vals
  {
    var key, keys := KeyToNamespacedKey(asked, val), Prefixed(ns, vals);
    if key in keys {
      var i :| 0 <= i < |keys| && keys[i] == key;
      KeysAreInjective(asked, val, ns, vals[i]);
    }
    if asked == ns && val in vals {
      var i :| 0 <= i < |vals| && vals[i] == val;
      assert keys[i] == key;
    }
  }

  /** Looking up a key finds an object exactly when a scan over its extracted values would. */
  lemma KeyLookup(ns: string, vals: seq<string>, asked: string, val: string)
    requires ProperNamespace(ns) && ProperNamespace(asked)
    ensures KeyToNamespacedKey(asked, val) in IndexKeys(ns, vals) <==> (asked == "" || asked == ns) && val in vals
  {
    PrefixedLookup(ns, vals, asked, val);
    PrefixedLookup("", vals, asked, val);
  }

  /** Indexing a slice the object itself holds spoils it: a second call yields other keys, unless it is empty. */
  lemma ReindexingItsOwnKeys(vals: seq<string>)
    ensures IndexKeys("", IndexKeys("", vals)) == IndexKeys("", vals) <==> vals == []
  {
    if vals != [] {
      var once := IndexKeys("", vals)[0];
      assert |IndexKeys("", IndexKeys("", vals))[0]| == |ALL_NAMESPACES| + 1 + |once|;
    }
  }

  // ----- Listing -----

  function ByIndex(items: seq<Object>, extract: Extractor, key: string): seq<Object> {
    Filter((o: Object) => key in IndexKeys(o.ns, extract(o)), items)
  }

  function InNamespace(ns: string): Object -> bool {
    (o: Object) => o.ns == ns
  }

  function RequiresExactMatch(reqs: seq<Requirement>): Option<Requirement> {
    if |reqs| == 1 && reqs[0].op != NotEquals then Some(reqs[0]) else None
  }

  /** What the loop of List goes over. */
  function Candidates(ix: Indexer, opts: ListOptions): Result<seq<Object>, Error> {
    if opts.fields.Some? then
      match RequiresExactMatch(opts.fields.value)
      case None => Err(NotExact)
      case Some(r) =>
        if r.field !in ix.extractors then Err(NoSuchIndex)
        else Ok(ByIndex(ix.items, ix.extractors[r.field], KeyToNamespacedKey(opts.ns, r.value)))
    else if opts.ns != "" then Ok(Filter(InNamespace(opts.ns), ix.items))
    else Ok(ix.items)
  }

  function LabelsMatch(opts: ListOptions): Object -> bool {
    (o: Object) => opts.labels.None? || opts.labels.value(o.labels)
  }

  /** The limit counts what is scanned, not what is returned. */
  function Scanned(objs: seq<Object>, limit: int): seq<Object> {
    if 0 < limit < |objs| then objs[..limit] else objs
  }

  function Listing(ix: Indexer, opts: ListOptions): Result<seq<Object>, Error> {
    match Candidates(ix, opts)
    case Err(e) => Err(e)
    case Ok(objs) => Ok(Filter(LabelsMatch(opts), Scanned(objs, opts.limit)))
  }

  /** The loop of List: stops at the limit, skips what the labels reject. */
  method Select(objs: seq<Object>, opts: ListOptions) returns (items: seq<Object>)
    ensures items == Filter(LabelsMatch(opts), Scanned(objs, opts.limit))
  {
    var limitSet := opts.limit > 0;
    items := [];
    var i := 0;
    while i < |objs|
      invariant 0 <= i <= |objs| && (limitSet ==> i <= opts.limit)
      invariant items == Filter(LabelsMatch(opts), objs[..i])
    {
      if limitSet && i >= opts.limit {
        break;
      }
      FilterStep(LabelsMatch(opts), objs, i);
      if opts.labels.None? || opts.labels.value(objs[i].labels) {
        items := items + [objs[i]];
      }
      i := i + 1;
    }
    assert objs[..i] == Scanned(objs, opts.limit);
  }

  method List(ix: Indexer, opts: ListOptions) returns (out: Result<seq<Object>, Error>)
    ensures out == Listing(ix, opts)
  {
    var found := Candidates(ix, opts);
    if found.Err? {
      return Err(found.error);
    }
    var items := Select(found.value, opts);
    return Ok(items);
  }

  // ----- Agreement with a plain scan -----

  /** The selector that a field requirement stands for, on the values extracted from an object. */
  predicate Meets(r: Requirement, vals: seq<string>) {
    match r.op
    case Equals => r.value in vals
    case DoubleEquals => r.value in vals
    case NotEquals => r.value !in vals
  }

  ghost predicate MeetsAll(ix: Indexer, reqs: seq<Requirement>, o: Object) {
    forall r :: r in reqs ==> r.field in ix.extractors && Meets(r, ix.extractors[r.field](o))
  }

  /** The question a lister asks, without any index: namespace, field requirements and labels. */
  ghost function Asked(ix: Indexer, opts: ListOptions): Object -> bool {
    (o: Object) =>
      && (opts.ns == "" || o.ns == opts.ns)
      && (opts.fields.Some? ==> MeetsAll(ix, opts.fields.value, o))
      && (opts.labels.None? || opts.labels.value(o.labels))
  }

  ghost predicate Exact(reqs: seq<Requirement>) {
    exists r :: reqs == [r] && (r.op == Equals || r.op == DoubleEquals)
  }

  /** List can answer: the field selector, if any, is one equality on an indexed field. */
  ghost predicate Answerable(ix: Indexer, opts: ListOptions) {
    opts.fields.Some? ==> Exact(opts.fields.value) && opts.fields.value[0].field in ix.extractors
  }

  ghost predicate ProperItems(ix: Indexer) {
    forall o :: o in ix.items ==> ProperNamespace(o.ns)
  }

  lemma {:induction false} FilterSame<T>(p: T -> bool, q: T -> bool, s: seq<T>)
    requires forall x :: x in s ==> p(x) == q(x)
    ensures Filter(p, s) == Filter(q, s)
  {
    if s != [] {
      FilterSame(p, q, s[..|s| - 1]);
    }
  }

  lemma {:induction false} FilterTwice<T>(p: T -> bool, q: T -> bool, r: T -> bool, s: seq<T>)
    requires forall x :: x in s ==> r(x) == (p(x) && q(x))
    ensures Filter(q, Filter(p, s)) == Filter(r, s)
  {
    if s != [] {
      FilterTwice(p, q, r, s[..|s| - 1]);
      var kept := Filter(p, s[..|s| - 1]);
      if p(s[|s| - 1]) {
        assert (kept + [s[|s| - 1]])[..|kept|] == kept;
      }
    }
  }

  /** With or without a limit, errors are exactly the questions that cannot be answered. */
  lemma ListsIffAnswerable(ix: Indexer, opts: ListOptions)
    ensures Listing(ix, opts).Ok? <==> Answerable(ix, opts)
    ensures Listing(ix, opts).Err? ==> Listing(ix, opts).error == if Exact(opts.fields.value) then NoSuchIndex else NotExact
  {
    if opts.fields.Some? && |opts.fields.value| == 1 {
      var r := opts.fields.value[0];
      assert opts.fields.value == [r];
      assert r.op.Equals? || r.op.DoubleEquals? || r.op.NotEquals?;
    }
  }

  /** Whatever is listed is cached and meets all that was asked: the namespace, each field requirement, the labels. */
  lemma ListedIsAsked(ix: Indexer, opts: ListOptions, o: Object)
    requires ProperItems(ix) && ProperNamespace(opts.ns) && Listing(ix, opts).Ok? && o in Listing(ix, opts).value
    ensures o in ix.items && Asked(ix, opts)(o)
  {
    ListsIffAnswerable(ix, opts);
    var free := opts.(limit := 0);
    if opts.limit > 0 {
      LimitedPrefix(ix, opts);
      var part, all := Listing(ix, opts).value, Listing(ix, free).value;
      assert o in all[..|part|];
    } else {
      FilterSame(LabelsMatch(free), LabelsMatch(opts), Candidates(ix, opts).value);
    }
    ListAgreesWithScan(ix, free);
    FilterMember(Asked(ix, free), ix.items, o);
  }

  lemma AskedOfOne(ix: Indexer, opts: ListOptions, r: Requirement, o: Object)
    requires opts.fields == Some([r]) && r.field in ix.extractors && r.op != NotEquals
    ensures Asked(ix, opts)(o) <==>
            && (opts.ns == "" || o.ns == opts.ns)
            && r.value in ix.extractors[r.field](o)
            && (opts.labels.None? || opts.labels.value(o.labels))
  {
    var reqs := opts.fields.value;
    assert reqs[0] == r && r in reqs;
    assert MeetsAll(ix, reqs, o) <==> Meets(r, ix.extractors[r.field](o));
    assert r.op.Equals? || r.op.DoubleEquals?;
  }

  /** Without a limit, a cached list is exactly the scan of the cached objects. */
  lemma ListAgreesWithScan(ix: Indexer, opts: ListOptions)
    requires ProperItems(ix) && ProperNamespace(opts.ns) && opts.limit <= 0
    ensures Answerable(ix, opts) ==> Listing(ix, opts) == Ok(Filter(Asked(ix, opts), ix.items))
  {
    if Answerable(ix, opts) {
      if opts.fields.Some? {
        var r := RequiresExactMatch(opts.fields.value).value;
        var key, extract := KeyToNamespacedKey(opts.ns, r.value), ix.extractors[r.field];
        var hit := (o: Object) => key in IndexKeys(o.ns, extract(o));
        forall o | o in ix.items ensures Asked(ix, opts)(o) == (hit(o) && LabelsMatch(opts)(o)) {
          KeyLookup(o.ns, extract(o), opts.ns, r.value);
          AskedOfOne(ix, opts, r, o);
        }
        FilterTwice(hit, LabelsMatch(opts), Asked(ix, opts), ix.items);
      } else if opts.ns != "" {
        FilterTwice(InNamespace(opts.ns), LabelsMatch(opts), Asked(ix, opts), ix.items);
      } else {
        FilterSame(LabelsMatch(opts), Asked(ix, opts), ix.items);
      }
    }
  }

  function Min(a: int, b: int): int {
    if a < b then a else b
  }

  /** Two views of one cache. The indexer iterates over maps, so each call sees the objects in an order of its own. */
  ghost predicate SameContents(ix: Indexer, again: Indexer) {
    multiset(ix.items) == multiset(again.items) && ix.extractors == again.extractors
  }

  lemma CandidatesInAnyOrder(ix: Indexer, again: Indexer, opts: ListOptions)
    requires SameContents(ix, again) && Answerable(ix, opts)
    ensures Candidates(ix, opts).Ok? && Candidates(again, opts).Ok?
    ensures multiset(Candidates(ix, opts).value) == multiset(Candidates(again, opts).value)
  {
    if opts.fields.Some? {
      var r := RequiresExactMatch(opts.fields.value).value;
      var key, extract := KeyToNamespacedKey(opts.ns, r.value), ix.extractors[r.field];
      FilterPermutation((o: Object) => key in IndexKeys(o.ns, extract(o)), ix.items, again.items);
    } else if opts.ns != "" {
      FilterPermutation(InNamespace(opts.ns), ix.items, again.items);
    }
  }

  /** What a limited list scans and what it leaves. */
  lemma ScanSplits(ix: Indexer, opts: ListOptions) returns (scanned: seq<Object>, rest: seq<Object>)
    requires Answerable(ix, opts) && opts.limit > 0
    ensures Candidates(ix, opts) == Ok(scanned + rest)
    ensures |scanned| <= opts.limit && (rest != [] ==> |scanned| == opts.limit)
    ensures Listing(ix, opts) == Ok(Filter(LabelsMatch(opts), scanned))
    ensures Listing(ix, opts.(limit := 0)) == Ok(Filter(LabelsMatch(opts), scanned) + Filter(LabelsMatch(opts), rest))
  {
    var objs := Candidates(ix, opts).value;
    scanned := Scanned(objs, opts.limit);
    rest := objs[|scanned|..];
    assert objs == scanned + rest;
    assert Candidates(ix, opts.(limit := 0)) == Candidates(ix, opts);
    FilterAppend(LabelsMatch(opts), scanned, rest);
    FilterSame(LabelsMatch(opts.(limit := 0)), LabelsMatch(opts), objs);
  }

  /** In one order, a limited list is where the unlimited one begins, and exactly as long as it can be without labels. */
  lemma LimitedPrefix(ix: Indexer, opts: ListOptions)
    requires Answerable(ix, opts) && opts.limit > 0
    ensures var all := Listing(ix, opts.(limit := 0));
            var part := Listing(ix, opts);
            && all.Ok? && part.Ok? && part.value <= all.value
            && |part.value| <= opts.limit
            && (opts.labels.None? ==> |part.value| == Min(opts.limit, |all.value|))
  {
    var scanned, rest := ScanSplits(ix, opts);
    if opts.labels.None? {
      FilterAll(LabelsMatch(opts), scanned);
      FilterAll(LabelsMatch(opts), rest);
    }
  }

  /** Whatever order each call sees, a limited list is part of the unlimited one and no longer than the limit. */
  lemma LimitedList(ix: Indexer, again: Indexer, opts: ListOptions)
    requires SameContents(ix, again) && Answerable(ix, opts) && opts.limit > 0
    ensures var all := Listing(ix, opts.(limit := 0));
            var part := Listing(again, opts);
            && all.Ok? && part.Ok? && multiset(part.value) <= multiset(all.value)
            && |part.value| <= opts.limit
            && (opts.labels.None? ==> |part.value| == Min(opts.limit, |all.value|))
  {
    var free := opts.(limit := 0);
    LimitedPrefix(again, opts);
    var part, rest := ScanSplits(again, opts);
    CandidatesInAnyOrder(ix, again, free);
    FilterPermutation(LabelsMatch(free), Candidates(ix, free).value, Candidates(again, free).value);
    var all, all' := Listing(ix, free).value, Listing(again, free).value;
    assert multiset(all) == multiset(all') && |all| == |multiset(all)| == |multiset(all')| == |all'|;
    assert all' == Listing(again, opts).value + all'[|Listing(again, opts).value|..];
  }

  /** A limited list has as many objects as the limit and the matches allow. */
  ghost predicate LimitIsExact(ix: Indexer, opts: ListOptions)
    requires Answerable(ix, opts)
  {
    |Listing(ix, opts).value| == Min(opts.limit, |Listing(ix, opts.(limit := 0)).value|)
  }

  /** That is so exactly if all is scanned, or all that is scanned matches, or nothing matches beyond. */
  lemma LimitIsExactIff(ix: Indexer, opts: ListOptions)
    requires Answerable(ix, opts) && opts.limit > 0
    ensures var objs := Candidates(ix, opts).value;
            LimitIsExact(ix, opts) <==>
              || |objs| <= opts.limit
              || (forall o :: o in objs[..opts.limit] ==> LabelsMatch(opts)(o))
              || (forall o :: o in objs[opts.limit..] ==> !LabelsMatch(opts)(o))
  {
    var scanned, rest := ScanSplits(ix, opts);
    var objs := Candidates(ix, opts).value;
    if |objs| > opts.limit {
      assert objs[..opts.limit] == scanned && objs[opts.limit..] == rest;
      FilterAll(LabelsMatch(opts), scanned);
      FilterNone(LabelsMatch(opts), rest);
    } else {
      assert rest == [] && Filter(LabelsMatch(opts), rest) == [];
    }
  }

  /** The selector is absent, accepts all labels, or accepts none. */
  ghost predicate Uniform(labels: Option<LabelSelector>) {
    labels.None? || (forall m :: labels.value(m)) || (forall m :: !labels.value(m))
  }

  ghost predicate ExactForAllCaches(labels: Option<LabelSelector>) {
    forall ix: Indexer, opts: ListOptions | opts.labels == labels && opts.limit > 0 && Answerable(ix, opts) :: LimitIsExact(ix, opts)
  }

  /** A selector can be limited in every cache exactly if it tells no objects apart. */
  lemma ExactForAllCachesIff(labels: Option<LabelSelector>)
    ensures ExactForAllCaches(labels) <==> Uniform(labels)
  {
    if Uniform(labels) {
      forall ix: Indexer, opts: ListOptions | opts.labels == labels && opts.limit > 0 && Answerable(ix, opts)
        ensures LimitIsExact(ix, opts)
      {
        UniformSelector(ix, opts);
      }
    } else {
      var yes :| labels.value(yes);
      var no :| !labels.value(no);
      LimitMissesMatches(labels.value, yes, no);
    }
  }

  lemma UniformSelector(ix: Indexer, opts: ListOptions)
    requires Answerable(ix, opts) && opts.limit > 0
    requires Uniform(opts.labels)
    ensures LimitIsExact(ix, opts)
  {
    LimitIsExactIff(ix, opts);
    if opts.labels.None? || (forall m :: opts.labels.value(m)) {
      forall o ensures LabelsMatch(opts)(o) { assert opts.labels.None? || opts.labels.value(o.labels); }
    } else {
      forall o ensures !LabelsMatch(opts)(o) { assert !opts.labels.value(o.labels); }
    }
  }

  /** For any selector that takes some objects and leaves others, a cache in which a limit of one misses the match. */
  lemma MissingCache(selector: LabelSelector, yes: map<string, string>, no: map<string, string>)
    returns (ix: Indexer, opts: ListOptions)
    requires selector(yes) && !selector(no)
    ensures opts == ListOptions(Some(selector), None, "", 1) && Answerable(ix, opts) && !LimitIsExact(ix, opts)
  {
    ix := Indexer([Object("ns", "a", no, ""), Object("ns", "b", yes, "")], map[]);
    opts := ListOptions(Some(selector), None, "", 1);
    var objs := Candidates(ix, opts).value;
    LimitIsExactIff(ix, opts);
    assert ix.items[0] in objs[..1] && ix.items[1] in objs[1..];
  }

  lemma LimitMissesMatches(selector: LabelSelector, yes: map<string, string>, no: map<string, string>)
    requires selector(yes) && !selector(no)
    ensures !ExactForAllCaches(Some(selector))
  {
    var ix, opts := MissingCache(selector, yes, no);
  }
}
