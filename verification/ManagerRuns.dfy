/**
 What holds in every interleaving of the manager's goroutines: the wait group and
 the stop procedure, launch counts, and the order of launches.
 */
module ManagerRuns {
  import opened Common
  import opened Manager

  // ----- Growth of the trace -----

  function NewEvents(s: State, a: Action): seq<Event>
    requires Enabled(s, a)
  {
    match a
    case Add(r) => if !s.core.stopEngaged && StartsAtOnce(s.core, r) then [Launch(r)] else []
    case EnterNonLeader => Launches(Webhooks(s.core.nonLeader))
    case LaunchCaches => Launches(s.core.caches)
    case SyncReturns => [Synced(s.core.caches[s.mu.progress.next])]
    case FinishNonLeader => Launches(NonWebhooks(s.core.nonLeader))
    case FinishLeader => Launches(s.core.leader)
    case ServeMetrics => [ServerLaunch(false)]
    case ServeProbes => [ServerLaunch(true)]
    case CancelElection => [ElectionCancelled]
    case _ => []
  }

  lemma TraceGrows(s: State, a: Action)
    requires Enabled(s, a)
    ensures After(s, a).core.trace == s.core.trace + NewEvents(s, a)
  {
    if a.Add? {
      RegisteredTrace(s, a.r);
    } else if a.Start? {
      RegisteredTrace(s, a.cluster);
    } else if InSection(a) {
      SectionTrace(s, a);
    } else if InMain(a) {
      MainTrace(s, a);
    } else {
      AsideTrace(s, a);
    }
  }

  lemma SectionTrace(s: State, a: Action)
    requires Enabled(s, a) && InSection(a)
    ensures SectionStep(s, a).core.trace == s.core.trace + NewEvents(s, a)
  {
    match a
    case EnterNonLeader =>
    case EnterLeader =>
    case LaunchCaches =>
    case SyncReturns =>
    case CachesReady =>
    case FinishNonLeader =>
    case FinishLeader =>
  }

  lemma MainTrace(s: State, a: Action)
    requires Enabled(s, a) && InMain(a)
    ensures MainStep(s, a).core.trace == s.core.trace + NewEvents(s, a)
  {
    match a
    case CancelElection =>
    case StartReceives(_) =>
    case EngageStop =>
    case _ =>
  }

  lemma AsideTrace(s: State, a: Action)
    requires Enabled(s, a) && Aside(a)
    ensures AsideStep(s, a).core.trace == s.core.trace + NewEvents(s, a)
  {
    match a
    case ServeMetrics =>
    case ServeProbes =>
    case _ =>
  }

  lemma RegisteredTrace(s: State, r: Runnable)
    ensures Register(s, r).core.trace ==
            s.core.trace + if !s.core.stopEngaged && StartsAtOnce(s.core, r) then [Launch(r)] else []
  {
    LaunchStep(s.core, [], r);
  }

  lemma {:induction false} LaunchesAt(rs: seq<Runnable>, i: nat)
    requires i < |rs|
    ensures Launches(rs)[i] == Launch(rs[i])
  {
    if i < |rs| - 1 {
      LaunchesAt(rs[..|rs| - 1], i);
    }
  }

  lemma LaunchesMember(rs: seq<Runnable>, e: Event)
    ensures e in Launches(rs) <==> e.Launch? && e.r in rs
  {
    if e in Launches(rs) {
      var i :| 0 <= i < |rs| && Launches(rs)[i] == e;
      LaunchesAt(rs, i);
    }
    if e.Launch? && e.r in rs {
      var i :| 0 <= i < |rs| && rs[i] == e.r;
      LaunchesAt(rs, i);
    }
  }

  // ----- The wait group and the stop procedure -----

  predicate IsLaunch(e: Event) {
    e.Launch? || e.ServerLaunch?
  }

  /** The counter of the wait group is the number of launches that have not called Done. */
  ghost predicate GroupCounts(s: State) {
    && s.core.wg == |s.active|
    && s.failed <= s.active
    && forall i :: i in s.active ==> i < |s.core.trace| && IsLaunch(s.core.trace[i])
  }

  lemma GroupCountsLaunches(s: State, rs: seq<Runnable>)
    requires GroupCounts(s)
    ensures GroupCounts(WithLaunches(s, rs))
  {
    var t := WithLaunches(s, rs);
    assert s.active !! Span(|s.core.trace|, |rs|);
    forall i | i in Span(|s.core.trace|, |rs|)
      ensures t.core.trace[i].Launch?
    {
      LaunchesAt(rs, i - |s.core.trace|);
    }
  }

  lemma GroupCountsDone(s: State, i: nat)
    requires GroupCounts(s) && i in s.active
    ensures GroupCounts(RunnableDone(s, i))
  {
  }

  lemma GroupCountsOne(s: State, t: State, e: Event)
    requires GroupCounts(s) && IsLaunch(e) && t.failed == s.failed
    requires t.core.wg == s.core.wg + 1 && t.core.trace == s.core.trace + [e] && t.active == s.active + {|s.core.trace|}
    ensures GroupCounts(t)
  {
    assert |s.core.trace| !in s.active;
  }

  lemma GroupCountsAdd(s: State, r: Runnable)
    requires GroupCounts(s)
    ensures GroupCounts(Register(s, r))
  {
    var t, n := Register(s, r), |s.core.trace|;
    if !s.core.stopEngaged && StartsAtOnce(s.core, r) {
      RegisteredTrace(s, r);
      assert Span(n, 1) == {n};
      GroupCountsOne(s, t, Launch(r));
    } else {
      assert t.active == s.active && t.core.trace == s.core.trace && t.core.wg == s.core.wg;
    }
  }

  lemma GroupCountsServe(s: State, probe: bool)
    requires GroupCounts(s)
    ensures GroupCounts(ServeOn(s, probe))
  {
    assert |s.core.trace| !in s.active;
  }

  lemma GroupCountsKept(s: State, a: Action)
    requires GroupCounts(s) && Enabled(s, a)
    ensures GroupCounts(After(s, a))
  {
    if a.Add? {
      GroupCountsAdd(s, a.r);
    } else if a.Start? {
      GroupCountsAdd(s, a.cluster);
    } else if InSection(a) {
      GroupCountsInSection(s, a);
    } else if InMain(a) {
      GroupCountsInMain(s, a);
    } else {
      GroupCountsAside(s, a);
    }
  }

  lemma GroupCountsInSection(s: State, a: Action)
    requires GroupCounts(s) && Enabled(s, a) && InSection(a)
    ensures GroupCounts(SectionStep(s, a))
  {
    match a
    case EnterNonLeader => GroupCountsLaunches(s, Webhooks(s.core.nonLeader));
    case LaunchCaches => GroupCountsLaunches(s, s.core.caches);
    case FinishNonLeader => GroupCountsLaunches(s, NonWebhooks(s.core.nonLeader));
    case FinishLeader => GroupCountsLaunches(s, s.core.leader);
    case _ =>
  }

  lemma GroupCountsInMain(s: State, a: Action)
    requires GroupCounts(s) && Enabled(s, a) && InMain(a)
    ensures GroupCounts(MainStep(s, a))
  {
    if a.StartReceives? {
      GroupCountsDone(s, a.i);
    }
  }

  lemma GroupCountsAside(s: State, a: Action)
    requires GroupCounts(s) && Enabled(s, a) && Aside(a)
    ensures GroupCounts(AsideStep(s, a))
  {
    match a
    case ServeMetrics => GroupCountsServe(s, false);
    case ServeProbes => GroupCountsServe(s, true);
    case RunnableEnds(i) => GroupCountsDone(s, i);
    case DrainReceives(i) => GroupCountsDone(s, i);
    case _ =>
  }

  /** Once the group drained, only a metrics server, whose launch takes no lock, can be running. */
  ghost predicate QuietAfterDrain(s: State) {
    s.main.Drained? || s.main.Cancelled? ==>
      forall i :: i in s.active ==> i < |s.core.trace| && s.core.trace[i] == ServerLaunch(false)
  }

  lemma QuietAfterDrainKept(s: State, a: Action)
    requires Phases(s) && GroupCounts(s) && QuietAfterDrain(s) && Enabled(s, a)
    ensures QuietAfterDrain(After(s, a))
  {
    if a.Add? || InSection(a) {
      LaunchersLeaveMain(s, a);
    } else if InMain(a) {
      QuietInMain(s, a);
    } else if Aside(a) {
      QuietAside(s, a);
    }
  }

  lemma LaunchersLeaveMain(s: State, a: Action)
    requires Enabled(s, a) && (a.Add? || InSection(a))
    ensures After(s, a).main == s.main && !s.mu.InStop?
  {
    if InSection(a) {
      SectionLeavesMain(s, a);
    }
  }

  lemma SectionLeavesMain(s: State, a: Action)
    requires Enabled(s, a) && InSection(a)
    ensures SectionStep(s, a).main == s.main && !s.mu.InStop?
  {
    match a
    case EnterNonLeader =>
    case EnterLeader =>
    case LaunchCaches =>
    case SyncReturns =>
    case CachesReady =>
    case FinishNonLeader =>
    case FinishLeader =>
  }

  lemma QuietInMain(s: State, a: Action)
    requires Phases(s) && GroupCounts(s) && QuietAfterDrain(s) && Enabled(s, a) && InMain(a)
    ensures QuietAfterDrain(MainStep(s, a))
  {
    if a.GroupDrained? {
      assert s.active == {};
    }
  }

  lemma QuietAside(s: State, a: Action)
    requires Phases(s) && GroupCounts(s) && QuietAfterDrain(s) && Enabled(s, a) && Aside(a)
    ensures QuietAfterDrain(AsideStep(s, a))
  {
    match a
    case ServeMetrics => QuietServe(s);
    case ServeProbes => ServeLeavesControl(s, true);
    case RunnableEnds(i) => QuietDone(s, i);
    case DrainReceives(i) => QuietDone(s, i);
    case _ =>
  }

  lemma QuietServe(s: State)
    requires QuietAfterDrain(s)
    ensures QuietAfterDrain(ServeOn(s, false))
  {
  }

  lemma QuietDone(s: State, i: nat)
    requires QuietAfterDrain(s)
    ensures QuietAfterDrain(RunnableDone(s, i))
  {
  }

  // ----- Caches come before whatever needs them -----

  predicate IsWebhookLaunch(e: Event) {
    e.Launch? && Classify(e.r) == NonLeaderGroup && e.r.isWebhookServer
  }

  predicate IsCacheLaunch(e: Event) {
    e.Launch? && Classify(e.r) == CacheGroup
  }

  /** The launch of a runnable that is neither a webhook server nor a cache. */
  predicate NeedsCaches(e: Event) {
    e.Launch? && !IsWebhookLaunch(e) && !IsCacheLaunch(e)
  }

  ghost predicate LaunchedBy(trace: seq<Event>, end: nat, r: Runnable)
    requires end <= |trace|
  {
    Launch(r) in trace[..end]
  }

  /** c was launched, and its sync wait returned later, all before position end. */
  ghost predicate SyncedBy(trace: seq<Event>, end: nat, c: Runnable)
    requires end <= |trace|
  {
    exists k | 0 <= k < end :: trace[k] == Synced(c) && LaunchedBy(trace, k, c)
  }

  ghost predicate AllSyncedBy(trace: seq<Event>, end: nat, cs: seq<Runnable>)
    requires end <= |trace|
  {
    forall c :: c in cs ==> SyncedBy(trace, end, c)
  }

  ghost predicate CachesFirst(trace: seq<Event>, cs: seq<Runnable>) {
    forall i | 0 <= i < |trace| :: NeedsCaches(trace[i]) ==> AllSyncedBy(trace, i, cs)
  }

  /** How far the wait for the caches has come. */
  ghost predicate ProgressOf(c: Core, cut: nat, mu: Holder) {
    && cut <= |c.caches|
    && (c.started ==> AllSyncedBy(c.trace, |c.trace|, c.caches[..cut]))
    && (!c.started ==> NoneSuch(c.trace, NeedsCaches))
    && (IsSyncing(mu) ==>
          && mu.progress.next <= |c.caches|
          && AllLaunched(c.trace, c.caches)
          && AllSyncedBy(c.trace, |c.trace|, c.caches[..mu.progress.next]))
  }

  predicate IsSyncing(mu: Holder) {
    (mu.InNonLeader? || mu.InLeader?) && mu.progress.Syncing?
  }

  ghost predicate AllLaunched(trace: seq<Event>, cs: seq<Runnable>) {
    forall c :: c in cs ==> LaunchedBy(trace, |trace|, c)
  }

  ghost predicate NoneSuch(trace: seq<Event>, p: Event -> bool) {
    forall i | 0 <= i < |trace| :: !p(trace[i])
  }

  ghost predicate CacheProgress(s: State) {
    ProgressOf(s.core, s.cut, s.mu)
  }

  lemma SyncedGrows(trace: seq<Event>, more: seq<Event>, end: nat, end': nat, c: Runnable)
    requires end <= |trace| && end <= end' <= |trace + more| && SyncedBy(trace, end, c)
    ensures SyncedBy(trace + more, end', c)
  {
    var k :| 0 <= k < end && trace[k] == Synced(c) && LaunchedBy(trace, k, c);
    assert (trace + more)[..k] == trace[..k];
    assert (trace + more)[k] == Synced(c);
  }

  lemma AllSyncedGrows(trace: seq<Event>, more: seq<Event>, end: nat, end': nat, cs: seq<Runnable>)
    requires end <= |trace| && end <= end' <= |trace + more| && AllSyncedBy(trace, end, cs)
    ensures AllSyncedBy(trace + more, end', cs)
  {
    forall c | c in cs { SyncedGrows(trace, more, end, end', c); }
  }

  lemma CachesFirstGrows(trace: seq<Event>, more: seq<Event>, cs: seq<Runnable>)
    requires CachesFirst(trace, cs)
    requires (forall e :: e in more ==> !NeedsCaches(e)) || AllSyncedBy(trace, |trace|, cs)
    ensures CachesFirst(trace + more, cs)
  {
    var t := trace + more;
    forall i | 0 <= i < |t| && NeedsCaches(t[i])
      ensures AllSyncedBy(t, i, cs)
    {
      if i < |trace| {
        AllSyncedGrows(trace, more, i, i, cs);
      } else {
        assert t[i] in more;
        AllSyncedGrows(trace, more, |trace|, i, cs);
      }
    }
  }

  /** Nothing that needs the caches is launched before started is set. */
  lemma NeedyOnlyWhenStarted(s: State, a: Action)
    requires Lists(s.core) && Phases(s) && Enabled(s, a) && !s.core.started
    ensures NoneSuch(NewEvents(s, a), NeedsCaches)
  {
    var more := NewEvents(s, a);
    forall i | 0 <= i < |more| ensures !NeedsCaches(more[i]) {
      match a
      case EnterNonLeader =>
        LaunchesMember(Webhooks(s.core.nonLeader), more[i]);
        FilterMember(IsWebhook(), s.core.nonLeader, more[i].r);
      case LaunchCaches => LaunchesMember(s.core.caches, more[i]);
      case _ =>
    }
  }

  /** Steps that leave the wait for the caches alone: all but its own. */
  predicate OffCaches(a: Action) {
    !a.LaunchCaches? && !a.SyncReturns? && !a.CachesReady?
  }

  /** How such a step moves what cache progress depends on. */
  ghost predicate Extends(s: State, t: State) {
    && t.core.started == s.core.started
    && t.cut == s.cut && s.cut <= |s.core.caches| <= |t.core.caches| && t.core.caches[..s.cut] == s.core.caches[..s.cut]
    && (IsSyncing(t.mu) ==> t.mu == s.mu && t.core.caches == s.core.caches)
  }

  lemma StepExtends(s: State, a: Action)
    requires Phases(s) && Enabled(s, a) && OffCaches(a)
    ensures Extends(s, After(s, a))
  {
    if a.Add? {
      AddExtends(s.core, s.cut, a.r);
    } else if a.Start? {
      AddExtends(s.core, s.cut, a.cluster);
    } else if InSection(a) {
      SectionExtends(s, a);
    } else if InMain(a) {
      MainExtends(s, a);
    } else {
      AsideLeavesControl(s, a);
    }
  }

  lemma AddExtends(c: Core, cut: nat, r: Runnable)
    requires cut <= |c.caches|
    ensures |c.caches| <= |AddTo(c, r).caches| && AddTo(c, r).caches[..cut] == c.caches[..cut]
    ensures AddTo(c, r).started == c.started
  {
  }

  lemma SectionExtends(s: State, a: Action)
    requires Phases(s) && Enabled(s, a) && OffCaches(a) && InSection(a)
    ensures Extends(s, SectionStep(s, a))
  {
    SectionKeepsLists(s, a);
  }

  lemma MainExtends(s: State, a: Action)
    requires Phases(s) && Enabled(s, a) && InMain(a)
    ensures Extends(s, MainStep(s, a))
  {
    MainKeepsLists(s, a);
  }

  lemma CachesFirstKept(s: State, a: Action)
    requires Lists(s.core) && Phases(s) && CacheProgress(s) && CachesFirst(s.core.trace, s.core.caches[..s.cut])
    requires Enabled(s, a)
    ensures var t := After(s, a); t.cut <= |t.core.caches| && CachesFirst(t.core.trace, t.core.caches[..t.cut])
  {
    TraceGrows(s, a);
    if a.LaunchCaches? {
      CachesFirstAtLaunch(s);
    } else {
      CutKept(s, a);
      if !s.core.started {
        NeedyOnlyWhenStarted(s, a);
      }
      CachesFirstGrows(s.core.trace, NewEvents(s, a), s.core.caches[..s.cut]);
    }
  }

  lemma CutKept(s: State, a: Action)
    requires Phases(s) && Enabled(s, a) && !a.LaunchCaches?
    ensures var t := After(s, a);
            t.cut == s.cut <= |t.core.caches| && s.cut <= |s.core.caches| && t.core.caches[..t.cut] == s.core.caches[..s.cut]
  {
    if OffCaches(a) {
      StepExtends(s, a);
    } else {
      SectionKeepsLists(s, a);
    }
  }

  /** Nothing that needs the caches was launched yet. */
  lemma CachesFirstAtLaunch(s: State)
    requires Lists(s.core) && Phases(s) && CacheProgress(s) && Enabled(s, LaunchCaches)
    ensures var t := SectionStep(s, LaunchCaches);
            t.cut <= |t.core.caches| && CachesFirst(t.core.trace, t.core.caches[..t.cut])
  {
    NeedyOnlyWhenStarted(s, LaunchCaches);
    SectionTrace(s, LaunchCaches);
    assert NoneSuch(SectionStep(s, LaunchCaches).core.trace, NeedsCaches);
  }

  lemma CacheProgressKept(s: State, a: Action)
    requires Lists(s.core) && Phases(s) && CacheProgress(s) && Enabled(s, a)
    ensures CacheProgress(After(s, a))
  {
    if !s.core.started {
      NeedyOnlyWhenStarted(s, a);
    }
    TraceGrows(s, a);
    if a.LaunchCaches? {
      LaunchCachesProgress(s);
    } else if a.SyncReturns? {
      SyncReturnsProgress(s);
    } else if a.CachesReady? {
      CachesReadyProgress(s);
    } else {
      StepExtends(s, a);
      ProgressGrows(s, After(s, a), NewEvents(s, a));
    }
  }

  lemma ProgressGrows(s: State, t: State, more: seq<Event>)
    requires CacheProgress(s) && Extends(s, t) && t.core.trace == s.core.trace + more
    requires !s.core.started ==> NoneSuch(more, NeedsCaches)
    ensures CacheProgress(t)
  {
    var trace := s.core.trace;
    if s.core.started {
      AllSyncedGrows(trace, more, |trace|, |trace + more|, s.core.caches[..s.cut]);
    }
    if IsSyncing(t.mu) {
      AllSyncedGrows(trace, more, |trace|, |trace + more|, s.core.caches[..s.mu.progress.next]);
      AllLaunchedGrows(trace, more, s.core.caches);
    }
  }

  lemma AllLaunchedGrows(trace: seq<Event>, more: seq<Event>, cs: seq<Runnable>)
    requires AllLaunched(trace, cs)
    ensures AllLaunched(trace + more, cs)
  {
    forall c | c in cs ensures LaunchedBy(trace + more, |trace + more|, c) { LaunchedStays(trace, more, c); }
  }

  lemma LaunchCachesProgress(s: State)
    requires CacheProgress(s) && Phases(s) && Enabled(s, LaunchCaches)
    requires NoneSuch(NewEvents(s, LaunchCaches), NeedsCaches)
    ensures CacheProgress(After(s, LaunchCaches))
  {
    var t := After(s, LaunchCaches);
    assert t.core == LaunchAll(s.core, s.core.caches) && t.mu == Advance(s.mu, Syncing(0)) && t.cut == |s.core.caches|;
    CachesLaunched(s.core.trace, s.core.caches);
  }

  lemma CachesLaunched(trace: seq<Event>, cs: seq<Runnable>)
    ensures AllLaunched(trace + Launches(cs), cs)
  {
    var t := trace + Launches(cs);
    assert t[..|t|] == t;
    forall c | c in cs ensures Launch(c) in t { LaunchesMember(cs, Launch(c)); }
  }

  lemma SyncReturnsProgress(s: State)
    requires CacheProgress(s) && Phases(s) && Enabled(s, SyncReturns)
    ensures CacheProgress(After(s, SyncReturns))
  {
    var t, trace, n := After(s, SyncReturns), s.core.trace, s.mu.progress.next;
    var c := s.core.caches[n];
    assert t.core == s.core.(trace := trace + [Synced(c)]) && t.mu == Advance(s.mu, Syncing(n + 1)) && t.cut == s.cut;
    assert !s.core.started;
    OneMoreSynced(trace, s.core.caches, n);
    AllLaunchedGrows(trace, [Synced(c)], s.core.caches);
  }

  lemma OneMoreSynced(trace: seq<Event>, cs: seq<Runnable>, n: nat)
    requires n < |cs| && AllLaunched(trace, cs) && AllSyncedBy(trace, |trace|, cs[..n])
    ensures var t := trace + [Synced(cs[n])]; AllSyncedBy(t, |t|, cs[..n + 1])
  {
    var c, t := cs[n], trace + [Synced(cs[n])];
    AllSyncedGrows(trace, [Synced(c)], |trace|, |t|, cs[..n]);
    assert cs[..n + 1] == cs[..n] + [c];
    assert c in cs && LaunchedBy(trace, |trace|, c);
    assert t[..|trace|] == trace && trace[..|trace|] == trace;
    assert t[|trace|] == Synced(c) && LaunchedBy(t, |trace|, c);
    assert SyncedBy(t, |t|, c);
  }

  lemma CachesReadyProgress(s: State)
    requires CacheProgress(s) && Phases(s) && Enabled(s, CachesReady)
    ensures CacheProgress(After(s, CachesReady))
  {
    assert s.core.caches[..|s.core.caches|] == s.core.caches;
  }

  // ----- Webhook servers and caches -----

  /** Every launch of a cache comes after a launch of w. */
  ghost predicate PrecedesCaches(trace: seq<Event>, w: Runnable) {
    forall j | 0 <= j < |trace| :: IsCacheLaunch(trace[j]) ==> LaunchedBy(trace, j, w)
  }

  /** Every launch of a webhook server comes after every launch of a cache. */
  ghost predicate CachesPrecedeWebhooks(trace: seq<Event>) {
    forall i, j | 0 <= i < |trace| && 0 <= j < |trace| ::
      IsWebhookLaunch(trace[i]) && IsCacheLaunch(trace[j]) ==> j < i
  }

  /** The order that the first start section decided: `first` if it was that of the webhook servers. */
  ghost predicate OrderOf(trace: seq<Event>, pending: bool, first: bool, entry: seq<Runnable>, started: bool) {
    && (pending ==> !first)
    && (!pending ==> EntryLaunched(trace, entry))
    && (first ==> forall w :: w in entry ==> PrecedesCaches(trace, w))
    && (!first ==> CachesPrecedeWebhooks(trace))
    && (!first && !started ==> NoneSuch(trace, IsWebhookLaunch))
  }

  ghost predicate EntryLaunched(trace: seq<Event>, entry: seq<Runnable>) {
    forall w :: w in entry ==> IsWebhookLaunch(Launch(w)) && LaunchedBy(trace, |trace|, w)
  }

  ghost predicate WebhookOrder(s: State) {
    OrderOf(s.core.trace, s.nonLeaderSection.Pending?, s.nonLeaderFirst, s.entry, s.core.started)
  }

  lemma {:induction false} NoLaunchNoEvent(trace: seq<Event>, g: Group)
    requires Launched(trace, g) == multiset{}
    ensures forall i | 0 <= i < |trace| :: !(trace[i].Launch? && Classify(trace[i].r) == g)
  {
    if trace != [] {
      NoLaunchNoEvent(trace[..|trace| - 1], g);
    }
  }

  lemma {:induction false} LaunchHasEvent(trace: seq<Event>, g: Group, r: Runnable)
    requires r in Launched(trace, g)
    ensures Launch(r) in trace && Classify(r) == g
  {
    var n := |trace| - 1;
    if !(trace[n] == Launch(r) && Classify(r) == g) {
      LaunchHasEvent(trace[..n], g, r);
    }
  }

  lemma PrecedesGrows(trace: seq<Event>, more: seq<Event>, w: Runnable)
    requires PrecedesCaches(trace, w) && LaunchedBy(trace, |trace|, w)
    ensures PrecedesCaches(trace + more, w) && LaunchedBy(trace + more, |trace + more|, w)
  {
    var t := trace + more;
    assert trace[..|trace|] == trace && t[..|t|] == t;
    forall j | 0 <= j < |t| && IsCacheLaunch(t[j]) ensures LaunchedBy(t, j, w) {
      if j < |trace| {
        assert t[..j] == trace[..j];
      } else {
        assert t[..j] == trace + more[..j - |trace|];
      }
    }
  }

  lemma LaunchedStays(trace: seq<Event>, more: seq<Event>, w: Runnable)
    requires LaunchedBy(trace, |trace|, w)
    ensures LaunchedBy(trace + more, |trace + more|, w)
  {
    assert trace[..|trace|] == trace && (trace + more)[..|trace + more|] == trace + more;
  }

  /** Webhook servers are launched by their section or once started is set; caches only before that. */
  lemma NewWebhooksAndCaches(s: State, a: Action, e: Event)
    requires Lists(s.core) && Phases(s) && Enabled(s, a) && e in NewEvents(s, a)
    ensures IsCacheLaunch(e) ==> a.LaunchCaches? && !s.core.started
    ensures IsWebhookLaunch(e) ==> s.core.started || a.EnterNonLeader?
  {
    match a
    case EnterNonLeader =>
      LaunchesMember(Webhooks(s.core.nonLeader), e);
      FilterMember(IsWebhook(), s.core.nonLeader, e.r);
    case LaunchCaches => LaunchesMember(s.core.caches, e);
    case FinishNonLeader =>
      LaunchesMember(NonWebhooks(s.core.nonLeader), e);
      FilterMember(Not(IsWebhook()), s.core.nonLeader, e.r);
    case FinishLeader => LaunchesMember(s.core.leader, e);
    case _ =>
  }

  lemma OrderGrows(trace: seq<Event>, more: seq<Event>)
    requires CachesPrecedeWebhooks(trace)
    requires NoneSuch(more, IsCacheLaunch) || (NoneSuch(trace, IsWebhookLaunch) && NoneSuch(more, IsWebhookLaunch))
    ensures CachesPrecedeWebhooks(trace + more)
    ensures NoneSuch(trace, IsWebhookLaunch) && NoneSuch(more, IsWebhookLaunch) ==>
              NoneSuch(trace + more, IsWebhookLaunch)
  {
  }

  lemma OrderOfGrows(trace: seq<Event>, more: seq<Event>, pending: bool, first: bool, entry: seq<Runnable>,
                     started: bool, started': bool)
    requires OrderOf(trace, pending, first, entry, started) && (started ==> started')
    requires if started then NoneSuch(more, IsCacheLaunch) else NoneSuch(more, IsWebhookLaunch)
    ensures OrderOf(trace + more, pending, first, entry, started')
  {
    if !first {
      OrderGrows(trace, more);
    }
    if !pending {
      EntryGrows(trace, more, first, entry);
    }
  }

  lemma EntryGrows(trace: seq<Event>, more: seq<Event>, first: bool, entry: seq<Runnable>)
    requires EntryLaunched(trace, entry) && (first ==> forall w :: w in entry ==> PrecedesCaches(trace, w))
    ensures EntryLaunched(trace + more, entry) && (first ==> forall w :: w in entry ==> PrecedesCaches(trace + more, w))
  {
    forall w | w in entry
      ensures LaunchedBy(trace + more, |trace + more|, w) && (first ==> PrecedesCaches(trace + more, w))
    {
      LaunchedStays(trace, more, w);
      if first { PrecedesGrows(trace, more, w); }
    }
  }

  lemma NewKinds(s: State, a: Action)
    requires Lists(s.core) && Phases(s) && Enabled(s, a) && !a.EnterNonLeader?
    ensures var more := NewEvents(s, a);
            if s.core.started then NoneSuch(more, IsCacheLaunch) else NoneSuch(more, IsWebhookLaunch)
  {
    var more := NewEvents(s, a);
    forall i | 0 <= i < |more|
      ensures if s.core.started then !IsCacheLaunch(more[i]) else !IsWebhookLaunch(more[i])
    {
      NewWebhooksAndCaches(s, a, more[i]);
    }
  }

  /** Only its own section decides about the webhook servers. */
  ghost predicate SameEntry(s: State, t: State) {
    && t.entry == s.entry && t.nonLeaderFirst == s.nonLeaderFirst
    && t.nonLeaderSection.Pending? == s.nonLeaderSection.Pending?
    && (s.core.started ==> t.core.started)
  }

  lemma EntryKept(s: State, a: Action)
    requires Phases(s) && Enabled(s, a) && !a.EnterNonLeader?
    ensures SameEntry(s, After(s, a))
  {
    if a.Add? {
      AddExtends(s.core, s.cut, a.r);
    } else if a.Start? {
      AddExtends(s.core, s.cut, a.cluster);
    } else if InSection(a) {
      EntryKeptInSection(s, a);
    } else if InMain(a) {
      EntryKeptInMain(s, a);
    } else {
      AsideLeavesControl(s, a);
    }
  }

  lemma EntryKeptInSection(s: State, a: Action)
    requires Phases(s) && Enabled(s, a) && InSection(a) && !a.EnterNonLeader?
    ensures SameEntry(s, SectionStep(s, a))
  {
    match a
    case EnterLeader =>
    case LaunchCaches =>
    case SyncReturns =>
    case CachesReady =>
    case FinishNonLeader =>
    case FinishLeader =>
  }

  lemma EntryKeptInMain(s: State, a: Action)
    requires Enabled(s, a) && InMain(a)
    ensures SameEntry(s, MainStep(s, a))
  {
    match a
    case StartReceives(_) =>
    case _ =>
  }

  lemma EntryDecides(c: Core)
    requires Lists(c)
    ensures EntryLaunched(c.trace + Launches(Webhooks(c.nonLeader)), Webhooks(c.nonLeader))
  {
    var entry := Webhooks(c.nonLeader);
    var t := c.trace + Launches(entry);
    assert t[..|t|] == t;
    forall w | w in entry ensures IsWebhookLaunch(Launch(w)) && Launch(w) in t {
      LaunchesMember(entry, Launch(w));
      FilterMember(IsWebhook(), c.nonLeader, w);
    }
  }

  lemma NoCachesYet(s: State)
    requires Lists(s.core) && Phases(s) && CountsOf(s) && Enabled(s, EnterNonLeader) && !s.core.started
    ensures NoneSuch(s.core.trace + NewEvents(s, EnterNonLeader), IsCacheLaunch)
  {
    assert s.core.caches[..0] == [];
    NoLaunchNoEvent(s.core.trace, CacheGroup);
    var more := NewEvents(s, EnterNonLeader);
    forall i | 0 <= i < |more| ensures !IsCacheLaunch(more[i]) {
      NewWebhooksAndCaches(s, EnterNonLeader, more[i]);
    }
  }

  lemma OrderAtEntry(s: State)
    requires Lists(s.core) && Phases(s) && CountsOf(s) && WebhookOrder(s) && Enabled(s, EnterNonLeader)
    ensures WebhookOrder(After(s, EnterNonLeader))
  {
    var t, more := After(s, EnterNonLeader), Launches(Webhooks(s.core.nonLeader));
    assert t.core.trace == s.core.trace + more && t.entry == Webhooks(s.core.nonLeader);
    assert t.core.started == s.core.started && t.nonLeaderFirst == !s.core.started && !t.nonLeaderSection.Pending?;
    EntryDecides(s.core);
    if s.core.started {
      forall i | 0 <= i < |more| ensures !IsCacheLaunch(more[i]) { NewWebhooksAndCaches(s, EnterNonLeader, more[i]); }
      OrderGrows(s.core.trace, more);
    } else {
      NoCachesYet(s);
    }
  }

  lemma WebhookOrderKept(s: State, a: Action)
    requires Lists(s.core) && Phases(s) && CountsOf(s) && WebhookOrder(s) && Enabled(s, a)
    ensures WebhookOrder(After(s, a))
  {
    if a.EnterNonLeader? {
      OrderAtEntry(s);
    } else {
      EntryKept(s, a);
      NewKinds(s, a);
      TraceGrows(s, a);
      OrderOfGrows(s.core.trace, NewEvents(s, a), s.nonLeaderSection.Pending?, s.nonLeaderFirst, s.entry,
                   s.core.started, After(s, a).core.started);
    }
  }

  // ----- Leader election comes first -----

  /** The leader section is only entered once an election, if there is one to win, was won. */
  ghost predicate Elected(s: State) {
    && (s.elects && !s.leaderSection.Pending? ==> s.won)
    && (s.won ==> s.armed)
    && (s.armed ==> s.elects && !s.main.NotStarted?)
  }

  lemma ElectedKept(s: State, a: Action)
    requires Phases(s) && Elected(s) && Enabled(s, a)
    ensures Elected(After(s, a))
  {
    if InSection(a) {
      SectionLeavesMain(s, a);
      ElectedInSection(s, a);
    } else if InMain(a) {
      ElectedInMain(s, a);
    } else if Aside(a) {
      ElectedAside(s, a);
    }
  }

  lemma ElectedInSection(s: State, a: Action)
    requires Phases(s) && Elected(s) && Enabled(s, a) && InSection(a) && SectionStep(s, a).main == s.main
    ensures Elected(SectionStep(s, a))
  {
    match a
    case EnterNonLeader =>
    case EnterLeader =>
    case LaunchCaches =>
    case SyncReturns =>
    case CachesReady =>
    case FinishNonLeader =>
    case FinishLeader =>
  }

  lemma ElectedInMain(s: State, a: Action)
    requires Elected(s) && Enabled(s, a) && InMain(a)
    ensures Elected(MainStep(s, a))
  {
    match a
    case StartReceives(_) =>
    case _ =>
  }

  lemma ElectedAside(s: State, a: Action)
    requires Elected(s) && Enabled(s, a) && Aside(a)
    ensures Elected(AsideStep(s, a))
  {
    match a
    case ArmElection =>
    case WinElection =>
    case ServeMetrics =>
    case ServeProbes =>
    case RunnableEnds(_) =>
    case DrainReceives(_) =>
    case _ =>
  }

  // ----- Every run -----

  ghost predicate Invariant(s: State) {
    && Elected(s)
    && Lists(s.core)
    && Phases(s)
    && CountsOf(s)
    && GroupCounts(s)
    && QuietAfterDrain(s)
    && CacheProgress(s)
    && s.cut <= |s.core.caches|
    && CachesFirst(s.core.trace, s.core.caches[..s.cut])
    && WebhookOrder(s)
  }

  lemma InvariantKept(s: State, a: Action)
    requires Invariant(s) && Enabled(s, a)
    ensures Invariant(After(s, a))
  {
    ElectedKept(s, a);
    ListsKept(s, a);
    PhasesKept(s, a);
    CountsKept(s, a);
    GroupCountsKept(s, a);
    QuietAfterDrainKept(s, a);
    CacheProgressKept(s, a);
    CachesFirstKept(s, a);
    WebhookOrderKept(s, a);
  }

  lemma InvariantAtInit(grace: Grace, elects: bool)
    ensures Invariant(Init(grace, elects))
  {
    assert Init(grace, elects).core.caches[..0] == [];
  }

  lemma {:induction false} InvariantOfRun(s: State, actions: seq<Action>)
    requires Invariant(s) && Exec(s, actions).Some?
    ensures Invariant(Exec(s, actions).value)
  {
    if actions != [] {
      InvariantOfRun(s, actions[..|actions| - 1]);
      InvariantKept(Exec(s, actions[..|actions| - 1]).value, actions[|actions| - 1]);
    }
  }

  lemma InvariantOfReachable(s: State)
    requires Reachable(s)
    ensures Invariant(s)
  {
    var grace, elects :| Reaches(Init(grace, elects), s);
    var actions :| Exec(Init(grace, elects), actions) == Some(s);
    InvariantAtInit(grace, elects);
    InvariantOfRun(Init(grace, elects), actions);
  }

  lemma ReachesStep(s: State, t: State, a: Action)
    requires Reaches(s, t) && Enabled(t, a)
    ensures Reaches(s, After(t, a))
  {
    var actions :| Exec(s, actions) == Some(t);
    assert (actions + [a])[..|actions|] == actions;
    assert Exec(s, actions + [a]) == Some(After(t, a));
  }

  lemma ReachesItself(s: State)
    ensures Reaches(s, s)
  {
    assert Exec(s, []) == Some(s);
  }

  /** When the stop procedure cancels leader election, no registered runnable is running. */
  lemma NoRunnableRunsAtCancel(s: State)
    requires Reachable(s) && Enabled(s, CancelElection)
    ensures forall i :: i in s.active ==> i < |s.core.trace| && s.core.trace[i] == ServerLaunch(false)
    ensures s.mu.InStop? && s.core.stopEngaged
  {
    InvariantOfReachable(s);
  }

  /** With leader election configured, nothing that needs it is launched before the election was won. */
  lemma LeadersOnlyWhenElected(s: State)
    requires Reachable(s) && s.elects && Launched(s.core.trace, LeaderGroup) != multiset{}
    ensures s.won && s.armed && s.core.startedLeader
  {
    InvariantOfReachable(s);
  }

  // ----- When the stop procedure ends -----

  /** What the grace period, configured as `grace`, has become, and what the stop procedure has done. */
  ghost predicate GraceOf(s: State, grace: Grace) {
    && (s.grace == grace || (s.grace.Zero? && s.armed))
    && ((s.main.Stopping? || s.main.Waiting?) && s.main.deadline ==> grace.Bounded?)
    && (s.main.Cancelled? ==> ElectionCancelled in s.core.trace)
  }

  lemma GraceKept(s: State, a: Action, grace: Grace)
    requires GraceOf(s, grace) && Enabled(s, a)
    ensures GraceOf(After(s, a), grace)
  {
    TraceGrows(s, a);
    if InSection(a) {
      GraceInSection(s, a);
    } else if InMain(a) {
      GraceInMain(s, a, grace);
    } else if Aside(a) {
      GraceAside(s, a);
    }
  }

  lemma GraceInSection(s: State, a: Action)
    requires Enabled(s, a) && InSection(a)
    ensures var t := SectionStep(s, a); t.grace == s.grace && t.armed == s.armed && t.main == s.main
  {
    match a
    case EnterNonLeader =>
    case EnterLeader =>
    case LaunchCaches =>
    case SyncReturns =>
    case CachesReady =>
    case FinishNonLeader =>
    case FinishLeader =>
  }

  lemma GraceInMain(s: State, a: Action, grace: Grace)
    requires GraceOf(s, grace) && Enabled(s, a) && InMain(a)
    ensures GraceOf(MainStep(s, a), grace)
  {
    match a
    case StartReceives(_) =>
    case CancelElection =>
    case _ =>
  }

  lemma GraceAside(s: State, a: Action)
    requires Enabled(s, a) && Aside(a)
    ensures var t := AsideStep(s, a);
            t.main == s.main && (s.armed ==> t.armed) && (t.grace == s.grace || (t.grace.Zero? && s.armed))
  {
    match a
    case ServeMetrics =>
    case ServeProbes =>
    case RunnableEnds(_) =>
    case DrainReceives(_) =>
    case _ =>
  }

  lemma {:induction false} GraceOfRun(grace: Grace, elects: bool, actions: seq<Action>, s: State)
    requires Exec(Init(grace, elects), actions) == Some(s)
    ensures GraceOf(s, grace)
  {
    if actions != [] {
      var u := Exec(Init(grace, elects), actions[..|actions| - 1]).value;
      GraceOfRun(grace, elects, actions[..|actions| - 1], u);
      GraceKept(u, actions[|actions| - 1], grace);
    }
  }

  /**
   Once started, a manager returns only when its grace period is zero, by configuration or because leadership
   was lost; or a bounded grace period ran out; or everything but a metrics server has ended under the lock, and
   leader election, if there is one, was cancelled.
   */
  lemma ReturnsOnlyIf(grace: Grace, elects: bool, s: State, a: Action)
    requires Reaches(Init(grace, elects), s) && Enabled(s, a) && !s.main.Returned? && After(s, a).main.Returned?
    ensures
      || (s.grace.Zero? && (grace.Zero? || s.armed))
      || (grace.Bounded? && s.main.Waiting?)
      || (&& s.mu.InStop? && (s.armed ==> ElectionCancelled in s.core.trace)
          && forall i :: i in s.active ==> i < |s.core.trace| && s.core.trace[i] == ServerLaunch(false))
  {
    var actions :| Exec(Init(grace, elects), actions) == Some(s);
    GraceOfRun(grace, elects, actions, s);
    assert Reachable(s);
    InvariantOfReachable(s);
    if a.Add? || InSection(a) {
      LaunchersLeaveMain(s, a);
    } else if Aside(a) {
      GraceAside(s, a);
    } else if InMain(a) {
      ReturnSteps(s, a);
    }
  }

  lemma ReturnSteps(s: State, a: Action)
    requires Enabled(s, a) && InMain(a) && MainStep(s, a).main.Returned?
    ensures (a.SkipGrace? && s.grace.Zero?) || (a.TimeOut? && s.main.Waiting? && s.main.deadline)
            || s.main.Cancelled? || (s.main.Drained? && !s.armed)
  {
    match a
    case StartReceives(_) =>
    case _ =>
  }

  /** Launches against registrations, for every group, in every reachable state. */
  lemma LaunchLaw(s: State)
    requires Reachable(s)
    ensures Launched(s.core.trace, LeaderGroup) == if s.core.startedLeader then multiset(s.core.leader) else multiset{}
    ensures s.cut <= |s.core.caches| && Launched(s.core.trace, CacheGroup) == multiset(s.core.caches[..s.cut])
    ensures s.nonLeaderSection.Finished? ==>
              Launched(s.core.trace, NonLeaderGroup) == multiset(s.core.nonLeader) + multiset(s.window)
    ensures s.nonLeaderFirst ==> Launched(s.core.trace, NonLeaderGroup) <= multiset(s.core.nonLeader)
  {
    InvariantOfReachable(s);
    var c := s.core;
    FilterSplit(IsWebhook(), c.nonLeader);
  }

  /** A finished start launched every non-leader runnable once exactly when none was added in the window. */
  lemma LaunchedOnceIffNoWindow(s: State)
    requires Reachable(s) && s.nonLeaderSection.Finished?
    ensures Launched(s.core.trace, NonLeaderGroup) == multiset(s.core.nonLeader) <==> s.window == []
    ensures s.nonLeaderFirst ==> s.window == []
  {
    InvariantOfReachable(s);
    if s.window != [] {
      assert s.window[0] in multiset(s.window);
    }
  }

  /** The caches counted by cut are those registered at the moment started is set, then and ever after. */
  lemma CachesAtStart(s: State, a: Action)
    requires Reachable(s) && Enabled(s, a)
    ensures var t := After(s, a);
            && (!s.core.started && t.core.started ==> t.cut == |t.core.caches|)
            && (s.core.started ==> t.core.started && s.cut == t.cut <= |t.core.caches| && s.cut <= |s.core.caches|
                                   && t.core.caches[..t.cut] == s.core.caches[..s.cut])
  {
    InvariantOfReachable(s);
    CutAtStart(s, a);
  }

  lemma CutAtStart(s: State, a: Action)
    requires Phases(s) && Enabled(s, a)
    ensures var t := After(s, a);
            && (!s.core.started && t.core.started ==> t.cut == |t.core.caches|)
            && (s.core.started ==> t.core.started && s.cut == t.cut <= |t.core.caches|
                                   && t.core.caches[..t.cut] == s.core.caches[..s.cut])
  {
    if OffCaches(a) {
      StepExtends(s, a);
    }
  }

  /** Whatever needs the caches starts after each cache the start sections launched has synced. */
  lemma CachesSyncFirst(s: State, i: nat, c: Runnable)
    requires Reachable(s) && i < |s.core.trace| && NeedsCaches(s.core.trace[i])
    requires s.cut <= |s.core.caches| && c in s.core.caches[..s.cut]
    ensures SyncedBy(s.core.trace, i, c)
  {
    InvariantOfReachable(s);
  }

  /** Every webhook server known to its section precedes every cache: exactly when that section came first. */
  lemma WebhooksFirstIff(s: State)
    requires Reachable(s) && !s.nonLeaderSection.Pending?
    ensures (forall w :: w in s.entry ==> PrecedesCaches(s.core.trace, w))
            <==> s.nonLeaderFirst || s.entry == [] || s.cut == 0
  {
    InvariantOfReachable(s);
    var trace := s.core.trace;
    if s.cut == 0 {
      assert s.core.caches[..0] == [];
      NoLaunchNoEvent(trace, CacheGroup);
    } else if !s.nonLeaderFirst && s.entry != [] {
      var c, w := s.core.caches[0], s.entry[0];
      assert s.core.caches[..s.cut][0] == c;
      LaunchHasEvent(trace, CacheGroup, c);
      var j :| 0 <= j < |trace| && trace[j] == Launch(c);
      assert IsCacheLaunch(trace[j]) && !LaunchedBy(trace, j, w);
      assert !PrecedesCaches(trace, w);
    }
  }

  // ----- Complete start sections -----

  /** What a start section leaves alone. */
  predicate SameSetting(s: State, t: State) {
    && SameLists(s.core, t.core) && t.core.stopEngaged == s.core.stopEngaged
    && t.main == s.main && t.grace == s.grace && t.elects == s.elects && t.armed == s.armed && t.won == s.won
    && t.window == s.window
  }

  /** Both are in the same section, of which s is no further than t. */
  predicate SameSection(s: State, t: State) {
    && SameSetting(s, t)
    && t.nonLeaderSection == s.nonLeaderSection && t.leaderSection == s.leaderSection
    && t.nonLeaderFirst == s.nonLeaderFirst && t.entry == s.entry
  }

  /** One step of a run that started in o. */
  lemma Step(o: State, s: State, a: Action) returns (t: State)
    requires Reaches(o, s) && Enabled(s, a)
    ensures t == After(s, a) && Reaches(o, t)
  {
    ReachesStep(o, s, a);
    t := After(s, a);
  }

  function SyncedOne(s: State, n: nat): State
    requires n < |s.core.caches|
  {
    s.(core := s.core.(trace := s.core.trace + [Synced(s.core.caches[n])]), mu := Advance(s.mu, Syncing(n + 1)))
  }

  lemma SyncReturned(s: State, n: nat)
    requires Held(s.mu, Syncing(n)) && n < |s.core.caches|
    ensures Enabled(s, SyncReturns) && After(s, SyncReturns) == SyncedOne(s, n)
  {
    assert s.mu.progress.next == n;
    assert After(s, SyncReturns) == SectionStep(s, SyncReturns);
  }

  lemma SyncStep(o: State, s: State, n: nat) returns (t: State)
    requires Reaches(o, s) && Held(s.mu, Syncing(n)) && n < |s.core.caches|
    ensures Reaches(o, t) && t == SyncedOne(s, n)
  {
    SyncReturned(s, n);
    ReachesStep(o, s, SyncReturns);
    t := SyncedOne(s, n);
  }

  lemma {:induction false} SyncRun(o: State, s: State, n: nat) returns (t: State)
    requires Reaches(o, s) && Held(s.mu, Syncing(n)) && n <= |s.core.caches|
    ensures Reaches(o, t) && SameSection(s, t) && t.cut == s.cut && t.core.started == s.core.started
    ensures t.mu == Advance(s.mu, Syncing(|s.core.caches|))
    decreases |s.core.caches| - n
  {
    if n == |s.core.caches| {
      t := s;
    } else {
      var u := SyncStep(o, s, n);
      t := SyncRun(o, u, n + 1);
    }
  }

  lemma LaunchCachesStep(o: State, s: State) returns (t: State)
    requires Reaches(o, s) && Held(s.mu, CachesDue)
    ensures Reaches(o, t) && SameSection(s, t) && t.cut == |s.core.caches| && t.mu == Advance(s.mu, Syncing(0))
  {
    ReachesStep(o, s, LaunchCaches);
    t := SectionStep(s, LaunchCaches);
  }

  lemma CachesReadyStep(o: State, s: State) returns (t: State)
    requires Reaches(o, s) && Held(s.mu, Syncing(|s.core.caches|))
    ensures Reaches(o, t) && SameSection(s, t) && t.cut == s.cut && t.core.started && t.mu == Advance(s.mu, LaunchDue)
  {
    ReachesStep(o, s, CachesReady);
    t := SectionStep(s, CachesReady);
  }

  lemma CachesRun(o: State, s: State) returns (t: State)
    requires Reaches(o, s) && Held(s.mu, FirstProgress(s.core))
    ensures Reaches(o, t) && SameSection(s, t) && t.core.started && t.mu == Advance(s.mu, LaunchDue)
    ensures t.cut == if s.core.started then s.cut else |s.core.caches|
  {
    if s.core.started {
      t := s;
    } else {
      var u := LaunchCachesStep(o, s);
      var v := SyncRun(o, u, 0);
      t := CachesReadyStep(o, v);
    }
  }

  lemma LeaderSteps(s: State)
    ensures Enabled(s, EnterLeader) ==>
              var t := SectionStep(s, EnterLeader);
              && SameSetting(s, t) && t.mu == InLeader(FirstProgress(s.core)) && t.core.started == s.core.started
              && t.nonLeaderSection == s.nonLeaderSection && t.nonLeaderFirst == s.nonLeaderFirst && t.cut == s.cut
    ensures Enabled(s, FinishLeader) ==>
              var t := SectionStep(s, FinishLeader);
              && SameSetting(s, t) && t.mu.Free? && t.leaderSection.Finished? && t.core.started == s.core.started
              && t.nonLeaderSection == s.nonLeaderSection && t.nonLeaderFirst == s.nonLeaderFirst && t.cut == s.cut
  {
  }

  /** The leader section, run alone and to its end. */
  lemma LeaderRun(o: State, s: State) returns (t: State)
    requires Reaches(o, s) && Enabled(s, EnterLeader)
    ensures Reaches(o, t) && SameSetting(s, t) && t.core.started && t.mu.Free? && t.leaderSection.Finished?
    ensures t.nonLeaderSection == s.nonLeaderSection && t.nonLeaderFirst == s.nonLeaderFirst
    ensures t.cut == if s.core.started then s.cut else |s.core.caches|
  {
    LeaderSteps(s);
    var u := Step(o, s, EnterLeader);
    var v := CachesRun(o, u);
    LeaderSteps(v);
    t := Step(o, v, FinishLeader);
  }

  lemma NonLeaderSteps(s: State)
    ensures Enabled(s, EnterNonLeader) ==>
              var t := SectionStep(s, EnterNonLeader);
              && SameSetting(s, t) && t.mu == InNonLeader(FirstProgress(s.core)) && t.core.started == s.core.started
              && t.leaderSection == s.leaderSection && t.cut == s.cut
    ensures Enabled(s, FinishNonLeader) ==>
              var t := SectionStep(s, FinishNonLeader);
              && SameSetting(s, t) && t.mu.Free? && t.nonLeaderSection.Finished? && t.core.started == s.core.started
              && t.leaderSection == s.leaderSection && t.cut == s.cut
  {
  }

  lemma NonLeaderRun(o: State, s: State) returns (t: State)
    requires Reaches(o, s) && Enabled(s, EnterNonLeader)
    ensures Reaches(o, t) && SameSetting(s, t) && t.core.started && t.mu.Free? && t.nonLeaderSection.Finished?
    ensures t.leaderSection == s.leaderSection
    ensures t.cut == if s.core.started then s.cut else |s.core.caches|
  {
    NonLeaderSteps(s);
    var u := Step(o, s, EnterNonLeader);
    var v := CachesRun(o, u);
    NonLeaderSteps(v);
    t := Step(o, v, FinishNonLeader);
  }

  // ----- After leader election was cancelled -----

  /** Some way to go on launches members of a group. */
  ghost predicate LaunchesLater(s: State, g: Group) {
    exists t :: Reaches(s, t) && Launched(t.core.trace, g) != Launched(s.core.trace, g)
  }

  /** What no step changes once registration is closed. */
  ghost predicate Closed(s: State, t: State) {
    && t.core.stopEngaged && SameLists(s.core, t.core) && t.window == s.window
    && (s.leaderSection.Finished? ==> t.leaderSection.Finished?)
    && (s.nonLeaderSection.Finished? ==> t.nonLeaderSection.Finished?)
    && (s.core.started ==> t.core.started && t.cut == s.cut)
  }

  lemma ClosedStep(s: State, a: Action)
    requires Phases(s) && s.core.stopEngaged && Enabled(s, a)
    ensures Closed(s, After(s, a))
  {
    if OffCaches(a) {
      StepExtends(s, a);
    }
    if InSection(a) {
      ClosedInSection(s, a);
    } else if InMain(a) {
      ClosedInMain(s, a);
    } else if Aside(a) {
      AsideLeavesControl(s, a);
    }
  }

  lemma ClosedInSection(s: State, a: Action)
    requires Phases(s) && s.core.stopEngaged && Enabled(s, a) && InSection(a)
    ensures Closed(s, SectionStep(s, a))
  {
    SectionKeepsLists(s, a);
  }

  lemma ClosedInMain(s: State, a: Action)
    requires s.core.stopEngaged && Enabled(s, a) && InMain(a)
    ensures Closed(s, MainStep(s, a))
  {
    MainKeepsLists(s, a);
  }

  lemma {:induction false} ClosedRun(s: State, actions: seq<Action>, t: State)
    requires Invariant(s) && s.core.stopEngaged && Exec(s, actions) == Some(t)
    ensures Closed(s, t)
  {
    if actions != [] {
      var init := actions[..|actions| - 1];
      var u := Exec(s, init).value;
      ClosedRun(s, init, u);
      InvariantOfRun(s, init);
      ClosedStep(u, actions[|actions| - 1]);
    }
  }

  /** Launches after the cancellation are those of the sections that were still to come. */
  lemma LaunchesLaterOnly(s: State, t: State)
    requires Invariant(s) && s.core.stopEngaged && Reaches(s, t)
    ensures s.leaderSection.Finished? || s.core.leader == [] ==>
              Launched(t.core.trace, LeaderGroup) == Launched(s.core.trace, LeaderGroup)
    ensures s.nonLeaderSection.Finished? || s.core.nonLeader == [] ==>
              Launched(t.core.trace, NonLeaderGroup) == Launched(s.core.trace, NonLeaderGroup)
    ensures s.core.started || s.core.caches == [] ==>
              Launched(t.core.trace, CacheGroup) == Launched(s.core.trace, CacheGroup)
  {
    var actions :| Exec(s, actions) == Some(t);
    ClosedRun(s, actions, t);
    InvariantOfRun(s, actions);
    if s.core.nonLeader == [] {
      NothingToLaunch(s.nonLeaderSection);
      NothingToLaunch(t.nonLeaderSection);
    }
  }

  lemma NothingToLaunch(section: Section)
    ensures SectionLaunches([], section) == multiset{}
  {
  }

  /** The stop procedure cancels and returns; an election on its way is still won before that. */
  lemma CancelledRun(s: State) returns (t: State)
    requires Invariant(s) && Enabled(s, CancelElection)
    ensures Reaches(s, t) && t.mu.Free? && t.main.Returned? && t.won
    ensures SameLists(s.core, t.core) && t.core.started == s.core.started && t.window == s.window && t.cut == s.cut
    ensures t.nonLeaderSection == s.nonLeaderSection && t.leaderSection == s.leaderSection
  {
    ReachesItself(s);
    var u := Step(s, s, CancelElection);
    assert u == s.(core := s.core.(trace := s.core.trace + [ElectionCancelled]), main := Cancelled);
    var v := WonStep(s, u);
    t := Step(s, v, StopReturns);
  }

  lemma WonStep(o: State, s: State) returns (t: State)
    requires Reaches(o, s) && s.armed
    ensures Reaches(o, t) && t == s.(won := true)
  {
    t := s;
    if !s.won {
      t := Step(o, s, WinElection);
    }
  }

  lemma LeadersLaunchedLater(s: State)
    requires Invariant(s) && Enabled(s, CancelElection) && !s.leaderSection.Finished? && s.core.leader != []
    ensures LaunchesLater(s, LeaderGroup)
  {
    var u := CancelledRun(s);
    assert u.leaderSection.Pending?;
    var t := LeaderRun(s, u);
    InvariantFurther(s, t);
    assert s.core.leader[0] in multiset(s.core.leader);
  }

  lemma NonLeadersLaunchedLater(s: State)
    requires Invariant(s) && Enabled(s, CancelElection) && !s.nonLeaderSection.Finished?
    ensures s.core.nonLeader != [] ==> LaunchesLater(s, NonLeaderGroup)
    ensures !s.core.started && s.core.caches != [] ==> LaunchesLater(s, CacheGroup)
  {
    var u := CancelledRun(s);
    assert s.nonLeaderSection.Pending?;
    var t := NonLeaderRun(s, u);
    InvariantFurther(s, t);
    if s.core.nonLeader != [] {
      NonLeadersCounted(s, t);
    }
    if !s.core.started && s.core.caches != [] {
      CachesCounted(s, t);
    }
  }

  lemma InvariantFurther(s: State, t: State)
    requires Invariant(s) && Reaches(s, t)
    ensures Invariant(t)
  {
    var actions :| Exec(s, actions) == Some(t);
    InvariantOfRun(s, actions);
  }

  lemma NonLeadersCounted(s: State, t: State)
    requires CountsOf(s) && CountsOf(t) && t.window == s.window && t.core.nonLeader == s.core.nonLeader != []
    requires s.nonLeaderSection.Pending? && t.nonLeaderSection.Finished?
    ensures Launched(t.core.trace, NonLeaderGroup) != Launched(s.core.trace, NonLeaderGroup)
  {
    assert s.core.nonLeader[0] in multiset(s.core.nonLeader);
  }

  lemma CachesCounted(s: State, t: State)
    requires CountsOf(s) && CountsOf(t) && t.core.caches == s.core.caches != [] && s.cut == 0 && t.cut == |s.core.caches|
    ensures Launched(t.core.trace, CacheGroup) != Launched(s.core.trace, CacheGroup)
  {
    assert s.core.caches[..0] == [] && t.core.caches[..|t.core.caches|] == s.core.caches;
    assert s.core.caches[0] in multiset(s.core.caches);
  }

  /**
   When leader election is about to be cancelled, a way to go on still launches members of a group
   exactly when the section that launches the group is still to come and finds some.
   */
  lemma LaunchAfterCancelIff(s: State)
    requires Reachable(s) && Enabled(s, CancelElection)
    ensures LaunchesLater(s, LeaderGroup) <==> !s.leaderSection.Finished? && s.core.leader != []
    ensures LaunchesLater(s, NonLeaderGroup) <==> !s.nonLeaderSection.Finished? && s.core.nonLeader != []
    ensures LaunchesLater(s, CacheGroup) <==> !s.core.started && s.core.caches != []
  {
    InvariantOfReachable(s);
    forall t | Reaches(s, t)
      ensures s.leaderSection.Finished? || s.core.leader == [] ==>
                Launched(t.core.trace, LeaderGroup) == Launched(s.core.trace, LeaderGroup)
      ensures s.nonLeaderSection.Finished? || s.core.nonLeader == [] ==>
                Launched(t.core.trace, NonLeaderGroup) == Launched(s.core.trace, NonLeaderGroup)
      ensures s.core.started || s.core.caches == [] ==>
                Launched(t.core.trace, CacheGroup) == Launched(s.core.trace, CacheGroup)
    {
      LaunchesLaterOnly(s, t);
    }
    if !s.leaderSection.Finished? && s.core.leader != [] {
      LeadersLaunchedLater(s);
    }
    if !s.nonLeaderSection.Finished? {
      NonLeadersLaunchedLater(s);
    }
  }

  // ----- Runs that show the conditions are needed -----

  const CLUSTER := Runnable(0, None, true, false)
  const CONTROLLER := Runnable(1, None, false, false)
  const PROBER := Runnable(2, Some(false), false, false)
  const HOOK := Runnable(3, Some(false), false, true)

  /** A manager that was given r and started. */
  lemma StartRun(elects: bool, r: Runnable) returns (s: State)
    requires Classify(r) != CacheGroup
    ensures Reaches(Init(Bounded, elects), s)
    ensures s.mu.Free? && s.main.Selecting? && s.grace.Bounded? && s.elects == elects && !s.armed && !s.won
    ensures s.nonLeaderSection.Pending? && s.leaderSection.Pending? && s.window == [] && !s.nonLeaderFirst
    ensures s.core == Enlist(Init(Bounded, elects).core, r).(caches := [CLUSTER])
  {
    var o := Init(Bounded, elects);
    ReachesItself(o);
    s := Step(o, o, Add(r));
    assert s == o.(core := Enlist(o.core, r));
    s := Step(o, s, Start(CLUSTER));
  }

  /** Leader section first: a webhook server starts after a cache. */
  lemma WebhookAfterCacheRun() returns (s: State)
    ensures Reachable(s) && !s.nonLeaderSection.Pending?
    ensures HOOK in s.entry && !PrecedesCaches(s.core.trace, HOOK)
  {
    var o := Init(Bounded, false);
    s := StartRun(false, HOOK);
    s := LeaderRun(o, s);
    assert s.core.nonLeader == [HOOK] && s.core.started && s.cut == 1;
    s := Step(o, s, EnterNonLeader);
    FilterMember(IsWebhook(), [HOOK], HOOK);
    WebhooksFirstIff(s);
    forall w | w in s.entry ensures w == HOOK { FilterMember(IsWebhook(), [HOOK], w); }
  }

  /** Leader section first: a runnable added between the sections is launched twice. */
  lemma DoubleLaunchRun() returns (s: State)
    ensures Reachable(s) && s.nonLeaderSection.Finished? && s.main.Selecting?
    ensures multiset(s.core.nonLeader)[PROBER] == 1
    ensures Launched(s.core.trace, NonLeaderGroup)[PROBER] == 2
  {
    var o := Init(Bounded, false);
    s := AddBetweenSectionsRun(o);
    s := NonLeaderRun(o, s);
    LaunchLaw(s);
  }

  lemma AddBetweenSectionsRun(o: State) returns (s: State)
    requires o == Init(Bounded, false)
    ensures Reaches(o, s) && s.mu.Free? && s.nonLeaderSection.Pending? && s.main.Selecting?
    ensures s.core.nonLeader == [PROBER] && s.window == [PROBER]
  {
    s := StartRun(false, CONTROLLER);
    s := LeaderRun(o, s);
    assert s.core.nonLeader == [] && s.window == [] && s.core.started && !s.core.stopEngaged;
    assert StartsAtOnce(s.core, PROBER);
    s := Step(o, s, Add(PROBER));
  }

  /** The stop procedure drains the group before any start section got the lock, with an election won. */
  lemma EarlyStopRun(o: State, r: Runnable) returns (s: State)
    requires o == Init(Bounded, true) && Classify(r) != CacheGroup
    ensures Reaches(o, s) && s.main.Drained? && s.armed && s.leaderSection.Pending? && s.nonLeaderSection.Pending?
    ensures s.core == Enlist(o.core, r).(caches := [CLUSTER], stopEngaged := true) && s.active == {}
  {
    var t := StartRun(true, r);
    var u := Step(o, t, ArmElection);
    assert u == t.(armed := true);
    var v := WonStep(o, u);
    var w := Step(o, v, StopRequested);
    assert w == v.(main := Stopping(true));
    s := DrainedRun(o, w);
  }

  lemma DrainedRun(o: State, s: State) returns (t: State)
    requires o == Init(Bounded, true) && Reaches(o, s) && s.mu.Free? && s.main.Stopping? && s.grace.Bounded?
    requires s.core.wg == 0
    ensures Reaches(o, t) && t.main.Drained? && t.active == {} && t.core == s.core.(stopEngaged := true)
    ensures t.armed == s.armed && t.leaderSection == s.leaderSection && t.nonLeaderSection == s.nonLeaderSection
  {
    var u := Step(o, s, EngageStop);
    assert u.core == s.core.(stopEngaged := true) && u.main.Waiting?;
    t := Step(o, u, GroupDrained);
    assert t == u.(main := Drained);
    ReachableInvariant(o, t);
    assert |t.active| == 0;
  }

  lemma ReachableInvariant(o: State, s: State)
    requires o == Init(Bounded, true) && Reaches(o, s)
    ensures Invariant(s)
  {
    assert Reachable(s);
    InvariantOfReachable(s);
  }

  /** Then the callback of the election, or the other section, launches after the cancellation. */
  lemma LaunchAfterCancelRun(r: Runnable) returns (s: State)
    requires Classify(r) != CacheGroup
    ensures Reachable(s) && Enabled(s, CancelElection)
    ensures LaunchesLater(s, Classify(r)) && LaunchesLater(s, CacheGroup)
  {
    var o := Init(Bounded, true);
    s := EarlyStopRun(o, r);
    LaunchAfterCancelIff(s);
  }

  /** The metrics server can be running when leader election is cancelled. */
  lemma MetricsAtCancelRun() returns (s: State)
    ensures Reachable(s) && Enabled(s, CancelElection)
    ensures s.active == {0} && s.core.trace == [ServerLaunch(false)]
  {
    var o := Init(Bounded, true);
    var u := EarlyStopRun(o, CONTROLLER);
    s := ServeStep(o, u);
  }

  lemma ServeStep(o: State, s: State) returns (t: State)
    requires Reaches(o, s) && !s.main.NotStarted?
    ensures Reaches(o, t) && t == ServeOn(s, false)
  {
    ReachesStep(o, s, ServeMetrics);
    t := AsideStep(s, ServeMetrics);
  }
}
