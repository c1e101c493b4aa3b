/**
 The life of a controller manager: registration, the two start sections, leader
 election and the stop procedure.

 The manager's goroutines are interleaved actions over one state. Whatever the
 code does under its mutex without blocking is one action; a section that blocks
 while it holds the mutex (the wait for each cache) is cut at every wait. `Exec`
 runs any list of actions, so a statement about `Exec` is one about every
 interleaving.
 */
module Manager {
  import opened Common

  /** What registration can see of a runnable through its interfaces. */
  datatype Runnable = Runnable(id: nat, needLeaderElection: Option<bool>, hasCache: bool, isWebhookServer: bool)

  datatype Group = NonLeaderGroup | CacheGroup | LeaderGroup

  function Classify(r: Runnable): Group {
    if r.needLeaderElection == Some(false) then NonLeaderGroup
    else if r.hasCache then CacheGroup
    else LeaderGroup
  }

  function IsWebhook(): Runnable -> bool {
    (r: Runnable) => r.isWebhookServer
  }

  function Webhooks(rs: seq<Runnable>): seq<Runnable> {
    Filter(IsWebhook(), rs)
  }

  function NonWebhooks(rs: seq<Runnable>): seq<Runnable> {
    Filter(Not(IsWebhook()), rs)
  }

  /** What the outside can observe, in order. A server launch is the metrics or the probe server. */
  datatype Event =
    | Launch(r: Runnable)
    | ServerLaunch(probe: bool)
    | Synced(cache: Runnable)
    | ElectionCancelled

  /** The fields the code guards with its mutex, the wait group and the launches so far. */
  datatype Core = Core(
    started: bool,
    startedLeader: bool,
    stopEngaged: bool,
    nonLeader: seq<Runnable>,
    caches: seq<Runnable>,
    leader: seq<Runnable>,
    wg: nat,
    trace: seq<Event>)

  function Launches(rs: seq<Runnable>): (es: seq<Event>)
    ensures |es| == |rs|
  {
    if rs == [] then [] else Launches(rs[..|rs| - 1]) + [Launch(rs[|rs| - 1])]
  }

  function LaunchAll(c: Core, rs: seq<Runnable>): Core {
    c.(wg := c.wg + |rs|, trace := c.trace + Launches(rs))
  }

  lemma LaunchStep(c: Core, rs: seq<Runnable>, r: Runnable)
    ensures Launches([r]) == [Launch(r)]
    ensures Launches(rs + [r]) == Launches(rs) + [Launch(r)]
    ensures LaunchAll(LaunchAll(c, rs), [r]) == LaunchAll(c, rs + [r])
  {
    assert (rs + [r])[..|rs|] == rs;
    assert [r][..0] == [];
    assert c.trace + Launches(rs) + [Launch(r)] == c.trace + (Launches(rs) + [Launch(r)]);
  }

  /** Appends r to the list its interfaces select. */
  function Enlist(c: Core, r: Runnable): Core {
    match Classify(r)
    case NonLeaderGroup => c.(nonLeader := c.nonLeader + [r])
    case CacheGroup => c.(caches := c.caches + [r])
    case LeaderGroup => c.(leader := c.leader + [r])
  }

  predicate StartsAtOnce(c: Core, r: Runnable) {
    match Classify(r)
    case NonLeaderGroup => c.started
    case CacheGroup => false
    case LeaderGroup => c.startedLeader
  }

  function AddTo(c: Core, r: Runnable): Core {
    if c.stopEngaged then c
    else if StartsAtOnce(c, r) then LaunchAll(Enlist(c, r), [r])
    else Enlist(c, r)
  }

  // ----- The manager as an object -----

  class ControllerManager {
    var started: bool
    var startedLeader: bool
    var stopEngaged: bool
    var nonLeader: seq<Runnable>
    var caches: seq<Runnable>
    var leader: seq<Runnable>
    var wg: nat
    var trace: seq<Event>

    ghost function State(): Core
      reads this
    {
      Core(started, startedLeader, stopEngaged, nonLeader, caches, leader, wg, trace)
    }

    constructor ()
      ensures State() == Core(false, false, false, [], [], [], 0, [])
    {
      started, startedLeader, stopEngaged := false, false, false;
      nonLeader, caches, leader := [], [], [];
      wg, trace := 0, [];
    }

    method StartRunnable(r: Runnable)
      modifies this`wg, this`trace
      ensures State() == LaunchAll(old(State()), [r])
    {
      LaunchStep(State(), [], r);
      wg := wg + 1;
      trace := trace + [Launch(r)];
    }

    method Add(r: Runnable) returns (accepted: bool)
      modifies this
      ensures State() == AddTo(old(State()), r)
      ensures accepted <==> !old(stopEngaged)
      ensures !accepted ==> State() == old(State())
      ensures accepted && r.needLeaderElection == Some(false) ==>
                && nonLeader == old(nonLeader) + [r] && caches == old(caches) && leader == old(leader)
                && trace == (if old(started) then old(trace) + [Launch(r)] else old(trace))
      ensures accepted && r.needLeaderElection != Some(false) && r.hasCache ==>
                caches == old(caches) + [r] && nonLeader == old(nonLeader) && leader == old(leader) && trace == old(trace)
      ensures accepted && r.needLeaderElection != Some(false) && !r.hasCache ==>
                && leader == old(leader) + [r] && nonLeader == old(nonLeader) && caches == old(caches)
                && trace == (if old(startedLeader) then old(trace) + [Launch(r)] else old(trace))
    {
      if stopEngaged {
        return false;
      }
      var shouldStart := false;
      if r.needLeaderElection == Some(false) {
        shouldStart := started;
        nonLeader := nonLeader + [r];
      } else if r.hasCache {
        caches := caches + [r];
      } else {
        shouldStart := startedLeader;
        leader := leader + [r];
      }
      if shouldStart {
        LaunchStep(State(), [], r);
        StartRunnable(r);
      }
      return true;
    }

    /** Starts the members of a list that satisfy p, in list order. */
    method StartMatching(rs: seq<Runnable>, p: Runnable -> bool)
      modifies this`wg, this`trace
      ensures State() == LaunchAll(old(State()), Filter(p, rs))
    {
      ghost var was := State();
      for i := 0 to |rs|
        invariant State() == LaunchAll(was, Filter(p, rs[..i]))
      {
        FilterStep(p, rs, i);
        LaunchStep(was, Filter(p, rs[..i]), rs[i]);
        if p(rs[i]) {
          StartRunnable(rs[i]);
        }
      }
      assert rs[..|rs|] == rs;
    }

    method StartAll(rs: seq<Runnable>)
      modifies this`wg, this`trace
      ensures State() == LaunchAll(old(State()), rs)
    {
      ghost var was := State();
      for i := 0 to |rs|
        invariant State() == LaunchAll(was, rs[..i])
      {
        assert rs[..i + 1] == rs[..i] + [rs[i]];
        LaunchStep(was, rs[..i], rs[i]);
        StartRunnable(rs[i]);
      }
      assert rs[..|rs|] == rs;
    }

    /** waitForCache up to its first wait; nothing is left to do when the caches were started before. */
    method StartCaches() returns (mustWait: bool)
      modifies this`wg, this`trace
      ensures mustWait <==> !started
      ensures State() == if started then old(State()) else LaunchAll(old(State()), caches)
    {
      if started {
        return false;
      }
      StartAll(caches);
      return true;
    }

    /** startLeaderElectionRunnables after its cache wait. */
    method StartLeaders()
      modifies this`wg, this`trace, this`startedLeader
      ensures State() == LaunchAll(old(State()), leader).(startedLeader := true)
    {
      StartAll(leader);
      startedLeader := true;
    }
  }

  // ----- The interleaved system -----

  /** Where a start section stands: before the caches, at the n-th wait, or past them. */
  datatype Progress = CachesDue | Syncing(next: nat) | LaunchDue

  datatype Holder = Free | InNonLeader(progress: Progress) | InLeader(progress: Progress) | InStop

  datatype Section = Pending | Inside | Finished

  datatype Main =
    | NotStarted
    | Selecting                  // in the select of Start
    | Stopping(deadline: bool)   // stop procedure before its lock
    | Waiting(deadline: bool)    // stop procedure waiting for the group, lock held
    | Drained                    // the wait ended because the group reached zero
    | Cancelled                  // leader election cancelled
    | Returned

  datatype Grace = Zero | Bounded | Unbounded

  datatype State = State(
    core: Core,
    mu: Holder,
    main: Main,
    grace: Grace,
    elects: bool,                // a resource lock is configured
    armed: bool,                 // leaderElectionCancel is set
    won: bool,                   // the election callback fired
    nonLeaderSection: Section,
    leaderSection: Section,
    active: set<nat>,            // launches, by position in the trace, not yet Done
    failed: set<nat>,            // those of them blocked on the error channel
    // History.
    cut: nat,                    // how many caches the start sections launched
    window: seq<Runnable>,       // non-leader runnables added after started was set, before their section
    nonLeaderFirst: bool,        // their section entered before started was set
    entry: seq<Runnable>)        // webhook servers known when their section entered

  datatype Action =
    | Add(r: Runnable)
    | Start(cluster: Runnable)
    | EnterNonLeader
    | EnterLeader
    | LaunchCaches
    | SyncReturns
    | CachesReady
    | FinishNonLeader
    | FinishLeader
    | ArmElection
    | WinElection
    | LoseElection
    | ServeMetrics
    | ServeProbes
    | RunnableEnds(i: nat)
    | RunnableFails(i: nat)
    | StartReceives(i: nat)
    | DrainReceives(i: nat)
    | StopRequested              // the context is done, or the loss of leadership is received
    | SkipGrace
    | EngageStop
    | GroupDrained
    | TimeOut
    | CancelElection
    | StopReturns

  function Init(grace: Grace, elects: bool): State {
    State(Core(false, false, false, [], [], [], 0, []), Free, NotStarted, grace, elects, false, false,
          Pending, Pending, {}, {}, 0, [], false, [])
  }

  predicate Held(h: Holder, p: Progress) {
    h == InNonLeader(p) || h == InLeader(p)
  }

  predicate Enabled(s: State, a: Action) {
    match a
    case Add(_) => s.mu.Free?
    case Start(cluster) => s.mu.Free? && s.main.NotStarted? && Classify(cluster) == CacheGroup
    case EnterNonLeader => s.mu.Free? && !s.main.NotStarted? && s.nonLeaderSection.Pending?
    case EnterLeader => s.mu.Free? && !s.main.NotStarted? && s.leaderSection.Pending? && (s.elects ==> s.won)
    case LaunchCaches => Held(s.mu, CachesDue)
    case SyncReturns => (s.mu.InNonLeader? || s.mu.InLeader?) && s.mu.progress.Syncing?
                        && s.mu.progress.next < |s.core.caches|
    case CachesReady => Held(s.mu, Syncing(|s.core.caches|))
    case FinishNonLeader => s.mu == InNonLeader(LaunchDue)
    case FinishLeader => s.mu == InLeader(LaunchDue)
    case ArmElection => s.mu.Free? && !s.main.NotStarted? && s.elects && !s.armed
    case WinElection => s.armed && !s.won
    case LoseElection => s.armed
    case ServeMetrics => !s.main.NotStarted?
    case ServeProbes => s.mu.Free? && !s.main.NotStarted?
    case RunnableEnds(i) => i in s.active && i !in s.failed
    case RunnableFails(i) => i in s.active && i !in s.failed
    case StartReceives(i) => i in s.failed && s.main.Selecting?
    case DrainReceives(i) => i in s.failed && !s.main.NotStarted? && !s.main.Selecting? && !s.main.Returned?
    case StopRequested => s.main.Selecting?
    case SkipGrace => s.main.Stopping? && s.grace.Zero?
    case EngageStop => s.main.Stopping? && !s.grace.Zero? && s.mu.Free?
    case GroupDrained => s.main.Waiting? && s.core.wg == 0
    case TimeOut => s.main.Waiting? && s.main.deadline
    case CancelElection => s.main.Drained? && s.armed
    case StopReturns => s.main.Cancelled? || (s.main.Drained? && !s.armed)
  }

  function Span(lo: nat, n: nat): (r: set<nat>)
    ensures forall i :: i in r <==> lo <= i < lo + n
    ensures |r| == n
  {
    if n == 0 then {} else Span(lo, n - 1) + {lo + n - 1}
  }

  function WithLaunches(s: State, rs: seq<Runnable>): State {
    s.(core := LaunchAll(s.core, rs), active := s.active + Span(|s.core.trace|, |rs|))
  }

  function Register(s: State, r: Runnable): State {
    var starts := !s.core.stopEngaged && StartsAtOnce(s.core, r);
    s.(core := AddTo(s.core, r),
       active := s.active + if starts then Span(|s.core.trace|, 1) else {},
       window := s.window +
         if starts && Classify(r) == NonLeaderGroup && s.nonLeaderSection.Pending? then [r] else [])
  }

  function ServeOn(s: State, probe: bool): State {
    s.(core := s.core.(wg := s.core.wg + 1, trace := s.core.trace + [ServerLaunch(probe)]),
       active := s.active + {|s.core.trace|})
  }

  /** The goroutine of launch i calls Done. */
  function RunnableDone(s: State, i: nat): State {
    s.(core := s.core.(wg := if s.core.wg > 0 then s.core.wg - 1 else 0),
       active := s.active - {i}, failed := s.failed - {i})
  }

  function Advance(h: Holder, p: Progress): Holder {
    match h
    case InNonLeader(_) => InNonLeader(p)
    case InLeader(_) => InLeader(p)
    case other => other
  }

  function FirstProgress(c: Core): Progress {
    if c.started then LaunchDue else CachesDue
  }

  /** The steps of the two start sections. */
  predicate InSection(a: Action) {
    a.EnterNonLeader? || a.EnterLeader? || a.LaunchCaches? || a.SyncReturns? || a.CachesReady?
    || a.FinishNonLeader? || a.FinishLeader?
  }

  /** The steps of the main goroutine after Start registered the cluster. */
  predicate InMain(a: Action) {
    a.StartReceives? || a.StopRequested? || a.SkipGrace? || a.EngageStop? || a.GroupDrained? || a.TimeOut?
    || a.CancelElection? || a.StopReturns?
  }

  /** The steps of all other goroutines: election, servers and runnables. */
  predicate Aside(a: Action) {
    !a.Add? && !a.Start? && !InSection(a) && !InMain(a)
  }

  function SectionStep(s: State, a: Action): State
    requires Enabled(s, a) && InSection(a)
  {
    match a
    case EnterNonLeader =>
      WithLaunches(s, Webhooks(s.core.nonLeader)).(
        mu := InNonLeader(FirstProgress(s.core)), nonLeaderSection := Inside,
        nonLeaderFirst := !s.core.started, entry := Webhooks(s.core.nonLeader))
    case EnterLeader => s.(mu := InLeader(FirstProgress(s.core)), leaderSection := Inside)
    case LaunchCaches =>
      WithLaunches(s, s.core.caches).(mu := Advance(s.mu, Syncing(0)), cut := |s.core.caches|)
    case SyncReturns =>
      s.(core := s.core.(trace := s.core.trace + [Synced(s.core.caches[s.mu.progress.next])]),
         mu := Advance(s.mu, Syncing(s.mu.progress.next + 1)))
    case CachesReady => s.(core := s.core.(started := true), mu := Advance(s.mu, LaunchDue))
    case FinishNonLeader =>
      WithLaunches(s, NonWebhooks(s.core.nonLeader)).(mu := Free, nonLeaderSection := Finished)
    case FinishLeader =>
      var t := WithLaunches(s, s.core.leader);
      t.(core := t.core.(startedLeader := true), mu := Free, leaderSection := Finished)
  }

  function MainStep(s: State, a: Action): State
    requires Enabled(s, a) && InMain(a)
  {
    match a
    case StartReceives(i) => RunnableDone(s, i).(main := Stopping(s.grace.Bounded?))
    case StopRequested => s.(main := Stopping(s.grace.Bounded?))
    case SkipGrace => s.(main := Returned)
    case EngageStop => s.(core := s.core.(stopEngaged := true), mu := InStop, main := Waiting(s.main.deadline))
    case GroupDrained => s.(main := Drained)
    case TimeOut => s.(mu := Free, main := Returned)
    case CancelElection => s.(core := s.core.(trace := s.core.trace + [ElectionCancelled]), main := Cancelled)
    case StopReturns => s.(mu := Free, main := Returned)
  }

  function AsideStep(s: State, a: Action): State
    requires Enabled(s, a) && Aside(a)
  {
    match a
    case ArmElection => s.(armed := true)
    case WinElection => s.(won := true)
    case LoseElection => s.(grace := Zero)
    case ServeMetrics => ServeOn(s, false)
    case ServeProbes => ServeOn(s, true)
    case RunnableEnds(i) => RunnableDone(s, i)
    case RunnableFails(i) => s.(failed := s.failed + {i})
    case DrainReceives(i) => RunnableDone(s, i)
  }

  function StartWith(s: State, cluster: Runnable): State {
    if s.core.stopEngaged then s.(main := Returned)
    else Register(s, cluster).(main := Selecting)
  }

  function After(s: State, a: Action): State
    requires Enabled(s, a)
  {
    if a.Add? then Register(s, a.r)
    else if a.Start? then StartWith(s, a.cluster)
    else if InSection(a) then SectionStep(s, a)
    else if InMain(a) then MainStep(s, a)
    else AsideStep(s, a)
  }

  /** The state after a list of actions, or None when one of them is not enabled. */
  function Exec(s: State, actions: seq<Action>): Option<State> {
    if actions == [] then Some(s)
    else
      match Exec(s, actions[..|actions| - 1])
      case None => None
      case Some(t) =>
        var a := actions[|actions| - 1];
        if Enabled(t, a) then Some(After(t, a)) else None
  }

  /** Some run leads from s to t. */
  ghost predicate Reaches(s: State, t: State) {
    exists actions :: Exec(s, actions) == Some(t)
  }

  ghost predicate Reachable(s: State) {
    exists grace, elects :: Reaches(Init(grace, elects), s)
  }

  // ----- Launch counts -----

  /** The runnables of one group launched so far, with multiplicity. */
  function Launched(trace: seq<Event>, g: Group): multiset<Runnable> {
    if trace == [] then multiset{}
    else
      var e := trace[|trace| - 1];
      Launched(trace[..|trace| - 1], g)
      + if e.Launch? && Classify(e.r) == g then multiset{e.r} else multiset{}
  }

  ghost predicate AllIn(rs: seq<Runnable>, g: Group) {
    forall r :: r in rs ==> Classify(r) == g
  }

  lemma LaunchedOne(trace: seq<Event>, e: Event, g: Group)
    ensures Launched(trace + [e], g) ==
            Launched(trace, g) + if e.Launch? && Classify(e.r) == g then multiset{e.r} else multiset{}
  {
    assert (trace + [e])[..|trace|] == trace;
  }

  lemma LaunchedSnoc(trace: seq<Event>, init: seq<Runnable>, last: Runnable, h: Group)
    ensures Launched(trace + Launches(init + [last]), h) ==
            Launched(trace + Launches(init), h) + if Classify(last) == h then multiset{last} else multiset{}
  {
    assert (init + [last])[..|init|] == init;
    assert trace + Launches(init + [last]) == trace + Launches(init) + [Launch(last)];
    LaunchedOne(trace + Launches(init), Launch(last), h);
  }

  function Share(rs: seq<Runnable>, g: Group, h: Group): multiset<Runnable> {
    if g == h then multiset(rs) else multiset{}
  }

  lemma ShareSnoc(init: seq<Runnable>, last: Runnable, g: Group, h: Group)
    requires Classify(last) == g
    ensures Share(init + [last], g, h) == Share(init, g, h) + if Classify(last) == h then multiset{last} else multiset{}
  {
  }

  lemma {:induction false} LaunchedMany(trace: seq<Event>, rs: seq<Runnable>, g: Group, h: Group)
    requires AllIn(rs, g)
    ensures Launched(trace + Launches(rs), h) == Launched(trace, h) + Share(rs, g, h)
  {
    if rs == [] {
      assert trace + Launches(rs) == trace;
    } else {
      var init, last := rs[..|rs| - 1], rs[|rs| - 1];
      assert rs == init + [last] && last in rs;
      LaunchedMany(trace, init, g, h);
      LaunchedOneMore(trace, init, last, g, h);
    }
  }

  lemma LaunchedOneMore(trace: seq<Event>, init: seq<Runnable>, last: Runnable, g: Group, h: Group)
    requires Classify(last) == g && Launched(trace + Launches(init), h) == Launched(trace, h) + Share(init, g, h)
    ensures Launched(trace + Launches(init + [last]), h) == Launched(trace, h) + Share(init + [last], g, h)
  {
    LaunchedSnoc(trace, init, last, h);
    ShareSnoc(init, last, g, h);
  }

  lemma WebhookMembers(rs: seq<Runnable>, g: Group)
    requires AllIn(rs, g)
    ensures AllIn(Webhooks(rs), g) && AllIn(NonWebhooks(rs), g)
  {
    forall r ensures r in Webhooks(rs) || r in NonWebhooks(rs) ==> r in rs {
      FilterMember(IsWebhook(), rs, r);
      FilterMember(Not(IsWebhook()), rs, r);
    }
  }

  ghost predicate Lists(c: Core) {
    && AllIn(c.nonLeader, NonLeaderGroup)
    && AllIn(c.caches, CacheGroup)
    && AllIn(c.leader, LeaderGroup)
  }

  /** How the mutex, the sections, the flags and the main goroutine hang together. */
  ghost predicate Phases(s: State) {
    && (s.mu.InNonLeader? <==> s.nonLeaderSection.Inside?)
    && (s.mu.InLeader? <==> s.leaderSection.Inside?)
    && (s.mu.InStop? <==> s.main.Waiting? || s.main.Drained? || s.main.Cancelled?)
    && (s.mu.InStop? ==> s.core.stopEngaged)
    && (s.core.startedLeader <==> s.leaderSection.Finished?)
    && (!s.core.started ==> !s.nonLeaderSection.Finished? && !s.leaderSection.Finished? && s.window == [])
    && (s.mu.InNonLeader? || s.mu.InLeader? ==>
        && (s.mu.progress.LaunchDue? <==> s.core.started)
        && (s.mu.progress.Syncing? ==> s.mu.progress.next <= |s.core.caches| && s.cut == |s.core.caches|)
        && (s.mu.progress.CachesDue? ==> s.cut == 0))
    && (!s.core.started && (s.mu.Free? || s.mu.InStop?) ==> s.cut == 0)
    && s.cut <= |s.core.caches|
    && (s.nonLeaderFirst ==> s.window == [] && !s.nonLeaderSection.Pending?)
    && (s.main.NotStarted? ==> s.nonLeaderSection.Pending? && s.leaderSection.Pending? && !s.core.stopEngaged && s.mu.Free?)
  }

  /** Launches of each group against the registrations of that group. */
  ghost predicate Counts(c: Core, cut: nat, window: seq<Runnable>, section: Section) {
    && Launched(c.trace, LeaderGroup) == (if c.startedLeader then multiset(c.leader) else multiset{})
    && cut <= |c.caches|
    && Launched(c.trace, CacheGroup) == multiset(c.caches[..cut])
    && Launched(c.trace, NonLeaderGroup) == multiset(window) + SectionLaunches(c.nonLeader, section)
  }

  ghost function SectionLaunches(rs: seq<Runnable>, section: Section): multiset<Runnable> {
    match section
    case Pending => multiset{}
    case Inside => multiset(Webhooks(rs))
    case Finished => multiset(rs)
  }

  ghost predicate CountsOf(s: State) {
    Counts(s.core, s.cut, s.window, s.nonLeaderSection)
  }

  lemma CountsKept(s: State, a: Action)
    requires Lists(s.core) && Phases(s) && CountsOf(s) && Enabled(s, a)
    ensures CountsOf(After(s, a))
  {
    if a.Add? {
      CountsKeptByAdd(s, a.r);
    } else if a.Start? {
      CountsKeptByStart(s, a.cluster);
    } else if InSection(a) {
      CountsKeptInSection(s, a);
    } else if InMain(a) {
      CountsKeptInMain(s, a);
    } else {
      CountsKeptAside(s, a);
    }
  }

  lemma CountsKeptByStart(s: State, cluster: Runnable)
    requires Phases(s) && CountsOf(s) && Enabled(s, Start(cluster))
    ensures CountsOf(StartWith(s, cluster))
  {
    CountsKeptByAdd(s, cluster);
  }

  lemma CountsKeptInMain(s: State, a: Action)
    requires CountsOf(s) && Enabled(s, a) && InMain(a)
    ensures CountsOf(MainStep(s, a))
  {
    CountsKeptByNote(s.core, s.cut, s.window, s.nonLeaderSection, ElectionCancelled);
  }

  lemma CountsKeptAside(s: State, a: Action)
    requires CountsOf(s) && Enabled(s, a) && Aside(a)
    ensures CountsOf(AsideStep(s, a))
  {
    CountsKeptByNote(s.core, s.cut, s.window, s.nonLeaderSection, ServerLaunch(a.ServeProbes?));
  }

  lemma CountsKeptInSection(s: State, a: Action)
    requires Lists(s.core) && Phases(s) && CountsOf(s) && Enabled(s, a) && InSection(a)
    ensures CountsOf(SectionStep(s, a))
  {
    match a
    case EnterNonLeader => CountsKeptByWebhooks(s.core, s.cut, s.window);
    case LaunchCaches => CountsKeptByCaches(s.core, s.window, s.nonLeaderSection);
    case SyncReturns =>
      CountsKeptByNote(s.core, s.cut, s.window, s.nonLeaderSection, Synced(s.core.caches[s.mu.progress.next]));
    case FinishNonLeader => CountsKeptByRest(s.core, s.cut, s.window);
    case FinishLeader => CountsKeptByLeaders(s.core, s.cut, s.window, s.nonLeaderSection);
    case _ =>
  }

  lemma CountsKeptByNote(c: Core, cut: nat, window: seq<Runnable>, section: Section, e: Event)
    requires Counts(c, cut, window, section) && !e.Launch?
    ensures forall wg :: Counts(c.(wg := wg, trace := c.trace + [e]), cut, window, section)
  {
    LaunchedOne(c.trace, e, LeaderGroup);
    LaunchedOne(c.trace, e, CacheGroup);
    LaunchedOne(c.trace, e, NonLeaderGroup);
  }

  lemma LaunchedAll(c: Core, rs: seq<Runnable>, g: Group)
    requires AllIn(rs, g)
    ensures forall h :: Launched(LaunchAll(c, rs).trace, h) ==
                        Launched(c.trace, h) + Share(rs, g, h)
  {
    forall h { LaunchedMany(c.trace, rs, g, h); }
  }

  lemma CountsKeptByAdd(s: State, r: Runnable)
    requires CountsOf(s) && !s.nonLeaderSection.Inside? && (s.nonLeaderSection.Finished? ==> s.core.started)
    ensures CountsOf(Register(s, r))
  {
    var c, t := s.core, Register(s, r);
    assert t.core == AddTo(c, r) && t.cut == s.cut && t.nonLeaderSection == s.nonLeaderSection;
    if c.stopEngaged {
      assert t.core == c && t.window == s.window;
    } else if Classify(r) == NonLeaderGroup {
      assert t.window == if c.started && s.nonLeaderSection.Pending? then s.window + [r] else s.window;
      AddNonLeaderCounts(c, s.cut, s.window, s.nonLeaderSection, r);
    } else {
      assert t.window == s.window;
      AddOtherCounts(c, s.cut, s.window, s.nonLeaderSection, r);
    }
  }

  lemma AddOtherCounts(c: Core, cut: nat, window: seq<Runnable>, section: Section, r: Runnable)
    requires Counts(c, cut, window, section) && !c.stopEngaged && Classify(r) != NonLeaderGroup
    ensures Counts(AddTo(c, r), cut, window, section)
  {
    if Classify(r) == CacheGroup {
      AddCacheCounts(c, cut, window, section, r);
    } else if c.startedLeader {
      AddLeaderCounts(c, cut, window, section, r);
    } else {
      assert AddTo(c, r) == c.(leader := c.leader + [r]);
    }
  }

  lemma AddCacheCounts(c: Core, cut: nat, window: seq<Runnable>, section: Section, r: Runnable)
    requires Counts(c, cut, window, section) && !c.stopEngaged && Classify(r) == CacheGroup
    ensures Counts(AddTo(c, r), cut, window, section)
  {
    assert AddTo(c, r) == c.(caches := c.caches + [r]);
    assert (c.caches + [r])[..cut] == c.caches[..cut];
  }

  lemma AddLeaderCounts(c: Core, cut: nat, window: seq<Runnable>, section: Section, r: Runnable)
    requires Counts(c, cut, window, section) && !c.stopEngaged && Classify(r) == LeaderGroup && c.startedLeader
    ensures Counts(AddTo(c, r), cut, window, section)
  {
    var d := AddTo(c, r);
    assert d.leader == c.leader + [r] && d.nonLeader == c.nonLeader && d.caches == c.caches;
    assert d.trace == c.trace + [Launch(r)] by { LaunchStep(c, [], r); }
    LaunchedOne(c.trace, Launch(r), LeaderGroup);
    LaunchedOne(c.trace, Launch(r), CacheGroup);
    LaunchedOne(c.trace, Launch(r), NonLeaderGroup);
  }

  lemma AddNonLeaderCounts(c: Core, cut: nat, window: seq<Runnable>, section: Section, r: Runnable)
    requires Counts(c, cut, window, section) && !c.stopEngaged && Classify(r) == NonLeaderGroup
    requires !section.Inside? && (section.Finished? ==> c.started)
    ensures Counts(AddTo(c, r), cut, if c.started && section.Pending? then window + [r] else window, section)
  {
    if c.started {
      AddLaunchedCounts(c, cut, window, section, r);
    } else {
      assert section.Pending?;
      assert AddTo(c, r) == c.(nonLeader := c.nonLeader + [r]);
    }
  }

  lemma AddLaunchedCounts(c: Core, cut: nat, window: seq<Runnable>, section: Section, r: Runnable)
    requires Counts(c, cut, window, section) && !c.stopEngaged && Classify(r) == NonLeaderGroup
    requires !section.Inside? && c.started
    ensures Counts(AddTo(c, r), cut, if section.Pending? then window + [r] else window, section)
  {
    var d := AddTo(c, r);
    assert d.leader == c.leader && d.caches == c.caches && d.nonLeader == c.nonLeader + [r];
    assert d.trace == c.trace + [Launch(r)] by { LaunchStep(c, [], r); }
    LaunchedOne(c.trace, Launch(r), LeaderGroup);
    LaunchedOne(c.trace, Launch(r), CacheGroup);
    LaunchedOne(c.trace, Launch(r), NonLeaderGroup);
    AddedLaunch(c.nonLeader, window, section, r);
  }

  lemma AddedLaunch(rs: seq<Runnable>, window: seq<Runnable>, section: Section, r: Runnable)
    requires !section.Inside?
    ensures multiset(if section.Pending? then window + [r] else window) + SectionLaunches(rs + [r], section)
         == multiset(window) + SectionLaunches(rs, section) + multiset{r}
  {
  }

  lemma CountsKeptByWebhooks(c: Core, cut: nat, window: seq<Runnable>)
    requires Lists(c) && Counts(c, cut, window, Pending)
    ensures Counts(LaunchAll(c, Webhooks(c.nonLeader)), cut, window, Inside)
  {
    WebhookMembers(c.nonLeader, NonLeaderGroup);
    LaunchedAll(c, Webhooks(c.nonLeader), NonLeaderGroup);
  }

  lemma CountsKeptByCaches(c: Core, window: seq<Runnable>, section: Section)
    requires Lists(c) && Counts(c, 0, window, section)
    ensures Counts(LaunchAll(c, c.caches), |c.caches|, window, section)
  {
    LaunchedAll(c, c.caches, CacheGroup);
    assert c.caches[..|c.caches|] == c.caches;
    assert c.caches[..0] == [];
  }

  lemma CountsKeptByRest(c: Core, cut: nat, window: seq<Runnable>)
    requires Lists(c) && Counts(c, cut, window, Inside)
    ensures Counts(LaunchAll(c, NonWebhooks(c.nonLeader)), cut, window, Finished)
  {
    var first, rest := multiset(Webhooks(c.nonLeader)), multiset(NonWebhooks(c.nonLeader));
    WebhookMembers(c.nonLeader, NonLeaderGroup);
    LaunchedAll(c, NonWebhooks(c.nonLeader), NonLeaderGroup);
    assert first + rest == multiset(c.nonLeader) by { FilterSplit(IsWebhook(), c.nonLeader); }
  }

  lemma CountsKeptByLeaders(c: Core, cut: nat, window: seq<Runnable>, section: Section)
    requires Lists(c) && Counts(c, cut, window, section) && !c.startedLeader
    ensures Counts(LaunchAll(c, c.leader).(startedLeader := true), cut, window, section)
  {
    LaunchedAll(c, c.leader, LeaderGroup);
  }

  lemma ListsKept(s: State, a: Action)
    requires Lists(s.core) && Enabled(s, a)
    ensures Lists(After(s, a).core)
  {
    if a.Add? {
      EnlistKeepsLists(s.core, a.r);
    } else if a.Start? {
      EnlistKeepsLists(s.core, a.cluster);
    } else if InSection(a) {
      SectionKeepsLists(s, a);
    } else if InMain(a) {
      MainKeepsLists(s, a);
    } else {
      AsideLeavesControl(s, a);
    }
  }

  lemma MainKeepsLists(s: State, a: Action)
    requires Enabled(s, a) && InMain(a)
    ensures SameLists(s.core, MainStep(s, a).core)
  {
    match a
    case StartReceives(_) =>
    case EngageStop =>
    case CancelElection =>
    case _ =>
  }

  lemma EnlistKeepsLists(c: Core, r: Runnable)
    requires Lists(c)
    ensures Lists(AddTo(c, r))
  {
  }

  lemma SectionKeepsLists(s: State, a: Action)
    requires Enabled(s, a) && InSection(a)
    ensures SameLists(s.core, SectionStep(s, a).core)
  {
    match a
    case EnterNonLeader =>
    case EnterLeader =>
    case LaunchCaches =>
    case SyncReturns =>
    case CachesReady =>
    case FinishNonLeader =>
    case FinishLeader =>
  }

  predicate SameLists(c: Core, d: Core) {
    d == c.(started := d.started, startedLeader := d.startedLeader, stopEngaged := d.stopEngaged, wg := d.wg, trace := d.trace)
  }

  lemma PhasesKept(s: State, a: Action)
    requires Phases(s) && Enabled(s, a)
    ensures Phases(After(s, a))
  {
    if a.Add? {
      PhasesKeptByAdd(s, a.r);
    } else if a.Start? {
      PhasesKeptByStart(s, a.cluster);
    } else if InSection(a) {
      PhasesKeptInSection(s, a);
    } else if InMain(a) {
      PhasesKeptInMain(s, a);
    } else {
      PhasesKeptAside(s, a);
    }
  }

  lemma PhasesKeptByAdd(s: State, r: Runnable)
    requires Phases(s) && s.mu.Free?
    ensures Phases(Register(s, r))
  {
    var c, t := s.core, Register(s, r);
    assert t.core.started == c.started && t.core.startedLeader == c.startedLeader;
    assert t.core.stopEngaged == c.stopEngaged && |t.core.caches| >= |c.caches|;
    assert t.window == s.window || (c.started && s.nonLeaderSection.Pending?);
  }

  lemma PhasesKeptByStart(s: State, cluster: Runnable)
    requires Phases(s) && Enabled(s, Start(cluster))
    ensures Phases(StartWith(s, cluster))
  {
    PhasesKeptByAdd(s, cluster);
  }

  lemma PhasesKeptInSection(s: State, a: Action)
    requires Phases(s) && Enabled(s, a) && InSection(a)
    ensures Phases(SectionStep(s, a))
  {
  }

  lemma PhasesKeptInMain(s: State, a: Action)
    requires Phases(s) && Enabled(s, a) && InMain(a)
    ensures Phases(MainStep(s, a))
  {
  }

  lemma PhasesKeptAside(s: State, a: Action)
    requires Phases(s) && Enabled(s, a) && Aside(a)
    ensures Phases(AsideStep(s, a))
  {
    AsideLeavesControl(s, a);
    PhasesOfSameControl(s, AsideStep(s, a));
  }

  /** The lock, the main goroutine, the sections, all flags and lists, and the history. */
  predicate SameControl(s: State, t: State) {
    && t.mu == s.mu && t.main == s.main && t.nonLeaderSection == s.nonLeaderSection && t.leaderSection == s.leaderSection
    && t.core == s.core.(wg := t.core.wg, trace := t.core.trace)
    && t.cut == s.cut && t.window == s.window && t.nonLeaderFirst == s.nonLeaderFirst && t.entry == s.entry
  }

  lemma AsideLeavesControl(s: State, a: Action)
    requires Enabled(s, a) && Aside(a)
    ensures SameControl(s, AsideStep(s, a))
  {
    match a
    case ServeMetrics => ServeLeavesControl(s, false);
    case ServeProbes => ServeLeavesControl(s, true);
    case RunnableEnds(i) => DoneLeavesControl(s, i);
    case DrainReceives(i) => DoneLeavesControl(s, i);
    case _ =>
  }

  lemma ServeLeavesControl(s: State, probe: bool)
    ensures SameControl(s, ServeOn(s, probe))
  {
  }

  lemma DoneLeavesControl(s: State, i: nat)
    ensures SameControl(s, RunnableDone(s, i))
  {
  }

  lemma PhasesOfSameControl(s: State, t: State)
    requires Phases(s) && SameControl(s, t)
    ensures Phases(t)
  {
  }
}
