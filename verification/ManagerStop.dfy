/** Whatever a manager has done so far, some way to go on lets it return, and return gracefully if it has the time. */
module ManagerStop {
  import opened Common
  import opened Manager
  import opened ManagerRuns

  /** What a stop relies on. */
  predicate SameEnding(s: State, t: State) {
    t.main == s.main && t.grace == s.grace && t.armed == s.armed
  }

  lemma SectionEnds(o: State, s: State) returns (t: State)
    requires Reaches(o, s) && Held(s.mu, LaunchDue)
    ensures Reaches(o, t) && SameEnding(s, t) && t.mu.Free?
  {
    if s.mu.InNonLeader? {
      NonLeaderSteps(s);
      t := Step(o, s, FinishNonLeader);
    } else {
      LeaderSteps(s);
      t := Step(o, s, FinishLeader);
    }
  }

  /** A start section can go on to its end and give the lock back. */
  lemma LockIsFreed(o: State, s: State) returns (t: State)
    requires Invariant(s) && Reaches(o, s) && !s.mu.InStop?
    ensures Reaches(o, t) && SameEnding(s, t) && t.mu.Free?
  {
    t := s;
    if !s.mu.Free? {
      if t.mu.progress.CachesDue? {
        t := LaunchCachesStep(o, t);
      }
      if t.mu.progress.Syncing? {
        var n := t.mu.progress.next;
        t := SyncRun(o, t, n);
        t := CachesReadyStep(o, t);
      }
      t := SectionEnds(o, t);
    }
  }

  /** Launch i calls Done, after its error was received if it failed. */
  lemma OneEnds(o: State, s: State, i: nat) returns (t: State)
    requires Reaches(o, s) && i in s.active && !s.main.NotStarted? && !s.main.Selecting? && !s.main.Returned?
    ensures Reaches(o, t) && t == RunnableDone(s, i)
  {
    t := RunnableDone(s, i);
    if i in s.failed {
      ReachesStep(o, s, DrainReceives(i));
      assert AsideStep(s, DrainReceives(i)) == t;
    } else {
      ReachesStep(o, s, RunnableEnds(i));
      assert AsideStep(s, RunnableEnds(i)) == t;
    }
  }

  /** During a stop all that was launched can end, failures included, as their errors are received. */
  lemma {:induction false} AllEnd(o: State, s: State) returns (t: State)
    requires GroupCounts(s) && Reaches(o, s) && !s.main.NotStarted? && !s.main.Selecting? && !s.main.Returned?
    ensures Reaches(o, t) && SameEnding(s, t) && t.mu == s.mu && t.core.trace == s.core.trace
    ensures t.active == {} && t.core.wg == 0 && GroupCounts(t)
    decreases |s.active|
  {
    if s.active == {} {
      t := s;
    } else {
      var i :| i in s.active;
      var u := OneEnds(o, s, i);
      GroupCountsDone(s, i);
      t := AllEnd(o, u);
    }
  }

  /** From the drained group on. */
  lemma DrainedEnds(o: State, s: State) returns (t: State)
    requires GroupCounts(s) && Reaches(o, s) && (s.main.Drained? || s.main.Cancelled?)
    requires s.main.Cancelled? ==> ElectionCancelled in s.core.trace
    ensures Reaches(o, t) && t.main.Returned? && t.active == {} && (s.armed ==> ElectionCancelled in t.core.trace)
  {
    var u := AllEnd(o, s);
    if u.main.Drained? && u.armed {
      ReachesStep(o, u, CancelElection);
      u := MainStep(u, CancelElection);
    }
    ReachesStep(o, u, StopReturns);
    t := MainStep(u, StopReturns);
  }

  lemma WaitEnds(o: State, s: State) returns (t: State)
    requires GroupCounts(s) && Reaches(o, s) && s.main.Waiting?
    ensures Reaches(o, t) && t.main.Returned? && t.active == {} && (s.armed ==> ElectionCancelled in t.core.trace)
  {
    var u := AllEnd(o, s);
    ReachesStep(o, u, GroupDrained);
    var v := MainStep(u, GroupDrained);
    assert v == u.(main := Drained);
    t := DrainedEnds(o, v);
  }

  lemma StopEnds(o: State, s: State) returns (t: State)
    requires Invariant(o) && Reaches(o, s) && s.main.Stopping?
    ensures Reaches(o, t) && t.main.Returned?
    ensures !s.grace.Zero? ==> t.active == {} && (s.armed ==> ElectionCancelled in t.core.trace)
  {
    if s.grace.Zero? {
      ReachesStep(o, s, SkipGrace);
      t := MainStep(s, SkipGrace);
    } else {
      InvariantFurther(o, s);
      var u := LockIsFreed(o, s);
      ReachesStep(o, u, EngageStop);
      var v := MainStep(u, EngageStop);
      assert v.main.Waiting? && v.armed == s.armed;
      InvariantFurther(o, v);
      t := WaitEnds(o, v);
    }
  }

  lemma StopBegins(o: State, s: State) returns (t: State)
    requires Reaches(o, s) && s.main.Selecting?
    ensures Reaches(o, t) && t.main.Stopping? && t.grace == s.grace && t.armed == s.armed
  {
    ReachesStep(o, s, StopRequested);
    t := MainStep(s, StopRequested);
  }

  lemma ManagerStarts(o: State, s: State) returns (t: State)
    requires Invariant(s) && Reaches(o, s) && s.main.NotStarted?
    ensures Reaches(o, t) && t.main.Selecting? && t.grace == s.grace && t.armed == s.armed
  {
    ReachesStep(o, s, Start(CLUSTER));
    t := StartWith(s, CLUSTER);
  }

  /**
   From every state of every run the manager can be brought to return. Unless its grace period is zero, it can
   return with all that was launched ended and leader election, if there is one, cancelled.
   */
  lemma CanAlwaysReturn(s: State) returns (t: State)
    requires Reachable(s)
    ensures Reaches(s, t) && t.main.Returned?
    ensures !s.main.Returned? && !s.grace.Zero? ==> t.active == {} && (s.armed ==> ElectionCancelled in t.core.trace)
  {
    CancelIsNoted(s);
    InvariantOfReachable(s);
    ReachesItself(s);
    t := s;
    if t.main.NotStarted? {
      t := ManagerStarts(s, t);
    }
    if t.main.Selecting? {
      t := StopBegins(s, t);
    }
    if t.main.Stopping? {
      t := StopEnds(s, t);
    } else if t.main.Waiting? {
      t := WaitEnds(s, t);
    } else if !t.main.Returned? {
      t := DrainedEnds(s, t);
    }
  }

  lemma CancelIsNoted(s: State)
    requires Reachable(s)
    ensures s.main.Cancelled? ==> ElectionCancelled in s.core.trace
  {
    var grace, elects :| Reaches(Init(grace, elects), s);
    var actions :| Exec(Init(grace, elects), actions) == Some(s);
    GraceOfRun(grace, elects, actions, s);
  }

  // ----- Errors of runnables -----

  /**
   A launch that failed stays until its error is received: by Start, which then stops, or by the stop procedure,
   while it goes on. Nothing else ends it.
   */
  lemma ErrorsAreReceived(s: State, a: Action, i: nat)
    requires Enabled(s, a) && i in s.failed && (i !in After(s, a).failed || (i in s.active && i !in After(s, a).active))
    ensures || (a == StartReceives(i) && s.main.Selecting? && After(s, a).main.Stopping?)
            || (a == DrainReceives(i) && (s.main.Stopping? || s.main.Waiting? || s.main.Drained? || s.main.Cancelled?))
  {
    if InSection(a) {
      SectionKeepsLaunches(s, a);
    } else if InMain(a) {
      MainKeepsLaunches(s, a);
    } else if Aside(a) {
      AsideKeepsLaunches(s, a);
    }
  }

  lemma SectionKeepsLaunches(s: State, a: Action)
    requires Enabled(s, a) && InSection(a)
    ensures s.active <= SectionStep(s, a).active && SectionStep(s, a).failed == s.failed
  {
    match a
    case EnterNonLeader =>
    case EnterLeader =>
    case LaunchCaches =>
    case SyncReturns =>
    case CachesReady =>
    case FinishNonLeader =>
    case FinishLeader =>
  }

  lemma MainKeepsLaunches(s: State, a: Action)
    requires Enabled(s, a) && InMain(a)
    ensures if a.StartReceives? then
              var t := MainStep(s, a);
              t.active == s.active - {a.i} && t.failed == s.failed - {a.i} && s.main.Selecting? && t.main.Stopping?
            else MainStep(s, a).active == s.active && MainStep(s, a).failed == s.failed
  {
    match a
    case StartReceives(_) =>
    case _ =>
  }

  lemma AsideKeepsLaunches(s: State, a: Action)
    requires Enabled(s, a) && Aside(a)
    ensures forall i :: i in s.failed && a != DrainReceives(i) ==>
              i in AsideStep(s, a).failed && (i in s.active ==> i in AsideStep(s, a).active)
  {
    match a
    case ServeMetrics =>
    case ServeProbes =>
    case RunnableEnds(_) =>
    case DrainReceives(_) =>
    case _ =>
  }

  /** Whatever runs can fail, and its failure then stops the manager. */
  lemma FailureStops(s: State, i: nat) returns (t: State)
    requires Reachable(s) && s.main.Selecting? && i in s.active
    ensures Reaches(s, t) && t.main.Stopping? && t.active == s.active - {i} && t.core.trace == s.core.trace
  {
    ReachesItself(s);
    var u := s;
    if i !in s.failed {
      ReachesStep(s, s, RunnableFails(i));
      u := AsideStep(s, RunnableFails(i));
      assert u == s.(failed := s.failed + {i});
    }
    ReachesStep(s, u, StartReceives(i));
    t := MainStep(u, StartReceives(i));
  }

  // ----- Before the start, and without time to stop -----

  /** Nothing is launched, no section runs and nobody stops before Start. */
  ghost predicate Dormant(s: State) {
    s.main.NotStarted? ==>
      && s.core.trace == [] && s.active == {} && s.mu.Free? && !s.core.started && !s.core.startedLeader
      && s.nonLeaderSection.Pending? && s.leaderSection.Pending? && !s.armed
  }

  lemma DormantKept(s: State, a: Action)
    requires Dormant(s) && Enabled(s, a)
    ensures Dormant(After(s, a))
  {
    if a.Add? {
      if s.main.NotStarted? {
        assert !StartsAtOnce(s.core, a.r);
      }
    } else if InSection(a) {
      SectionLeavesMain(s, a);
      StartedBySection(s, a);
    } else if InMain(a) {
      StoppedByMain(s, a);
    } else if Aside(a) {
      StartedByAside(s, a);
    }
  }

  lemma StartedBySection(s: State, a: Action)
    requires Dormant(s) && Enabled(s, a) && InSection(a)
    ensures !s.main.NotStarted?
  {
    match a
    case EnterNonLeader =>
    case EnterLeader =>
    case LaunchCaches =>
    case SyncReturns =>
    case CachesReady =>
    case FinishNonLeader =>
    case FinishLeader =>
  }

  lemma StoppedByMain(s: State, a: Action)
    requires Enabled(s, a) && InMain(a)
    ensures !MainStep(s, a).main.NotStarted?
  {
    match a
    case StartReceives(_) =>
    case _ =>
  }

  lemma StartedByAside(s: State, a: Action)
    requires Dormant(s) && Enabled(s, a) && Aside(a)
    ensures Dormant(AsideStep(s, a))
  {
    match a
    case ServeMetrics =>
    case ServeProbes =>
    case RunnableEnds(_) =>
    case DrainReceives(_) =>
    case _ =>
  }

  lemma {:induction false} DormantRun(s: State, actions: seq<Action>, t: State)
    requires Dormant(s) && Exec(s, actions) == Some(t)
    ensures Dormant(t)
  {
    if actions != [] {
      var init := actions[..|actions| - 1];
      DormantRun(s, init, Exec(s, init).value);
      DormantKept(Exec(s, init).value, actions[|actions| - 1]);
    }
  }

  /** In every reachable state before Start nothing was launched, served or elected. */
  lemma NothingBeforeStart(s: State)
    requires Reachable(s) && s.main.NotStarted?
    ensures s.core.trace == [] && s.active == {} && !s.core.started && !s.core.startedLeader && !s.armed
  {
    var grace, elects :| Reaches(Init(grace, elects), s);
    var actions :| Exec(Init(grace, elects), actions) == Some(s);
    DormantRun(Init(grace, elects), actions, s);
  }

  /** The stop procedure takes the lock and closes registration only with a grace period. */
  lemma EngagesOnlyWithTime(s: State, a: Action)
    requires Enabled(s, a) && !s.core.stopEngaged && After(s, a).core.stopEngaged
    ensures a.EngageStop? && s.main.Stopping? && !s.grace.Zero? && s.mu.Free?
  {
    if InSection(a) {
      SectionLeavesStop(s, a);
    } else if Aside(a) {
      AsideLeavesStop(s, a);
    } else if InMain(a) {
      MainLeavesStop(s, a);
    }
  }

  lemma SectionLeavesStop(s: State, a: Action)
    requires Enabled(s, a) && InSection(a)
    ensures SectionStep(s, a).core.stopEngaged == s.core.stopEngaged
  {
    match a
    case EnterNonLeader =>
    case EnterLeader =>
    case LaunchCaches =>
    case SyncReturns =>
    case CachesReady =>
    case FinishNonLeader =>
    case FinishLeader =>
  }

  lemma AsideLeavesStop(s: State, a: Action)
    requires Enabled(s, a) && Aside(a)
    ensures AsideStep(s, a).core.stopEngaged == s.core.stopEngaged
  {
    match a
    case ServeMetrics =>
    case ServeProbes =>
    case RunnableEnds(_) =>
    case DrainReceives(_) =>
    case _ =>
  }

  lemma MainLeavesStop(s: State, a: Action)
    requires Enabled(s, a) && InMain(a) && MainStep(s, a).core.stopEngaged != s.core.stopEngaged
    ensures a.EngageStop?
  {
    match a
    case StartReceives(_) =>
    case _ =>
  }

  /** Without a grace period registration is never refused: the stop procedure never engages, in any run. */
  lemma {:induction false} NoTimeNoEngagement(elects: bool, actions: seq<Action>, s: State)
    requires Exec(Init(Zero, elects), actions) == Some(s)
    ensures !s.core.stopEngaged
  {
    if actions != [] {
      var init, a := actions[..|actions| - 1], actions[|actions| - 1];
      var u := Exec(Init(Zero, elects), init).value;
      NoTimeNoEngagement(elects, init, u);
      GraceOfRun(Zero, elects, init, u);
      if s.core.stopEngaged {
        EngagesOnlyWithTime(u, a);
      }
    }
  }

  /** An election that has begun can be lost at any time, won or not, and the manager then stops without waiting. */
  lemma LossStopsAtOnce(s: State) returns (t: State)
    requires s.armed && s.main.Selecting?
    ensures Reaches(s, t) && t.main.Returned? && t.core == s.core && t.won == s.won
  {
    ReachesItself(s);
    ReachesStep(s, s, LoseElection);
    var u := AsideStep(s, LoseElection);
    assert u == s.(grace := Zero);
    ReachesStep(s, u, StopRequested);
    var v := MainStep(u, StopRequested);
    assert v == u.(main := Stopping(false));
    ReachesStep(s, v, SkipGrace);
    t := MainStep(v, SkipGrace);
  }

  /** Once started, the servers can be launched: probes while nobody holds the lock, metrics at any time. */
  lemma ServersCanLaunch(s: State, probe: bool) returns (t: State)
    requires !s.main.NotStarted? && (probe ==> s.mu.Free?)
    ensures Reaches(s, t) && t == ServeOn(s, probe) && t.core.trace == s.core.trace + [ServerLaunch(probe)]
  {
    ReachesItself(s);
    var a := if probe then ServeProbes else ServeMetrics;
    ReachesStep(s, s, a);
    t := AsideStep(s, a);
  }
}
