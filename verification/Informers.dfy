/**
 The map of informers: created on first use behind a double check, run once the map
 is started, and handed out only when synced. Each lock section is one action; the
 calls of any number of goroutines interleave with one start.
 */
module Informers {
  import opened Common

  type Gvk = string
  type Informer = nat   // informers in order of creation

  datatype Core = Core(
    byGvk: map<Gvk, Informer>,
    started: bool,
    runs: seq<nat>)     // how often each informer created so far was run

  function RunOne(runs: seq<nat>, i: Informer): seq<nat>
    requires i < |runs|
  {
    runs[i := runs[i] + 1]
  }

  /** One more run of everything listed. */
  function RunListed(runs: seq<nat>, listed: seq<Informer>): (r: seq<nat>)
    requires forall i :: 0 <= i < |listed| ==> listed[i] < |runs|
    ensures |r| == |runs|
  {
    if listed == [] then runs else RunOne(RunListed(runs, listed[..|listed| - 1]), listed[|listed| - 1])
  }

  ghost predicate WellFormed(c: Core) {
    && (forall g :: g in c.byGvk ==> c.byGvk[g] < |c.runs|)
    && (forall g, h :: g in c.byGvk && h in c.byGvk && c.byGvk[g] == c.byGvk[h] ==> g == h)
    && (forall i :: 0 <= i < |c.runs| ==> c.runs[i] == if c.started then 1 else 0)
    && (forall i :: 0 <= i < |c.runs| ==> i in c.byGvk.Values)
  }

  /** A start runs every informer of the map once. */
  function StartAll(c: Core): Core {
    c.(started := true, runs := seq(|c.runs|, i requires 0 <= i < |c.runs| => c.runs[i] + 1))
  }

  /** The entry of g, created (and run, if the map is started) when there is none. */
  function Ensure(c: Core, g: Gvk): Core {
    if g in c.byGvk then c
    else Core(c.byGvk[g := |c.runs|], c.started, c.runs + [if c.started then 1 else 0])
  }

  lemma {:induction false} RunListedAt(runs: seq<nat>, listed: seq<Informer>, i: Informer)
    requires forall k :: 0 <= k < |listed| ==> listed[k] < |runs|
    requires forall k, l :: 0 <= k < l < |listed| ==> listed[k] != listed[l]
    requires i < |runs|
    ensures RunListed(runs, listed)[i] == runs[i] + if i in listed then 1 else 0
  {
    if listed != [] {
      var init := listed[..|listed| - 1];
      RunListedAt(runs, init, i);
      assert listed == init + [listed[|listed| - 1]];
    }
  }

  /** Running all entries, in any order, is a start. */
  lemma ListedAreRun(c: Core, listed: seq<Informer>)
    requires WellFormed(c) && !c.started
    requires forall i :: i in listed <==> i in c.byGvk.Values
    requires forall k, l :: 0 <= k < l < |listed| ==> listed[k] != listed[l]
    ensures forall k :: 0 <= k < |listed| ==> listed[k] < |c.runs|
    ensures StartAll(c) == c.(started := true, runs := RunListed(c.runs, listed)) && WellFormed(StartAll(c))
  {
    forall k | 0 <= k < |listed| ensures listed[k] < |c.runs| { assert listed[k] in c.byGvk.Values; }
    forall i | 0 <= i < |c.runs| ensures RunListed(c.runs, listed)[i] == c.runs[i] + 1 {
      RunListedAt(c.runs, listed, i);
    }
  }

  class SpecificInformersMap {
    var byGvk: map<Gvk, Informer>
    var started: bool
    var runs: seq<nat>

    ghost function State(): Core
      reads this
    {
      Core(byGvk, started, runs)
    }

    constructor ()
      ensures State() == Core(map[], false, []) && WellFormed(State())
    {
      byGvk, started, runs := map[], false, [];
    }

    /** `listed` is the order in which the loop meets the entries of the map. */
    method Start(listed: seq<Informer>)
      requires WellFormed(State()) && !started
      requires forall i :: i in listed <==> i in byGvk.Values
      requires forall k, l :: 0 <= k < l < |listed| ==> listed[k] != listed[l]
      modifies this
      ensures State() == StartAll(old(State())) && WellFormed(State())
    {
      ghost var was := State();
      ListedAreRun(was, listed);
      for k := 0 to |listed|
        invariant byGvk == was.byGvk && started == was.started
        invariant runs == RunListed(was.runs, listed[..k])
      {
        assert listed[..k + 1][..k] == listed[..k];
        runs := runs[listed[k] := runs[listed[k]] + 1];
      }
      started := true;
      assert listed[..|listed|] == listed;
    }

    /** Under the write lock; None when the informer could not be created. */
    method AddInformerToMap(g: Gvk, creatable: bool) returns (entry: Option<Informer>, isStarted: bool)
      requires WellFormed(State())
      modifies this
      ensures WellFormed(State())
      ensures State() == if creatable then Ensure(old(State()), g) else old(State())
      ensures entry == (if g in byGvk then Some(byGvk[g]) else None)
      ensures isStarted == (started && entry.Some?)
    {
      if g in byGvk {
        return Some(byGvk[g]), started;
      }
      if !creatable {
        return None, false;
      }
      EnsureWellFormed(State(), g);
      byGvk := byGvk[g := |runs|];
      runs := runs + [0];
      if started {
        runs := runs[byGvk[g] := runs[byGvk[g]] + 1];
      }
      return Some(byGvk[g]), started;
    }
  }

  lemma EnsureWellFormed(c: Core, g: Gvk)
    requires WellFormed(c)
    ensures WellFormed(Ensure(c, g))
  {
    var d := Ensure(c, g);
    if g !in c.byGvk {
      assert d.byGvk[g] == |c.runs|;
      forall i | 0 <= i < |d.runs| ensures i in d.byGvk.Values {
        if i < |c.runs| {
          assert i in c.byGvk.Values;
          var h :| h in c.byGvk && c.byGvk[h] == i;
          assert h in d.byGvk && d.byGvk[h] == i;
        }
      }
    }
  }

  // ----- Interleaved callers -----

  /** Where a call of Get stands. */
  datatype Caller =
    | Missed(g: Gvk)                                  // the entry was not there under the read lock
    | Has(g: Gvk, entry: Informer, started: bool)

  datatype Answer = Answer(g: Gvk, started: bool, entry: Informer)

  datatype System = System(core: Core, synced: set<Informer>, callers: map<nat, Caller>, answers: seq<Answer>)

  datatype Action =
    | Look(id: nat, g: Gvk)
    | Insert(id: nat, creatable: bool)
    | Return(id: nat)
    | TimeOut(id: nat)
    | Start
    | Sync(i: Informer)

  predicate Enabled(s: System, a: Action) {
    match a
    case Look(id, _) => id !in s.callers
    case Insert(id, _) => id in s.callers && s.callers[id].Missed?
    case Return(id) => id in s.callers && s.callers[id].Has? && (s.callers[id].started ==> s.callers[id].entry in s.synced)
    case TimeOut(id) => id in s.callers && s.callers[id].Has? && s.callers[id].started
    case Start => !s.core.started
    case Sync(i) => i < |s.core.runs| && s.core.runs[i] > 0   // only a running informer syncs
  }

  function After(s: System, a: Action): System
    requires Enabled(s, a)
  {
    match a
    case Look(id, g) =>
      s.(callers := s.callers[id := if g in s.core.byGvk then Has(g, s.core.byGvk[g], s.core.started) else Missed(g)])
    case Insert(id, creatable) =>
      var g := s.callers[id].g;
      if g !in s.core.byGvk && !creatable then s.(callers := s.callers - {id})
      else
        var c := Ensure(s.core, g);
        s.(core := c, callers := s.callers[id := Has(g, c.byGvk[g], c.started)])
    case Return(id) =>
      var h := s.callers[id];
      s.(callers := s.callers - {id}, answers := s.answers + [Answer(h.g, h.started, h.entry)])
    case TimeOut(id) => s.(callers := s.callers - {id})
    case Start => s.(core := StartAll(s.core))
    case Sync(i) => s.(synced := s.synced + {i})
  }

  function Exec(s: System, actions: seq<Action>): Option<System> {
    if actions == [] then Some(s)
    else
      match Exec(s, actions[..|actions| - 1])
      case None => None
      case Some(t) =>
        var a := actions[|actions| - 1];
        if Enabled(t, a) then Some(After(t, a)) else None
  }

  const INITIAL := System(Core(map[], false, []), {}, map[], [])

  ghost predicate Points(c: Core, g: Gvk, i: Informer) {
    g in c.byGvk && c.byGvk[g] == i
  }

  ghost predicate Invariant(s: System) {
    && WellFormed(s.core)
    && (forall id :: id in s.callers && s.callers[id].Has? ==> Points(s.core, s.callers[id].g, s.callers[id].entry))
    && (forall k :: 0 <= k < |s.answers| ==>
          Points(s.core, s.answers[k].g, s.answers[k].entry) && (s.answers[k].started ==> s.answers[k].entry in s.synced))
  }

  /** Entries are never removed or replaced. */
  lemma EntriesStay(s: System, a: Action, g: Gvk, i: Informer)
    requires Enabled(s, a) && Points(s.core, g, i)
    ensures Points(After(s, a).core, g, i)
  {
  }

  lemma WellFormedKept(s: System, a: Action)
    requires WellFormed(s.core) && Enabled(s, a)
    ensures WellFormed(After(s, a).core)
  {
    match a
    case Insert(id, _) => EnsureWellFormed(s.core, s.callers[id].g);
    case Start => assert StartAll(s.core).byGvk.Values == s.core.byGvk.Values;
    case _ =>
  }

  lemma InvariantKept(s: System, a: Action)
    requires Invariant(s) && Enabled(s, a)
    ensures Invariant(After(s, a))
  {
    var t := After(s, a);
    WellFormedKept(s, a);
    forall id | id in t.callers && t.callers[id].Has?
      ensures Points(t.core, t.callers[id].g, t.callers[id].entry)
    {
      if id in s.callers && t.callers[id] == s.callers[id] {
        EntriesStay(s, a, s.callers[id].g, s.callers[id].entry);
      }
    }
    forall k | 0 <= k < |t.answers|
      ensures Points(t.core, t.answers[k].g, t.answers[k].entry)
      ensures t.answers[k].started ==> t.answers[k].entry in t.synced
    {
      if k < |s.answers| {
        EntriesStay(s, a, s.answers[k].g, s.answers[k].entry);
      }
    }
  }

  lemma {:induction false} InvariantOfRun(actions: seq<Action>)
    requires Exec(INITIAL, actions).Some?
    ensures Invariant(Exec(INITIAL, actions).value)
  {
    if actions != [] {
      InvariantOfRun(actions[..|actions| - 1]);
      InvariantKept(Exec(INITIAL, actions[..|actions| - 1]).value, actions[|actions| - 1]);
    }
  }

  /** The entry of a kind is the same from any moment of a run on. */
  lemma {:induction false} EntriesNeverReplaced(s: System, actions: seq<Action>, t: System, g: Gvk)
    requires Exec(s, actions) == Some(t) && g in s.core.byGvk
    ensures Points(t.core, g, s.core.byGvk[g])
  {
    if actions != [] {
      var init := actions[..|actions| - 1];
      EntriesNeverReplaced(s, init, Exec(s, init).value, g);
      EntriesStay(Exec(s, init).value, actions[|actions| - 1], g, s.core.byGvk[g]);
    }
  }

  /** Every informer ever created sits in the map under one kind, and was run once if started, else never. */
  lemma OneInformerPerKindRunOnce(actions: seq<Action>, s: System, i: Informer)
    requires Exec(INITIAL, actions) == Some(s) && i < |s.core.runs|
    ensures exists g :: Points(s.core, g, i) && forall h :: Points(s.core, h, i) ==> h == g
    ensures s.core.runs[i] == if s.core.started then 1 else 0
  {
    InvariantOfRun(actions);
    assert i in s.core.byGvk.Values;
    var g :| g in s.core.byGvk && s.core.byGvk[g] == i;
    assert Points(s.core, g, i);
  }

  /** All callers that ask for a kind get the same entry, and a started answer is synced. */
  lemma AnswersAgree(actions: seq<Action>, s: System, k: nat, l: nat)
    requires Exec(INITIAL, actions) == Some(s) && k < |s.answers| && l < |s.answers|
    requires s.answers[k].g == s.answers[l].g
    ensures s.answers[k].entry == s.answers[l].entry
    ensures s.answers[k].started ==> s.answers[k].entry in s.synced
    ensures Points(s.core, s.answers[k].g, s.answers[k].entry)
  {
    InvariantOfRun(actions);
  }

  /** After the start, whoever holds an entry knows that the map is started. */
  ghost predicate Aware(s: System, from: nat) {
    && s.core.started && from <= |s.answers|
    && (forall id :: id in s.callers && s.callers[id].Has? ==> s.callers[id].started)
    && (forall k :: from <= k < |s.answers| ==> s.answers[k].started && s.answers[k].entry in s.synced)
  }

  lemma AwareKept(s: System, a: Action, from: nat)
    requires Aware(s, from) && Enabled(s, a)
    ensures Aware(After(s, a), from)
  {
  }

  /** Every Get that begins after the start and returns an informer says so and returns a synced one. */
  lemma AnswersAfterStartAreSynced(s: System, actions: seq<Action>, t: System, k: nat)
    requires s.core.started && s.callers == map[] && Exec(s, actions) == Some(t) && |s.answers| <= k < |t.answers|
    ensures t.answers[k].started && t.answers[k].entry in t.synced
  {
    AwareRun(s, actions);
  }

  lemma {:induction false} AwareRun(s: System, actions: seq<Action>)
    requires s.core.started && s.callers == map[] && Exec(s, actions).Some?
    ensures Aware(Exec(s, actions).value, |s.answers|)
  {
    if actions != [] {
      AwareRun(s, actions[..|actions| - 1]);
      AwareKept(Exec(s, actions[..|actions| - 1]).value, actions[|actions| - 1], |s.answers|);
    }
  }

  /** And as long as the map is not started, no Get says that it is. */
  lemma {:induction false} NoAnswerStartedBefore(actions: seq<Action>, s: System)
    requires Exec(INITIAL, actions) == Some(s) && !s.core.started
    ensures forall k :: 0 <= k < |s.answers| ==> !s.answers[k].started
    ensures forall id :: id in s.callers && s.callers[id].Has? ==> !s.callers[id].started
  {
    if actions != [] {
      NoAnswerStartedBefore(actions[..|actions| - 1], Exec(INITIAL, actions[..|actions| - 1]).value);
    }
  }

  ghost predicate Reaches(s: System, t: System) {
    exists actions :: Exec(s, actions) == Some(t)
  }

  lemma Step(o: System, s: System, a: Action) returns (t: System)
    requires Reaches(o, s) && Enabled(s, a)
    ensures t == After(s, a) && Reaches(o, t)
  {
    t := After(s, a);
    var actions :| Exec(o, actions) == Some(s);
    assert (actions + [a])[..|actions|] == actions;
    assert Exec(o, actions + [a]) == Some(t);
  }

  /** A call that holds its entry can return it, once the entry synced if the map was started. */
  lemma HolderReturns(o: System, s: System, id: nat) returns (t: System)
    requires Reaches(o, s) && Invariant(s) && id in s.callers && s.callers[id].Has?
    requires s.callers[id].started ==> s.core.started
    ensures Reaches(o, t) && t.core == s.core && t.callers == s.callers - {id}
    ensures var h := s.callers[id]; t.answers == s.answers + [Answer(h.g, h.started, h.entry)]
  {
    t := s;
    if s.callers[id].started && s.callers[id].entry !in s.synced {
      assert Points(s.core, s.callers[id].g, s.callers[id].entry);
      t := Step(o, s, Sync(s.callers[id].entry));
    }
    t := Step(o, t, Return(id));
  }

  /** No call is ever stuck: it can go on to return the entry of its kind. */
  lemma EveryCallCanReturn(actions: seq<Action>, s: System, id: nat) returns (t: System)
    requires Exec(INITIAL, actions) == Some(s) && id in s.callers
    ensures Reaches(s, t) && id !in t.callers && |t.answers| == |s.answers| + 1
    ensures var a, g := t.answers[|s.answers|], s.callers[id].g;
            a.g == g && Points(t.core, g, a.entry) && (a.started ==> s.core.started)
  {
    InvariantOfRun(actions);
    if !s.core.started {
      NoAnswerStartedBefore(actions, s);
    }
    assert Exec(s, []) == Some(s);
    t := s;
    if s.callers[id].Missed? {
      InvariantKept(s, Insert(id, true));
      t := Step(s, s, Insert(id, true));
    }
    t := HolderReturns(s, t, id);
  }

  /** Once a call holds its entry, no step changes what it holds, until it ends. */
  lemma HoldingIsSteady(s: System, a: Action, id: nat)
    requires Enabled(s, a) && id in s.callers && s.callers[id].Has? && id in After(s, a).callers
    ensures After(s, a).callers[id] == s.callers[id]
  {
  }

  /** A map is started by Start, for good; creating an informer is all that else changes it. */
  lemma MapChanges(s: System, a: Action)
    requires Enabled(s, a)
    ensures After(s, a).core.started <==> s.core.started || a.Start?
    ensures After(s, a).core.byGvk.Keys ==
            s.core.byGvk.Keys + if a.Insert? && a.creatable then {s.callers[a.id].g} else {}
  {
  }

  /**
   A call ends by returning what it holds, or because its informer could not be created, or because it gave up
   waiting, which it does only if it saw the map started. The last two answer nothing and leave the map alone.
   */
  lemma CallsEnd(s: System, a: Action, id: nat)
    requires Enabled(s, a) && id in s.callers
    ensures id !in After(s, a).callers <==>
              || a == Return(id) || a == TimeOut(id)
              || (a == Insert(id, false) && s.callers[id].g !in s.core.byGvk)
    ensures id !in After(s, a).callers ==>
            var c, t := s.callers[id], After(s, a);
            && t.core == s.core
            && (|t.answers| > |s.answers| ==> c.Has? && t.answers == s.answers + [Answer(c.g, c.started, c.entry)])
            && (|t.answers| <= |s.answers| ==>
                  && t.answers == s.answers
                  && if c.Missed? then c.g !in s.core.byGvk else c.started)
  {
  }

  /** A call begins by holding the entry of its kind if there is one, and goes on to create it only if there is none. */
  lemma CallsBegin(s: System, a: Action, id: nat)
    requires Enabled(s, a) && id !in s.callers
    ensures id in After(s, a).callers <==> a.Look? && a.id == id
    ensures id in After(s, a).callers ==>
            var c, t := After(s, a).callers[id], After(s, a);
            && c.g == a.g && t.core == s.core && t.answers == s.answers
            && (c.Has? <==> c.g in s.core.byGvk)
            && (c.Has? ==> Points(s.core, c.g, c.entry) && c.started == s.core.started)
  {
  }

  /** Only running informers are synced. */
  lemma {:induction false} SyncedAreRunning(actions: seq<Action>, s: System, i: Informer)
    requires Exec(INITIAL, actions) == Some(s) && i in s.synced
    ensures i < |s.core.runs| && s.core.runs[i] > 0
  {
    if actions != [] {
      var u, a := Exec(INITIAL, actions[..|actions| - 1]).value, actions[|actions| - 1];
      if i in u.synced {
        SyncedAreRunning(actions[..|actions| - 1], u, i);
      }
    }
  }
}
