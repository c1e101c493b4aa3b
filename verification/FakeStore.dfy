/**
 The object store behind the fake client: resource versions, optimistic updates and
 two-phase deletion. An object is a value; the store maps namespace and name to it.
 */
module FakeStore {
  import opened Common
  import opened Decimal

  datatype Key = Key(ns: string, name: string)

  datatype Object = Object(
    key: Key,
    rv: string,
    finalizers: seq<string>,
    deletion: Option<nat>,        // the deletion timestamp
    labels: map<string, string>,
    body: string)

  datatype Kind = Kind(group: string, name: string)

  type Store = map<Key, Object>

  datatype Error = NotFound | AlreadyExists | Invalid | BadRequest | Conflict | BadVersion

  /** What a call leaves in the store and in the caller's object. */
  datatype Outcome = Outcome(store: Store, obj: Object, error: Option<Error>)

  predicate AllowsUnconditionalUpdate(k: Kind) {
    match k.group
    case "apps" => k.name in {"ControllerRevision", "DaemonSet", "Deployment", "ReplicaSet", "StatefulSet"}
    case "autoscaling" => k.name == "HorizontalPodAutoscaler"
    case "batch" => k.name in {"CronJob", "Job"}
    case "certificates" => k.name == "Certificates"
    case "flowcontrol" => k.name in {"FlowSchema", "PriorityLevelConfiguration"}
    case "networking" => k.name in {"Ingress", "IngressClass", "NetworkPolicy"}
    case "policy" => k.name == "PodSecurityPolicy"
    case "rbac" => k.name in {"ClusterRole", "ClusterRoleBinding", "Role", "RoleBinding"}
    case "scheduling" => k.name == "PriorityClass"
    case "settings" => k.name == "PodPreset"
    case "storage" => k.name == "StorageClass"
    case "" => k.name in {"ConfigMap", "Endpoint", "Event", "LimitRange", "Namespace", "Node",
                          "PersistentVolume", "PersistentVolumeClaim", "Pod", "PodTemplate",
                          "ReplicationController", "ResourceQuota", "Secret", "Service",
                          "ServiceAccount", "EndpointSlice"}
    case _ => false
  }

  predicate AllowsCreateOnUpdate(k: Kind) {
    match k.group
    case "coordination" => k.name == "Lease"
    case "node" => k.name == "RuntimeClass"
    case "rbac" => k.name in {"ClusterRole", "ClusterRoleBinding", "Role", "RoleBinding"}
    case "" => k.name in {"Endpoint", "Event", "LimitRange", "Service"}
    case _ => false
  }

  /** What a kind lets an update do. */
  datatype Policy = Policy(unconditional: bool, createOnUpdate: bool)

  function PolicyOf(k: Kind): Policy {
    Policy(AllowsUnconditionalUpdate(k), AllowsCreateOnUpdate(k))
  }

  /** The number a stored version stands for; the empty version counts as zero. */
  function VersionNumber(rv: string): Option<nat> {
    ParseUpTo(if rv == "" then "0" else rv, UINT64_MAX)
  }

  /** The wrap-around of the source's 64-bit counter. */
  function Increment(n: nat): nat {
    if n < UINT64_MAX then n + 1 else 0
  }

  function NextVersion(n: nat): string {
    Print(Increment(n))
  }

  function Create(s: Store, o: Object): Outcome {
    if o.key.name == "" then Outcome(s, o, Some(Invalid))
    else if o.rv != "" then Outcome(s, o, Some(BadRequest))
    else if o.key in s then Outcome(s, o, Some(AlreadyExists))
    else Outcome(s[o.key := o.(rv := "1")], o.(rv := "1"), None)
  }

  /** The version an update claims to be based on. */
  function ClaimedVersion(k: Policy, o: Object, current: Object): string {
    if o.rv == "" && k.unconditional then current.rv else o.rv
  }

  /** Replaces the stored object, or removes it once it is being deleted and nothing holds it. */
  function Replace(s: Store, o: Object): Store {
    if o.deletion.Some? && o.finalizers == [] then s - {o.key} else s[o.key := o]
  }

  function Update(s: Store, k: Policy, o: Object): Outcome {
    if o.key.name == "" then Outcome(s, o, Some(Invalid))
    else if o.key !in s then
      if k.createOnUpdate then Create(s, o) else Outcome(s, o, Some(NotFound))
    else
      var current := s[o.key];
      var claimed := o.(rv := ClaimedVersion(k, o, current));
      if claimed.rv != current.rv then Outcome(s, claimed, Some(Conflict))
      else
        match VersionNumber(current.rv)
        case None => Outcome(s, claimed, Some(BadVersion))
        case Some(n) =>
          var stored := o.(rv := NextVersion(n));
          Outcome(Replace(s, stored), stored, None)
  }

  function Remove(s: Store, key: Key): (Store, Option<Error>) {
    if key in s then (s - {key}, None) else (s, Some(NotFound))
  }

  function Delete(s: Store, k: Policy, key: Key, now: nat): (Store, Option<Error>) {
    if key in s && s[key].finalizers != [] then
      var r := Update(s, k, s[key].(deletion := Some(now)));
      (r.store, r.error)
    else Remove(s, key)
  }

  /** Every object sits under its own key. */
  ghost predicate Keyed(s: Store) {
    forall key :: key in s ==> s[key].key == key
  }

  /** An object as it is loaded: with the version 999 unless it has one. */
  function Loaded(o: Object): Object {
    if o.rv == "" then o.(rv := "999") else o
  }

  /** Loading objects in turn; None when a key is met again, which the tracker refuses. */
  function LoadAll(os: seq<Object>): Option<Store> {
    if os == [] then Some(map[])
    else
      var o := os[|os| - 1];
      match LoadAll(os[..|os| - 1])
      case None => None
      case Some(s) => if o.key in s then None else Some(s[o.key := Loaded(o)])
  }

  ghost predicate DistinctKeys(os: seq<Object>) {
    forall i, j :: 0 <= i < j < |os| ==> os[i].key != os[j].key
  }

  ghost predicate Given(os: seq<Object>, key: Key) {
    exists i :: 0 <= i < |os| && os[i].key == key
  }

  /** The store holds the given objects, versioned, and nothing else. */
  ghost predicate HoldsAll(s: Store, os: seq<Object>) {
    && (forall i :: 0 <= i < |os| ==> os[i].key in s && s[os[i].key] == Loaded(os[i]))
    && (forall key :: key in s ==> Given(os, key))
  }

  lemma OneMoreLoaded(s: Store, init: seq<Object>, o: Object)
    requires HoldsAll(s, init) && DistinctKeys(init)
    ensures o.key in s <==> !DistinctKeys(init + [o])
    ensures o.key !in s ==> HoldsAll(s[o.key := Loaded(o)], init + [o])
  {
    var os := init + [o];
    if o.key in s {
      var i :| 0 <= i < |init| && init[i].key == o.key;
      assert os[i].key == os[|init|].key;
    } else {
      forall key | key in s[o.key := Loaded(o)] ensures Given(os, key) {
        if key in s {
          var i :| 0 <= i < |init| && init[i].key == key;
          assert os[i].key == key;
        } else {
          assert os[|init|].key == key;
        }
      }
    }
  }

  lemma FewerAreDistinct(init: seq<Object>, o: Object)
    requires DistinctKeys(init + [o])
    ensures DistinctKeys(init)
  {
    assert forall i :: 0 <= i < |init| ==> (init + [o])[i] == init[i];
  }

  /** Objects load exactly if their keys are distinct. */
  lemma {:induction false} LoadsIffDistinct(os: seq<Object>)
    ensures LoadAll(os).Some? <==> DistinctKeys(os)
    ensures LoadAll(os).Some? ==> HoldsAll(LoadAll(os).value, os)
  {
    if os != [] {
      var init, o := os[..|os| - 1], os[|os| - 1];
      assert os == init + [o];
      LoadsIffDistinct(init);
      if LoadAll(init).Some? {
        OneMoreLoaded(LoadAll(init).value, init, o);
      } else if DistinctKeys(os) {
        FewerAreDistinct(init, o);
      }
    }
  }

  lemma LoadedStore(os: seq<Object>)
    requires LoadAll(os).Some?
    ensures Keyed(LoadAll(os).value) && forall key :: key in LoadAll(os).value ==> LoadAll(os).value[key].rv != ""
    ensures forall i :: 0 <= i < |os| ==>
              && os[i].key in LoadAll(os).value
              && LoadAll(os).value[os[i].key] == if os[i].rv == "" then os[i].(rv := "999") else os[i]
  {
    LoadsIffDistinct(os);
    var s := LoadAll(os).value;
    forall key | key in s ensures s[key].key == key && s[key].rv != "" {
      assert Given(os, key);
      var i :| 0 <= i < |os| && os[i].key == key;
      assert s[os[i].key] == Loaded(os[i]);
    }
  }

  // ----- The client as an object -----

  class FakeClient {
    const policy: Policy
    var objects: Store

    constructor (k: Kind)
      ensures policy == PolicyOf(k) && objects == map[]
    {
      policy, objects := PolicyOf(k), map[];
    }

    /** Loading gives an object the version 999 unless it has one, and is refused for a key that is there. */
    method Add(o: Object) returns (out: Object, error: Option<Error>)
      modifies this`objects
      ensures out == Loaded(o)
      ensures out.rv == (if o.rv == "" then "999" else o.rv) && out.(rv := o.rv) == o
      ensures error == if o.key in old(objects) then Some(AlreadyExists) else None
      ensures objects == if error.None? then old(objects)[o.key := out] else old(objects)
    {
      out := o;
      if out.rv == "" {
        out := out.(rv := "999");
      }
      if out.key in objects {
        return out, Some(AlreadyExists);
      }
      objects := objects[out.key := out];
      return out, None;
    }

    method CreateObject(o: Object) returns (out: Object, error: Option<Error>)
      modifies this`objects
      ensures Outcome(objects, out, error) == Create(old(objects), o)
    {
      out := o;
      if o.key.name == "" {
        return out, Some(Invalid);
      }
      if o.rv != "" {
        return out, Some(BadRequest);
      }
      out := out.(rv := "1");
      if o.key in objects {
        out := out.(rv := "");
        return out, Some(AlreadyExists);
      }
      objects := objects[o.key := out];
      return out, None;
    }

    method UpdateObject(o: Object) returns (out: Object, error: Option<Error>)
      modifies this`objects
      ensures Outcome(objects, out, error) == Update(old(objects), policy, o)
    {
      out := o;
      if o.key.name == "" {
        return out, Some(Invalid);
      }
      if o.key !in objects {
        if policy.createOnUpdate {
          out, error := CreateObject(o);
          return;
        }
        return out, Some(NotFound);
      }
      var current := objects[o.key];
      if out.rv == "" && policy.unconditional {
        out := out.(rv := current.rv);
      }
      if out.rv != current.rv {
        return out, Some(Conflict);
      }
      var version := current.rv;
      if version == "" {
        version := "0";
      }
      var n := ParseUpTo(version, UINT64_MAX);
      if n.None? {
        return out, Some(BadVersion);
      }
      out := out.(rv := Print(Increment(n.value)));
      if out.deletion.Some? && |out.finalizers| == 0 {
        objects := objects - {out.key};
      } else {
        objects := objects[out.key := out];
      }
      return out, None;
    }

    method DeleteObject(key: Key, now: nat) returns (error: Option<Error>)
      requires Keyed(objects)
      modifies this`objects
      ensures (objects, error) == Delete(old(objects), policy, key, now)
    {
      if key in objects && |objects[key].finalizers| > 0 {
        var stamped := objects[key].(deletion := Some(now));
        var _, e := UpdateObject(stamped);
        return e;
      }
      if key !in objects {
        return Some(NotFound);
      }
      objects := objects - {key};
      return None;
    }

    /** Deletes the listed objects one by one, each at its own time, up to the first error. */
    method DeleteEach(listed: seq<Key>, clock: nat -> nat) returns (done: nat, error: Option<Error>)
      requires Keyed(objects) && Distinct(listed)
      requires forall i :: 0 <= i < |listed| ==> listed[i] in objects
      modifies this`objects
      ensures done <= |listed| && DeletedUpTo(old(objects), objects, listed, clock, done)
      ensures error.None? <==> done == |listed|
      ensures error.Some? ==> Undeletable(old(objects), listed[done])
    {
      ghost var was := objects;
      for i := 0 to |listed|
        invariant Keyed(objects) && DeletedUpTo(was, objects, listed, clock, i)
      {
        assert listed[i] !in listed[..i];
        assert SameAt(was, objects, listed[i]);
        DeleteOne(objects, policy, listed[i], clock(i));
        ghost var before := objects;
        error := DeleteObject(listed[i], clock(i));
        if error.Some? {
          return i, error;
        }
        DeletedOneMore(was, before, objects, listed, clock, i);
      }
      return |listed|, None;
    }

    /** `order` is the order in which the tracker lists its objects; the selection is made before the first deletion. */
    method DeleteAllOf(order: seq<Key>, ns: string, matches: map<string, string> -> bool, clock: nat -> nat)
      returns (done: nat, error: Option<Error>)
      requires Keyed(objects) && Distinct(order) && forall key :: key in order <==> key in objects
      modifies this`objects
      ensures var listed := Filter(Selects(old(objects), ns, matches), order);
              && done <= |listed| && DeletedUpTo(old(objects), objects, listed, clock, done)
              && (error.None? <==> done == |listed|)
              && (error.Some? ==> Undeletable(old(objects), listed[done]))
      ensures forall key :: key in old(objects) && ((ns != "" && key.ns != ns) || !matches(old(objects)[key].labels)) ==>
                              SameAt(old(objects), objects, key)
      ensures error.None? ==>
                forall key :: key in old(objects) && (ns == "" || key.ns == ns) && matches(old(objects)[key].labels) ==>
                                if key in objects then objects[key].deletion.Some? else old(objects)[key].finalizers == []
    {
      var listed := Filter(Selects(objects, ns, matches), order);
      FilterDistinct(Selects(objects, ns, matches), order);
      ghost var was := objects;
      done, error := DeleteEach(listed, clock);
      forall key | key in was && ((ns != "" && key.ns != ns) || !matches(was[key].labels))
        ensures SameAt(was, objects, key)
      {
        assert !Selects(was, ns, matches)(key);
        assert key !in listed;
      }
      if error.None? {
        forall key | key in was && (ns == "" || key.ns == ns) && matches(was[key].labels)
          ensures if key in objects then objects[key].deletion.Some? else was[key].finalizers == []
        {
          assert Selects(was, ns, matches)(key) && key in listed;
          var i :| 0 <= i < |listed| && listed[i] == key;
          assert DeletedAt(was, objects, listed[i], clock(i));
        }
      }
    }
  }

  /** A client over initial objects; it panics when one of them cannot be loaded. */
  method Build(k: Kind, initial: seq<Object>) returns (client: FakeClient, panicked: bool)
    ensures fresh(client) && client.policy == PolicyOf(k)
    ensures panicked <==> !DistinctKeys(initial)
    ensures !panicked ==> LoadAll(initial) == Some(client.objects)
  {
    client := new FakeClient(k);
    LoadsIffDistinct(initial);
    for i := 0 to |initial|
      invariant fresh(client) && LoadAll(initial[..i]) == Some(client.objects)
    {
      LoadStep(initial, i);
      var _, error := client.Add(initial[i]);
      if error.Some? {
        LoadStops(initial, i + 1);
        return client, true;
      }
    }
    assert initial[..|initial|] == initial;
    return client, false;
  }

  lemma LoadStep(os: seq<Object>, i: nat)
    requires i < |os| && LoadAll(os[..i]).Some?
    ensures var s, o := LoadAll(os[..i]).value, os[i];
            LoadAll(os[..i + 1]) == if o.key in s then None else Some(s[o.key := Loaded(o)])
  {
    assert os[..i + 1][..i] == os[..i];
  }

  lemma {:induction false} LoadStops(os: seq<Object>, i: nat)
    requires i <= |os| && LoadAll(os[..i]).None?
    ensures LoadAll(os).None?
    decreases |os| - i
  {
    if i < |os| {
      assert os[..i + 1][..i] == os[..i];
      LoadStops(os, i + 1);
    } else {
      assert os[..i] == os;
    }
  }

  /** In the namespace asked for, or any, and with labels that match. */
  function Selects(s: Store, ns: string, matches: map<string, string> -> bool): Key -> bool {
    (key: Key) => key in s && (ns == "" || key.ns == ns) && matches(s[key].labels)
  }

  ghost predicate SameAt(s: Store, t: Store, key: Key) {
    (key in s <==> key in t) && (key in s ==> s[key] == t[key])
  }

  /** Gone when nothing held it; otherwise still there, stamped, at the next version. */
  ghost predicate DeletedAt(s: Store, t: Store, key: Key, now: nat) {
    key in s &&
    if s[key].finalizers == [] then key !in t
    else
      && key in t
      && VersionNumber(s[key].rv).Some?
      && t[key] == s[key].(deletion := Some(now), rv := NextVersion(VersionNumber(s[key].rv).value))
  }

  /** Its finalizers ask for an update, which fails. */
  ghost predicate Undeletable(s: Store, key: Key) {
    key in s && s[key].finalizers != [] && (key.name == "" || VersionNumber(s[key].rv).None?)
  }

  /** The first n of the list were deleted and nothing else has changed. */
  ghost predicate DeletedUpTo(s: Store, t: Store, listed: seq<Key>, clock: nat -> nat, n: nat)
    requires n <= |listed|
  {
    && (forall key :: key !in listed[..n] ==> SameAt(s, t, key))
    && (forall i :: 0 <= i < n ==> DeletedAt(s, t, listed[i], clock(i)))
  }

  lemma DeleteOne(s: Store, k: Policy, key: Key, now: nat)
    requires Keyed(s)
    ensures var (t, e) := Delete(s, k, key, now);
            && Keyed(t)
            && (forall other :: other != key ==> SameAt(s, t, other))
            && (e == Some(NotFound) <==> key !in s)
            && (e.Some? <==> key !in s || Undeletable(s, key))
            && if e.None? then DeletedAt(s, t, key, now) else t == s
  {
  }

  lemma DeletedOneMore(s: Store, t: Store, u: Store, listed: seq<Key>, clock: nat -> nat, n: nat)
    requires n < |listed| && Distinct(listed) && DeletedUpTo(s, t, listed, clock, n)
    requires (forall other :: other != listed[n] ==> SameAt(t, u, other)) && DeletedAt(t, u, listed[n], clock(n))
    ensures DeletedUpTo(s, u, listed, clock, n + 1)
  {
    assert listed[..n + 1] == listed[..n] + [listed[n]] && listed[n] !in listed[..n];
    assert SameAt(s, t, listed[n]);
    forall key | key !in listed[..n + 1] ensures SameAt(s, u, key) {
      assert SameAt(s, t, key) && SameAt(t, u, key);
    }
    forall i | 0 <= i < n ensures DeletedAt(s, u, listed[i], clock(i)) {
      assert SameAt(t, u, listed[i]) && DeletedAt(s, t, listed[i], clock(i));
    }
  }

  // ----- Resource versions over whole runs -----

  datatype Call = CreateCall(o: Object) | UpdateCall(k: Policy, o: Object) | DeleteCall(k: Policy, key: Key, now: nat)

  function Perform(s: Store, c: Call): Store {
    match c
    case CreateCall(o) => Create(s, o).store
    case UpdateCall(k, o) => Update(s, k, o).store
    case DeleteCall(k, key, now) => Delete(s, k, key, now).0
  }

  function Run(s: Store, calls: seq<Call>): Store {
    if calls == [] then s else Perform(Run(s, calls[..|calls| - 1]), calls[|calls| - 1])
  }

  /** The store just before call i. */
  function At(s: Store, calls: seq<Call>, i: nat): Store
    requires i <= |calls|
  {
    Run(s, calls[..i])
  }

  function VersionAt(s: Store, key: Key): Option<nat> {
    if key in s then VersionNumber(s[key].rv) else None
  }

  lemma NextVersionNumber(n: nat)
    ensures VersionNumber(NextVersion(n)) == Some(Increment(n))
    ensures NextVersion(n) != ""
  {
    ValueOfPrint(Increment(n));
  }

  /** An update stores what it was given, but for the version, under its own key, or changes nothing. */
  lemma UpdateStoresOrFails(s: Store, k: Policy, o: Object)
    ensures var r := Update(s, k, o);
            && (r.error.Some? ==> r.store == s)
            && (forall key :: key != o.key ==> SameAt(s, r.store, key))
            && (r.error.None? ==> (o.key !in r.store <==> o.key in s && o.deletion.Some? && o.finalizers == []))
            && (r.error.None? && o.key in r.store ==> r.store[o.key] == r.obj == o.(rv := r.obj.rv) && r.obj.rv != "")
    ensures o.key in s && o.rv != "" && o.rv != s[o.key].rv ==> Update(s, k, o).error.Some?
    ensures o.key !in s && !k.createOnUpdate ==> Update(s, k, o).error.Some?
  {
    if o.key in s && VersionNumber(s[o.key].rv).Some? {
      NextVersionNumber(VersionNumber(s[o.key].rv).value);
    }
  }

  /** An update of a stored object succeeds exactly if it names it and is based on the stored version, which is a number. */
  lemma UpdateSucceedsIff(s: Store, k: Policy, o: Object)
    requires o.key in s
    ensures Update(s, k, o).error.None? <==>
              && o.key.name != "" && VersionNumber(s[o.key].rv).Some?
              && (o.rv == s[o.key].rv || (o.rv == "" && k.unconditional))
    ensures Update(s, k, o).error == Some(Invalid) <==> o.key.name == ""
    ensures Update(s, k, o).error == Some(Conflict) <==>
              o.key.name != "" && o.rv != s[o.key].rv && (o.rv != "" || !k.unconditional)
    ensures Update(s, k, o).error.None? || Update(s, k, o).error.value in {Invalid, Conflict, BadVersion}
  {
  }

  /** An update of an object that is not stored creates it exactly if its kind lets it and it carries no version. */
  lemma UpdateCreatesIff(s: Store, k: Policy, o: Object)
    requires o.key !in s
    ensures Update(s, k, o).error.None? <==> o.key.name != "" && k.createOnUpdate && o.rv == ""
    ensures Update(s, k, o).error.None? ==> Update(s, k, o).store == s[o.key := o.(rv := "1")]
    ensures Update(s, k, o).error == Some(NotFound) <==> o.key.name != "" && !k.createOnUpdate
    ensures Update(s, k, o).error == Some(BadRequest) <==> o.key.name != "" && k.createOnUpdate && o.rv != ""
  {
  }

  /**
   What the kind alone decides, for a stored and for a new object without a version. The tables name API groups in
   short, so no kind of a group with a dot in its name is ever in them, a Lease of coordination.k8s.io included.
   */
  lemma KindDecides(s: Store, k: Kind, o: Object)
    requires o.key.name != "" && o.rv == ""
    ensures o.key !in s ==> (Update(s, PolicyOf(k), o).error.None? <==> AllowsCreateOnUpdate(k))
    ensures o.key in s && s[o.key].rv != "" && VersionNumber(s[o.key].rv).Some? ==>
              (Update(s, PolicyOf(k), o).error.None? <==> AllowsUnconditionalUpdate(k))
    ensures AllowsCreateOnUpdate(k) && !AllowsUnconditionalUpdate(k) <==>
              k == Kind("coordination", "Lease") || k == Kind("node", "RuntimeClass")
    ensures '.' in k.group ==> !AllowsCreateOnUpdate(k) && !AllowsUnconditionalUpdate(k)
  {
    if AllowsUnconditionalUpdate(k) {
      ShortGroups(k.group);
    }
  }

  /**
   What the tests promise of kinds: a ConfigMap may be updated without a version but not created by an update, a
   Binding may not be updated without one. That a Lease may be created by an update is false of its real group.
   */
  lemma TestedKinds(s: Store, o: Object)
    requires o.key.name != "" && o.rv == ""
    ensures o.key in s && VersionNumber(s[o.key].rv).Some? ==> Update(s, PolicyOf(Kind("", "ConfigMap")), o).error.None?
    ensures o.key in s && s[o.key].rv != "" ==> Update(s, PolicyOf(Kind("", "Binding")), o).error == Some(Conflict)
    ensures o.key !in s ==> Update(s, PolicyOf(Kind("", "ConfigMap")), o).error == Some(NotFound)
    ensures o.key !in s ==> Update(s, PolicyOf(Kind("coordination.k8s.io", "Lease")), o).error == Some(NotFound)
    ensures o.key !in s ==> Update(s, PolicyOf(Kind("coordination", "Lease")), o).error.None?
  {
    assert "coordination.k8s.io"[12] == '.';
    KindDecides(s, Kind("coordination.k8s.io", "Lease"), o);
  }

  lemma ShortGroups(group: string)
    requires group in ["apps", "autoscaling", "batch", "certificates", "flowcontrol", "networking", "policy", "rbac",
                       "scheduling", "settings", "storage", ""]
    ensures '.' !in group
  {
    if group in ["apps", "autoscaling", "batch", "certificates"] {
    } else if group in ["flowcontrol", "networking", "policy", "rbac"] {
    } else if group in ["scheduling", "settings", "storage", ""] {
    }
  }

  /** Creation succeeds exactly for a named, unversioned object that is not there, and stores it at version one. */
  lemma CreateSucceedsIff(s: Store, o: Object)
    ensures Create(s, o).error.None? <==> o.key.name != "" && o.rv == "" && o.key !in s
    ensures Create(s, o).error.None? ==>
              Create(s, o).store == s[o.key := Create(s, o).obj] && VersionAt(Create(s, o).store, o.key) == Some(1)
    ensures Create(s, o).error.Some? ==> Create(s, o).store == s && Create(s, o).obj == o
  {
    ValueOfPrint(1);
  }

  /** A successful update that keeps the object counts its version up by one, modulo 2^64. */
  lemma UpdateCountsUp(s: Store, k: Policy, o: Object)
    requires o.key in s && Update(s, k, o).error.None? && o.key in Update(s, k, o).store
    ensures VersionAt(s, o.key).Some?
    ensures VersionAt(Update(s, k, o).store, o.key) == Some(Increment(VersionAt(s, o.key).value))
    ensures o.rv != "" ==> o.rv == s[o.key].rv
  {
    NextVersionNumber(VersionNumber(s[o.key].rv).value);
  }

  /** The empty version counts as zero. */
  lemma EmptyVersionIsZero(s: Store, k: Policy, o: Object)
    requires o.key in s && o.key.name != "" && s[o.key].rv == o.rv == ""
    ensures Update(s, k, o).error.None? && Update(s, k, o).obj == o.(rv := "1")
  {
    assert Digits("0") && "0"[..0] == [] && Value("0") == DigitValue('0');
    assert NextVersion(0) == Print(1) == [DigitOf(1)] == "1";
  }

  /** The version grows exactly while it is below the largest 64-bit number. */
  lemma StrictGrowthIffBelowMax(s: Store, k: Policy, o: Object)
    requires o.key in s && Update(s, k, o).error.None? && o.key in Update(s, k, o).store
    ensures VersionAt(s, o.key).Some? && VersionAt(Update(s, k, o).store, o.key).Some?
    ensures VersionAt(s, o.key).value < VersionAt(Update(s, k, o).store, o.key).value
            <==> VersionAt(s, o.key).value != UINT64_MAX
  {
    UpdateCountsUp(s, k, o);
  }

  /** No call ever moves a version that stays below the maximum backwards. */
  lemma CallKeepsOrder(s: Store, c: Call, key: Key)
    requires Keyed(s) && key in s && key in Perform(s, c) && VersionAt(s, key).Some?
    requires VersionAt(s, key).value < UINT64_MAX
    ensures VersionAt(Perform(s, c), key).Some?
    ensures VersionAt(s, key).value <= VersionAt(Perform(s, c), key).value
  {
    match c
    case CreateCall(o) =>
    case UpdateCall(k, o) =>
      if o.key == key && Update(s, k, o).error.None? {
        UpdateCountsUp(s, k, o);
      }
    case DeleteCall(k, other, now) =>
      if other == key && s[key].finalizers != [] {
        var stamped := s[key].(deletion := Some(now));
        if Update(s, k, stamped).error.None? {
          UpdateCountsUp(s, k, stamped);
        }
      }
  }

  lemma CallKeepsKeys(s: Store, c: Call)
    requires Keyed(s)
    ensures Keyed(Perform(s, c))
  {
  }

  /** The key is present and its version below the maximum before and after every call from i to j. */
  ghost predicate Steady(s: Store, calls: seq<Call>, key: Key, i: nat, j: nat)
    requires i <= j <= |calls|
  {
    forall m | i <= m <= j ::
      key in At(s, calls, m) && VersionAt(At(s, calls, m), key).Some? && VersionAt(At(s, calls, m), key).value < UINT64_MAX
  }

  lemma AtNext(s: Store, calls: seq<Call>, i: nat)
    requires i < |calls|
    ensures At(s, calls, i + 1) == Perform(At(s, calls, i), calls[i])
  {
    assert calls[..i + 1][..i] == calls[..i];
  }

  lemma {:induction false} RunKeepsKeys(s: Store, calls: seq<Call>)
    requires Keyed(s)
    ensures Keyed(Run(s, calls))
  {
    if calls != [] {
      RunKeepsKeys(s, calls[..|calls| - 1]);
      CallKeepsKeys(Run(s, calls[..|calls| - 1]), calls[|calls| - 1]);
    }
  }

  lemma {:induction false} VersionsNeverFall(s: Store, calls: seq<Call>, key: Key, i: nat, j: nat)
    requires Keyed(s) && i <= j <= |calls| && Steady(s, calls, key, i, j)
    ensures VersionAt(At(s, calls, i), key).value <= VersionAt(At(s, calls, j), key).value
    decreases j - i
  {
    if i < j {
      VersionsNeverFall(s, calls, key, i, j - 1);
      RunKeepsKeys(s, calls[..j - 1]);
      AtNext(s, calls, j - 1);
      CallKeepsOrder(At(s, calls, j - 1), calls[j - 1], key);
    }
  }

  ghost predicate Wins(s: Store, calls: seq<Call>, i: nat)
    requires i < |calls|
  {
    calls[i].UpdateCall? && Update(At(s, calls, i), calls[i].k, calls[i].o).error.None?
  }

  /** A winning update was based on the stored version and moves it on. */
  lemma WinnerMovesOn(s: Store, calls: seq<Call>, i: nat)
    requires i < |calls| && Wins(s, calls, i) && calls[i].o.rv != ""
    requires Steady(s, calls, calls[i].o.key, i, i + 1)
    ensures var key := calls[i].o.key;
            && VersionNumber(calls[i].o.rv) == VersionAt(At(s, calls, i), key)
            && VersionAt(At(s, calls, i), key).value < VersionAt(At(s, calls, i + 1), key).value
  {
    AtNext(s, calls, i);
    UpdateCountsUp(At(s, calls, i), calls[i].k, calls[i].o);
  }

  /** Two updates of one object that carry the same version: at most one of them succeeds. */
  lemma AtMostOneWins(s: Store, calls: seq<Call>, i: nat, j: nat)
    requires Keyed(s) && i < j < |calls| && calls[i].UpdateCall? && calls[j].UpdateCall?
    requires calls[i].o.key == calls[j].o.key && calls[i].o.rv == calls[j].o.rv != ""
    requires Steady(s, calls, calls[i].o.key, i, j + 1)
    ensures !(Wins(s, calls, i) && Wins(s, calls, j))
  {
    var key := calls[i].o.key;
    if Wins(s, calls, i) && Wins(s, calls, j) {
      WinnerMovesOn(s, calls, i);
      WinnerMovesOn(s, calls, j);
      VersionsNeverFall(s, calls, key, i + 1, j);
    }
  }

  /** At the maximum the counter wraps to zero. */
  lemma VersionWraps(k: Policy, key: Key, finalizers: seq<string>, body: string)
    requires key.name != ""
    ensures var o := Object(key, Print(UINT64_MAX), finalizers, None, map[], body);
            var r := Update(map[key := o], k, o);
            r.error.None? && VersionAt(r.store, key) == Some(0)
  {
    PrintedVersion(UINT64_MAX);
    WrapsAtMax(k, Object(key, Print(UINT64_MAX), finalizers, None, map[], body));
  }

  lemma WrapsAtMax(k: Policy, o: Object)
    requires o.key.name != "" && o.deletion.None? && o.rv != "" && VersionNumber(o.rv) == Some(UINT64_MAX)
    ensures var r := Update(map[o.key := o], k, o); r.error.None? && VersionAt(r.store, o.key) == Some(0)
  {
    NextVersionNumber(UINT64_MAX);
  }

  lemma PrintedVersion(n: nat)
    requires n <= UINT64_MAX
    ensures VersionNumber(Print(n)) == Some(n) && Print(n) != ""
  {
    ValueOfPrint(n);
  }
}
