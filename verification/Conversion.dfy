/**
 Conversion between the versions of one kind through its hub version.

 A Go type is a `TypeInfo`: whether it is a hub, whether it is convertible, and what
 its user-written conversions do. Loops over the scheme's map of types take the order
 in which they meet its keys as an argument.
 */
module Conversion {
  import opened Common

  datatype GroupKind = GroupKind(group: string, kind: string)
  datatype Gvk = Gvk(gk: GroupKind, version: string)

  type Payload = string
  type UserError = string

  /** A registered type, with its conversions to and from a hub's payload. */
  datatype TypeInfo = TypeInfo(
    name: string,
    isHub: bool,
    isConvertible: bool,
    convertTo: Payload -> Result<Payload, UserError>,
    convertFrom: Payload -> Result<Payload, UserError>)

  /** Types by the versions they are registered under. Types are told apart by name. */
  type Scheme = map<Gvk, TypeInfo>

  /** An object as decoding or allocation leaves it: of the type registered for its own version. */
  datatype Object = Object(gvk: Gvk, payload: Payload)

  datatype Error =
    | User(message: UserError)          // a user-written conversion failed
    | DifferentKinds
    | SameVersion
    | NotConvertible
    | NoHub
    | ManyHubs
    | NotRegistered
    | Ambiguous                         // the type is registered under several versions
    | Partial                           // hubs or spokes missing or too many

  // ----- The versions of a kind -----

  /** The versions registered for a type. */
  function VersionsOfType(s: Scheme, name: string): set<Gvk> {
    set g | g in s && s[g].name == name
  }

  function KindVersions(s: Scheme, gk: GroupKind): set<Gvk> {
    set g | g in s && g.gk == gk
  }

  /** The keys of the scheme in the order in which a loop meets them. */
  ghost predicate IsOrder(s: Scheme, order: seq<Gvk>) {
    && (forall g :: g in order <==> g in s)
    && (forall i, j :: 0 <= i < j < |order| ==> order[i] != order[j])
  }

  function HasKind(gk: GroupKind): Gvk -> bool {
    (g: Gvk) => g.gk == gk
  }

  function IsHubIn(s: Scheme): Gvk -> bool {
    (g: Gvk) => g in s && s[g].isHub
  }

  function IsSpokeIn(s: Scheme): Gvk -> bool {
    (g: Gvk) => g in s && !s[g].isHub && s[g].isConvertible
  }

  function IsStrayIn(s: Scheme): Gvk -> bool {
    (g: Gvk) => g in s && !s[g].isHub && !s[g].isConvertible
  }

  /** All versions of the kind of a type, or why they cannot be told. */
  method ObjectGVKs(s: Scheme, order: seq<Gvk>, gvk: Gvk) returns (r: Result<seq<Gvk>, Error>)
    requires IsOrder(s, order)
    ensures gvk !in s ==> r == Err(NotRegistered)
    ensures gvk in s && !Registered(s, gvk) ==> r == Err(Ambiguous)
    ensures Registered(s, gvk) ==> r == Ok(Filter(HasKind(gvk.gk), order))
  {
    if gvk !in s {
      return Err(NotRegistered);
    }
    RegisteredOnce(s, gvk);
    if |VersionsOfType(s, s[gvk].name)| != 1 {
      return Err(Ambiguous);
    }
    var gvks: seq<Gvk> := [];
    for i := 0 to |order|
      invariant gvks == Filter(HasKind(gvk.gk), order[..i])
    {
      FilterStep(HasKind(gvk.gk), order, i);
      if order[i].gk == gvk.gk {
        gvks := gvks + [order[i]];
      }
    }
    assert order[..|order|] == order;
    return Ok(gvks);
  }

  // ----- Sequences without repetition and the sets they list -----

  lemma {:induction false} DistinctSize<T>(s: seq<T>, t: set<T>)
    requires Distinct(s) && forall x :: x in s <==> x in t
    ensures |s| == |t|
  {
    if s != [] {
      var last := s[|s| - 1];
      assert s == s[..|s| - 1] + [last];
      DistinctSize(s[..|s| - 1], t - {last});
    } else {
      assert t == {};
    }
  }

  // ----- Is a kind convertible? -----

  function Hubs(s: Scheme, gk: GroupKind): set<Gvk> {
    set g | g in s && g.gk == gk && s[g].isHub
  }

  function Spokes(s: Scheme, gk: GroupKind): set<Gvk> {
    set g | g in s && g.gk == gk && !s[g].isHub && s[g].isConvertible
  }

  function Strays(s: Scheme, gk: GroupKind): set<Gvk> {
    set g | g in s && g.gk == gk && !s[g].isHub && !s[g].isConvertible
  }

  /** The kind has several versions, one of them the hub, and all others convertible. */
  ghost predicate HubAndSpokes(s: Scheme, gk: GroupKind) {
    |KindVersions(s, gk)| > 1 && |Hubs(s, gk)| == 1 && Strays(s, gk) == {}
  }

  /** Nothing about conversion is implemented, or there is nothing to convert between. */
  ghost predicate NothingToConvert(s: Scheme, gk: GroupKind) {
    |KindVersions(s, gk)| <= 1 || (Hubs(s, gk) == {} && Spokes(s, gk) == {})
  }

  /** The version is registered, and its type under no other. */
  ghost predicate Registered(s: Scheme, gvk: Gvk) {
    gvk in s && forall g :: g in s && s[g].name == s[gvk].name ==> g == gvk
  }

  lemma RegisteredOnce(s: Scheme, gvk: Gvk)
    requires gvk in s
    ensures Registered(s, gvk) <==> |VersionsOfType(s, s[gvk].name)| == 1
  {
    var same := VersionsOfType(s, s[gvk].name);
    assert gvk in same;
    if Registered(s, gvk) {
      assert same == {gvk};
    }
    if |same| == 1 {
      assert |same - {gvk}| == 0;
      forall g | g in s && s[g].name == s[gvk].name ensures g == gvk {
        assert g in same && g !in same - {gvk};
      }
    }
  }

  lemma CountClasses(s: Scheme, order: seq<Gvk>, gk: GroupKind)
    requires IsOrder(s, order)
    ensures var gvks := Filter(HasKind(gk), order);
            && |gvks| == |KindVersions(s, gk)|
            && |Filter(IsHubIn(s), gvks)| == |Hubs(s, gk)|
            && |Filter(IsSpokeIn(s), gvks)| == |Spokes(s, gk)|
            && |Filter(IsStrayIn(s), gvks)| == |Strays(s, gk)|
  {
    var gvks := Filter(HasKind(gk), order);
    FilterDistinct(HasKind(gk), order);
    DistinctSize(gvks, KindVersions(s, gk));
    FilterDistinct(IsHubIn(s), gvks);
    DistinctSize(Filter(IsHubIn(s), gvks), Hubs(s, gk));
    FilterDistinct(IsSpokeIn(s), gvks);
    DistinctSize(Filter(IsSpokeIn(s), gvks), Spokes(s, gk));
    FilterDistinct(IsStrayIn(s), gvks);
    DistinctSize(Filter(IsStrayIn(s), gvks), Strays(s, gk));
  }

  /** The classification loop of IsConvertible. */
  method Classify(s: Scheme, gvks: seq<Gvk>) returns (hubs: seq<Gvk>, spokes: seq<Gvk>, nonSpokes: seq<Gvk>)
    requires forall g :: g in gvks ==> g in s
    ensures hubs == Filter(IsHubIn(s), gvks)
    ensures spokes == Filter(IsSpokeIn(s), gvks)
    ensures nonSpokes == Filter(IsStrayIn(s), gvks)
  {
    hubs, spokes, nonSpokes := [], [], [];
    for i := 0 to |gvks|
      invariant hubs == Filter(IsHubIn(s), gvks[..i])
      invariant spokes == Filter(IsSpokeIn(s), gvks[..i])
      invariant nonSpokes == Filter(IsStrayIn(s), gvks[..i])
    {
      var g := gvks[i];
      FilterStep(IsHubIn(s), gvks, i);
      FilterStep(IsSpokeIn(s), gvks, i);
      FilterStep(IsStrayIn(s), gvks, i);
      if s[g].isHub {
        hubs := hubs + [g];
      } else if !s[g].isConvertible {
        nonSpokes := nonSpokes + [g];
      } else {
        spokes := spokes + [g];
      }
    }
    assert gvks[..|gvks|] == gvks;
  }

  method IsConvertible(s: Scheme, order: seq<Gvk>, gvk: Gvk) returns (r: Result<bool, Error>)
    requires IsOrder(s, order)
    ensures r == Ok(true) <==> Registered(s, gvk) && HubAndSpokes(s, gvk.gk)
    ensures r == Ok(false) <==> Registered(s, gvk) && NothingToConvert(s, gvk.gk)
    ensures r == Err(Partial) <==> Registered(s, gvk) && !HubAndSpokes(s, gvk.gk) && !NothingToConvert(s, gvk.gk)
  {
    var gvks := ObjectGVKs(s, order, gvk);
    if gvks.Err? {
      return Err(gvks.error);
    }
    FilterDistinct(HasKind(gvk.gk), order);
    CountClasses(s, order, gvk.gk);
    var hubs, spokes, nonSpokes := Classify(s, gvks.value);
    assert |KindVersions(s, gvk.gk)| > 0 by { assert gvk in KindVersions(s, gvk.gk); }
    if |gvks.value| == 1 {
      return Ok(false);
    }
    if |hubs| == 0 && |spokes| == 0 {
      return Ok(false);
    }
    if |hubs| == 1 && |nonSpokes| == 0 {
      return Ok(true);
    }
    return Err(Partial);
  }

  /** The single hub of a kind; None when there is none. */
  method GetHub(s: Scheme, order: seq<Gvk>, gvk: Gvk) returns (r: Result<Option<Gvk>, Error>)
    requires IsOrder(s, order)
    ensures gvk !in s ==> r == Err(NotRegistered)
    ensures gvk in s && !Registered(s, gvk) ==> r == Err(Ambiguous)
    ensures Registered(s, gvk) && |Hubs(s, gvk.gk)| > 1 ==> r == Err(ManyHubs)
    ensures Registered(s, gvk) && |Hubs(s, gvk.gk)| == 0 ==> r == Ok(None)
    ensures Registered(s, gvk) && |Hubs(s, gvk.gk)| == 1 ==> r.Ok? && r.value.Some? && r.value.value in Hubs(s, gvk.gk)
  {
    var found := ObjectGVKs(s, order, gvk);
    if found.Err? {
      return Err(found.error);
    }
    var gvks := found.value;
    FilterDistinct(HasKind(gvk.gk), order);
    CountClasses(s, order, gvk.gk);
    var hub, many := FindHub(s, gvks);
    if many {
      return Err(ManyHubs);
    }
    if hub.Some? {
      FilterMember(IsHubIn(s), gvks, hub.value);
    }
    return Ok(hub);
  }

  /** The search for the hub, which ends at a second one. */
  method FindHub(s: Scheme, gvks: seq<Gvk>) returns (hub: Option<Gvk>, many: bool)
    requires forall g :: g in gvks ==> g in s
    ensures many <==> |Filter(IsHubIn(s), gvks)| > 1
    ensures !many ==> Filter(IsHubIn(s), gvks) == if hub.Some? then [hub.value] else []
  {
    hub := None;
    for i := 0 to |gvks|
      invariant Filter(IsHubIn(s), gvks[..i]) == if hub.Some? then [hub.value] else []
    {
      FilterStep(IsHubIn(s), gvks, i);
      if s[gvks[i]].isHub {
        if hub.Some? {
          FilterGrows(IsHubIn(s), gvks, i + 1);
          return hub, true;
        }
        hub := Some(gvks[i]);
      }
    }
    assert gvks[..|gvks|] == gvks;
    return hub, false;
  }

  lemma FilterGrows<T>(p: T -> bool, s: seq<T>, i: nat)
    requires i <= |s|
    ensures |Filter(p, s[..i])| <= |Filter(p, s)|
  {
    assert s == s[..i] + s[i..];
    FilterAppend(p, s[..i], s[i..]);
  }

  // ----- Converting -----

  function Wrap(r: Result<Payload, UserError>, gvk: Gvk): Result<Object, Error> {
    match r
    case Ok(p) => Ok(Object(gvk, p))
    case Err(m) => Err(User(m))
  }

  function ViaHub(s: Scheme, src: Object, dst: Gvk): Result<Object, Error>
    requires src.gvk in s && dst in s
  {
    if |VersionsOfType(s, s[src.gvk].name)| != 1 then Err(Ambiguous)
    else if |Hubs(s, src.gvk.gk)| > 1 then Err(ManyHubs)
    else if |Hubs(s, src.gvk.gk)| == 0 then Err(NoHub)
    else
      match s[src.gvk].convertTo(src.payload)
      case Err(m) => Err(User(m))
      case Ok(h) => Wrap(s[dst].convertFrom(h), dst)
  }

  function Convert(s: Scheme, src: Object, dst: Gvk): Result<Object, Error>
    requires src.gvk in s && dst in s
  {
    var from, to := s[src.gvk], s[dst];
    if src.gvk.gk != dst.gk then Err(DifferentKinds)
    else if src.gvk == dst then Err(SameVersion)
    else if from.isHub && to.isConvertible then Wrap(to.convertFrom(src.payload), dst)
    else if to.isHub && from.isConvertible then Wrap(from.convertTo(src.payload), dst)
    else if from.isConvertible && to.isConvertible then ViaHub(s, src, dst)
    else Err(NotConvertible)
  }

  /** Converts through a hub instance and into the destination, both written in place in the source. */
  method ConvertViaHub(s: Scheme, order: seq<Gvk>, src: Object, dst: Gvk) returns (r: Result<Object, Error>)
    requires IsOrder(s, order) && src.gvk in s && dst in s
    ensures r == ViaHub(s, src, dst)
  {
    RegisteredOnce(s, src.gvk);
    var hub := GetHub(s, order, src.gvk);
    if hub.Err? {
      return Err(hub.error);
    }
    if hub.value.None? {
      return Err(NoHub);
    }
    var inHub := s[src.gvk].convertTo(src.payload);
    if inHub.Err? {
      return Err(User(inHub.error));
    }
    var out := s[dst].convertFrom(inHub.value);
    if out.Err? {
      return Err(User(out.error));
    }
    return Ok(Object(dst, out.value));
  }

  method ConvertObject(s: Scheme, order: seq<Gvk>, src: Object, dst: Gvk) returns (r: Result<Object, Error>)
    requires IsOrder(s, order) && src.gvk in s && dst in s
    ensures r == Convert(s, src, dst)
  {
    if src.gvk.gk != dst.gk {
      return Err(DifferentKinds);
    }
    if src.gvk == dst {
      return Err(SameVersion);
    }
    if s[src.gvk].isHub && s[dst].isConvertible {
      return Wrap(s[dst].convertFrom(src.payload), dst);
    } else if s[dst].isHub && s[src.gvk].isConvertible {
      return Wrap(s[src.gvk].convertTo(src.payload), dst);
    } else if s[src.gvk].isConvertible && s[dst].isConvertible {
      r := ConvertViaHub(s, order, src, dst);
    } else {
      return Err(NotConvertible);
    }
  }

  /** A conversion succeeds only within one group and kind and into another version, and yields that version. */
  lemma ConvertsInKind(s: Scheme, src: Object, dst: Gvk)
    requires src.gvk in s && dst in s && Convert(s, src, dst).Ok?
    ensures Convert(s, src, dst).value.gvk == dst && src.gvk.gk == dst.gk && src.gvk != dst
  {
  }

  /** The version a request asks for, for an object of some kind. */
  function Desired(group: string, version: string, o: Object): Gvk {
    Gvk(GroupKind(group, o.gvk.gk.kind), version)
  }

  /** The answer to one object of a request; decoding and allocation need registered versions. */
  function Answer(s: Scheme, o: Object, group: string, version: string): Result<Object, Error> {
    var g := Desired(group, version, o);
    if o.gvk !in s || g !in s then Err(NotRegistered) else Convert(s, o, g)
  }

  /** An object is answered only from a registered version into a registered one of its own kind, and group. */
  lemma AnsweredIff(s: Scheme, o: Object, group: string, version: string)
    ensures var g := Gvk(GroupKind(group, o.gvk.gk.kind), version);
            && (Answer(s, o, group, version) == Err(NotRegistered) <==> o.gvk !in s || g !in s)
            && (Answer(s, o, group, version).Ok? ==> Answer(s, o, group, version).value.gvk == g && o.gvk.gk.group == group)
  {
  }

  ghost predicate FirstError(s: Scheme, objs: seq<Object>, group: string, version: string, i: nat, e: Error)
    requires i < |objs|
  {
    Answer(s, objs[i], group, version) == Err(e) && forall k :: 0 <= k < i ==> Answer(s, objs[k], group, version).Ok?
  }

  /** A request is answered for all of its objects in order, or fails with its first error. */
  method HandleConvertRequest(s: Scheme, order: seq<Gvk>, objs: seq<Object>, group: string, version: string)
    returns (r: Result<seq<Object>, Error>)
    requires IsOrder(s, order)
    ensures r.Ok? ==> |r.value| == |objs|
    ensures r.Ok? ==> forall i :: 0 <= i < |objs| ==> Answer(s, objs[i], group, version) == Ok(r.value[i])
    ensures r.Ok? ==> forall i :: 0 <= i < |objs| ==> r.value[i].gvk == Gvk(GroupKind(group, objs[i].gvk.gk.kind), version)
    ensures r.Err? ==> exists i :: 0 <= i < |objs| && FirstError(s, objs, group, version, i, r.error)
  {
    var out: seq<Object> := [];
    for i := 0 to |objs|
      invariant |out| == i
      invariant forall k :: 0 <= k < i ==> Answer(s, objs[k], group, version) == Ok(out[k])
      invariant forall k :: 0 <= k < i ==> out[k].gvk == Gvk(GroupKind(group, objs[k].gvk.gk.kind), version)
    {
      var dst := Desired(group, version, objs[i]);
      var one: Result<Object, Error> := Err(NotRegistered);
      if objs[i].gvk in s && dst in s {
        one := ConvertObject(s, order, objs[i], dst);
      }
      if one.Err? {
        assert FirstError(s, objs, group, version, i, one.error);
        return Err(one.error);
      }
      out := out + [one.value];
    }
    return Ok(out);
  }

  // ----- What IsConvertible promises -----

  ghost predicate OneVersionPerType(s: Scheme, gk: GroupKind) {
    forall g :: g in KindVersions(s, gk) ==> Registered(s, g)
  }

  /** The pair converts unless a user-written conversion fails. */
  ghost predicate Works(s: Scheme, a: Gvk, b: Gvk)
    requires a in s && b in s
  {
    forall p :: var r := Convert(s, Object(a, p), b); r.Ok? || r.error.User?
  }

  ghost predicate AllPairsWork(s: Scheme, gk: GroupKind) {
    forall a, b :: a in KindVersions(s, gk) && b in KindVersions(s, gk) && a != b ==> Works(s, a, b)
  }

  lemma TheHub(s: Scheme, gk: GroupKind) returns (h: Gvk)
    requires |Hubs(s, gk)| == 1
    ensures Hubs(s, gk) == {h}
  {
    h :| h in Hubs(s, gk);
    assert |Hubs(s, gk) - {h}| == 0;
  }

  /** A convertible kind converts between any two of its versions. */
  lemma ConvertibleIsTotal(s: Scheme, gk: GroupKind)
    requires HubAndSpokes(s, gk) && OneVersionPerType(s, gk)
    ensures AllPairsWork(s, gk)
  {
    var h := TheHub(s, gk);
    forall a, b | a in KindVersions(s, gk) && b in KindVersions(s, gk) && a != b
      ensures Works(s, a, b)
    {
      NotHubIsSpoke(s, gk, h, a);
      NotHubIsSpoke(s, gk, h, b);
      WorksIff(s, gk, a, b);
    }
  }

  lemma NotHubIsSpoke(s: Scheme, gk: GroupKind, h: Gvk, g: Gvk)
    requires Hubs(s, gk) == {h} && Strays(s, gk) == {} && g in KindVersions(s, gk)
    ensures if g == h then s[g].isHub else !s[g].isHub && s[g].isConvertible
  {
    assert g in Hubs(s, gk) <==> s[g].isHub;
    assert g !in Strays(s, gk);
  }

  /** What it takes for one pair: one of them is the other's hub, or both convert through the only hub there is. */
  lemma WorksIff(s: Scheme, gk: GroupKind, a: Gvk, b: Gvk)
    requires a in KindVersions(s, gk) && b in KindVersions(s, gk) && a != b
    ensures Works(s, a, b) <==>
            || (s[a].isHub && s[b].isConvertible)
            || (s[b].isHub && s[a].isConvertible)
            || (s[a].isConvertible && s[b].isConvertible && |Hubs(s, gk)| == 1 && Registered(s, a))
  {
    RegisteredOnce(s, a);
    var r := Convert(s, Object(a, ""), b);
    assert Works(s, a, b) ==> r.Ok? || r.error.User?;
  }

  /** Where IsConvertible says there is nothing to convert, no version converts into another. */
  lemma NothingConverts(s: Scheme, gk: GroupKind, a: Gvk, b: Gvk)
    requires NothingToConvert(s, gk) && a in KindVersions(s, gk) && b in KindVersions(s, gk) && a != b
    ensures !Works(s, a, b)
  {
    WorksIff(s, gk, a, b);
    assert |KindVersions(s, gk) - {a, b}| == |KindVersions(s, gk)| - 2 by {
      assert {a, b} <= KindVersions(s, gk) && |{a, b}| == 2;
    }
    assert s[a].isConvertible || s[a].isHub ==> a in Hubs(s, gk) || a in Spokes(s, gk);
  }

  /** Several hubs that convert each other: at most one version is no hub, and at most one does not convert itself. */
  ghost predicate MutualHubs(s: Scheme, gk: GroupKind) {
    && |Hubs(s, gk)| > 1 && Strays(s, gk) == {}
    && (forall a, b :: a in KindVersions(s, gk) && b in KindVersions(s, gk) && a != b ==> s[a].isHub || s[b].isHub)
    && (forall a, b :: a in KindVersions(s, gk) && b in KindVersions(s, gk) && a != b ==>
          s[a].isConvertible || s[b].isConvertible)
  }

  /** All versions of a kind convert into each other exactly if it is convertible, or its hubs convert each other. */
  lemma TotalIffConvertible(s: Scheme, gk: GroupKind)
    requires OneVersionPerType(s, gk) && |KindVersions(s, gk)| > 1
    ensures AllPairsWork(s, gk) <==> HubAndSpokes(s, gk) || MutualHubs(s, gk)
  {
    if HubAndSpokes(s, gk) {
      ConvertibleIsTotal(s, gk);
    }
    if MutualHubs(s, gk) {
      MutualHubsWork(s, gk);
    }
    if AllPairsWork(s, gk) {
      SomeHub(s, gk);
      NoStrays(s, gk);
      if |Hubs(s, gk)| > 1 {
        AreMutual(s, gk);
      }
    }
  }

  lemma MutualHubsWork(s: Scheme, gk: GroupKind)
    requires OneVersionPerType(s, gk) && MutualHubs(s, gk)
    ensures AllPairsWork(s, gk)
  {
    forall a, b | a in KindVersions(s, gk) && b in KindVersions(s, gk) && a != b ensures Works(s, a, b) {
      WorksIff(s, gk, a, b);
      assert a !in Strays(s, gk) && b !in Strays(s, gk);
    }
  }

  lemma AnotherVersion(s: Scheme, gk: GroupKind, a: Gvk) returns (b: Gvk)
    requires |KindVersions(s, gk)| > 1 && a in KindVersions(s, gk)
    ensures b in KindVersions(s, gk) && b != a
  {
    assert |KindVersions(s, gk) - {a}| > 0;
    b :| b in KindVersions(s, gk) - {a};
  }

  lemma SomeHub(s: Scheme, gk: GroupKind)
    requires AllPairsWork(s, gk) && OneVersionPerType(s, gk) && |KindVersions(s, gk)| > 1
    ensures Hubs(s, gk) != {}
  {
    var a :| a in KindVersions(s, gk);
    var b := AnotherVersion(s, gk, a);
    assert Works(s, a, b);
    WorksIff(s, gk, a, b);
    assert a in Hubs(s, gk) <==> s[a].isHub;
    assert b in Hubs(s, gk) <==> s[b].isHub;
  }

  lemma NoStrays(s: Scheme, gk: GroupKind)
    requires AllPairsWork(s, gk) && OneVersionPerType(s, gk) && |KindVersions(s, gk)| > 1
    ensures Strays(s, gk) == {}
  {
    forall a | a in Strays(s, gk) ensures false {
      var b := AnotherVersion(s, gk, a);
      assert Works(s, a, b);
      WorksIff(s, gk, a, b);
    }
  }

  lemma AreMutual(s: Scheme, gk: GroupKind)
    requires AllPairsWork(s, gk) && OneVersionPerType(s, gk) && |Hubs(s, gk)| > 1 && Strays(s, gk) == {}
    ensures MutualHubs(s, gk)
  {
    forall a, b | a in KindVersions(s, gk) && b in KindVersions(s, gk) && a != b
      ensures (s[a].isHub || s[b].isHub) && (s[a].isConvertible || s[b].isConvertible)
    {
      assert Works(s, a, b);
      WorksIff(s, gk, a, b);
    }
  }

  // ----- Coherence -----

  /** Where one of the two conversions of a type leads, the other leads back. */
  ghost predicate Inverse(t: TypeInfo) {
    forall x, h :: t.convertTo(x) == Ok(h) <==> t.convertFrom(h) == Ok(x)
  }

  ghost predicate AllInverse(s: Scheme, gk: GroupKind) {
    forall g :: g in KindVersions(s, gk) && !s[g].isHub ==> Inverse(s[g])
  }

  /** The payload of an object in hub form. */
  ghost function InHub(s: Scheme, o: Object): Result<Payload, UserError>
    requires o.gvk in s
  {
    if s[o.gvk].isHub then Ok(o.payload) else s[o.gvk].convertTo(o.payload)
  }

  ghost function FromHub(s: Scheme, h: Payload, dst: Gvk): Result<Object, Error>
    requires dst in s
  {
    if s[dst].isHub then Ok(Object(dst, h)) else Wrap(s[dst].convertFrom(h), dst)
  }

  /** Every conversion of a convertible kind is a way into the hub followed by a way out. */
  lemma ConvertIsThroughHub(s: Scheme, src: Object, dst: Gvk)
    requires HubAndSpokes(s, dst.gk) && OneVersionPerType(s, dst.gk)
    requires src.gvk in KindVersions(s, dst.gk) && dst in KindVersions(s, dst.gk) && src.gvk != dst
    ensures Convert(s, src, dst) ==
            if InHub(s, src).Err? then Err(User(InHub(s, src).error)) else FromHub(s, InHub(s, src).value, dst)
  {
    var h := TheHub(s, dst.gk);
    NotHubIsSpoke(s, dst.gk, h, src.gvk);
    NotHubIsSpoke(s, dst.gk, h, dst);
    RegisteredOnce(s, src.gvk);
  }

  lemma BackInHub(s: Scheme, h: Payload, dst: Gvk)
    requires dst in s && (s[dst].isHub || Inverse(s[dst])) && FromHub(s, h, dst).Ok?
    ensures FromHub(s, h, dst).value.gvk == dst && InHub(s, FromHub(s, h, dst).value) == Ok(h)
  {
  }

  /** A detour over another version changes nothing. */
  lemma DetourChangesNothing(s: Scheme, src: Object, mid: Gvk, dst: Gvk)
    requires HubAndSpokes(s, dst.gk) && OneVersionPerType(s, dst.gk) && AllInverse(s, dst.gk)
    requires {src.gvk, mid, dst} <= KindVersions(s, dst.gk) && src.gvk != mid && mid != dst && src.gvk != dst
    requires Convert(s, src, mid).Ok?
    ensures Convert(s, Convert(s, src, mid).value, dst) == Convert(s, src, dst)
  {
    ConvertIsThroughHub(s, src, mid);
    BackInHub(s, InHub(s, src).value, mid);
    ConvertIsThroughHub(s, Convert(s, src, mid).value, dst);
    ConvertIsThroughHub(s, src, dst);
  }

  /** There and back again is the identity. */
  lemma RoundTrip(s: Scheme, src: Object, mid: Gvk)
    requires HubAndSpokes(s, mid.gk) && OneVersionPerType(s, mid.gk) && AllInverse(s, mid.gk)
    requires {src.gvk, mid} <= KindVersions(s, mid.gk) && src.gvk != mid
    requires Convert(s, src, mid).Ok?
    ensures Convert(s, Convert(s, src, mid).value, src.gvk) == Ok(src)
  {
    ConvertIsThroughHub(s, src, mid);
    BackInHub(s, InHub(s, src).value, mid);
    ConvertIsThroughHub(s, Convert(s, src, mid).value, src.gvk);
    BackFromHub(s, src);
  }

  lemma BackFromHub(s: Scheme, o: Object)
    requires o.gvk in s && (s[o.gvk].isHub || Inverse(s[o.gvk])) && InHub(s, o).Ok?
    ensures FromHub(s, InHub(s, o).value, o.gvk) == Ok(o)
  {
  }
}
