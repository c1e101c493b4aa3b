/** Choosing a version: listing the local store, the newest remote one, and which of them wins. */
module EnvSelect {
  import opened Common
  import opened Versions
  import opened Platforms
  import opened Sorting

  datatype Item = Item(version: Concrete, platform: Platform)

  /** A store directory entry. */
  datatype Entry = Entry(name: string, isDir: bool)

  datatype PlatformItem = PlatformItem(platform: Platform, md5: string)

  /** A remote version and the platforms it is available for. */
  datatype VersionSet = VersionSet(version: Concrete, platforms: seq<PlatformItem>)

  datatype ItemFilter = ItemFilter(version: Spec, platform: Platform)

  predicate FilterMatches(f: ItemFilter, item: Item) {
    Matches(f.version.selector, item.version) && PlatformMatches(f.platform, item.platform)
  }

  // ----- The order of listed items -----

  predicate OrderPlatforms(p: Platform, q: Platform) {
    if p.os != q.os then StringLess(p.os, q.os) else StringLess(p.arch, q.arch)
  }

  /** Newest version first, then by platform. */
  predicate ItemLess(a: Item, b: Item) {
    if a.version != b.version then NewerThan(a.version, b.version) else OrderPlatforms(a.platform, b.platform)
  }

  lemma PlatformsAreOrdered(p: Platform, q: Platform, r: Platform)
    ensures !OrderPlatforms(p, p)
    ensures OrderPlatforms(p, q) || OrderPlatforms(q, p) || p == q
    ensures OrderPlatforms(p, q) && OrderPlatforms(q, r) ==> OrderPlatforms(p, r)
  {
    StringLessTotal(p.os, q.os);
    StringLessTotal(p.arch, q.arch);
    if OrderPlatforms(p, q) && OrderPlatforms(q, r) {
      StringLessTotal(p.os, r.os);
      if p.os != q.os && q.os != r.os {
        StringLessTotal(q.os, r.os);
        StringLessTransitive(p.os, q.os, r.os);
      } else if p.os == q.os == r.os {
        StringLessTransitive(p.arch, q.arch, r.arch);
      }
    }
  }

  lemma ItemsAreOrdered()
    ensures StrictTotal(ItemLess)
  {
    forall a, b ensures !ItemLess(a, a) && (ItemLess(a, b) || ItemLess(b, a) || a == b) {
      PlatformsAreOrdered(a.platform, b.platform, a.platform);
      NewerIsStrictTotalOrder(a.version, b.version, a.version);
    }
    forall a, b, c | ItemLess(a, b) && ItemLess(b, c) ensures ItemLess(a, c) {
      PlatformsAreOrdered(a.platform, b.platform, c.platform);
      NewerIsStrictTotalOrder(a.version, b.version, c.version);
      NewerIsStrictTotalOrder(a.version, c.version, a.version);
    }
  }

  /** The newer version goes first; of one version, the platform whose system, or else architecture, has the lesser name. */
  ghost predicate Precedes(a: Item, b: Item) {
    || a == b
    || NewerThan(a.version, b.version)
    || (a.version == b.version && exists i :: DiffersAt(a.platform.os, b.platform.os, i))
    || (a.version == b.version && a.platform.os == b.platform.os
        && exists i :: DiffersAt(a.platform.arch, b.platform.arch, i))
  }

  lemma InOrder(items: seq<Item>)
    requires Sorted(ItemLess, items)
    ensures forall i, j :: 0 <= i < j < |items| ==> Precedes(items[i], items[j])
  {
    ItemsAreOrdered();
    forall i, j | 0 <= i < j < |items| ensures Precedes(items[i], items[j]) {
      var a, b := items[i], items[j];
      assert !ItemLess(b, a) && (ItemLess(a, b) || a == b);
      StringLessIff(a.platform.os, b.platform.os);
      StringLessIff(a.platform.arch, b.platform.arch);
    }
  }

  // ----- Listing the store -----

  /** The item an entry stands for, if its name is read as one. */
  function ItemOf(e: Entry): Option<Item> {
    if !e.isDir then None
    else match FromBaseName(e.name) case Found(v, p) => Some(Item(v, p)) case _ => None
  }

  predicate Panics(e: Entry) {
    e.isDir && FromBaseName(e.name).NumberPanic?
  }

  function Selected(entries: seq<Entry>, f: ItemFilter): seq<Item> {
    if entries == [] then []
    else
      var item := ItemOf(entries[|entries| - 1]);
      Selected(entries[..|entries| - 1], f)
      + if item.Some? && FilterMatches(f, item.value) then [item.value] else []
  }

  /** The directory named for an item, if such an item can be named. */
  ghost predicate Stored(entries: seq<Entry>, item: Item) {
    GoodVersion(item.version) && GoodPlatform(item.platform) && Entry(BaseName(item.platform, item.version), true) in entries
  }

  lemma ItemOfIff(e: Entry, item: Item)
    ensures ItemOf(e) == Some(item) <==> Stored([e], item)
  {
    var named := Entry(BaseName(item.platform, item.version), true);
    assert named in [e] <==> named == e;
    if Stored([e], item) {
      BaseNameRoundTrip(item.platform, item.version);
    }
    if ItemOf(e) == Some(item) {
      BaseNameSound(e.name);
    }
  }

  lemma {:induction false} SelectedMember(entries: seq<Entry>, f: ItemFilter, item: Item)
    ensures item in Selected(entries, f) <==> FilterMatches(f, item) && Stored(entries, item)
  {
    if entries != [] {
      var init, e := entries[..|entries| - 1], entries[|entries| - 1];
      SelectedMember(init, f, item);
      ItemOfIff(e, item);
      OneMoreStored(init, e, item);
      assert entries == init + [e];
    }
  }

  lemma OneMoreStored(init: seq<Entry>, e: Entry, item: Item)
    ensures Stored(init + [e], item) <==> Stored(init, item) || Stored([e], item)
  {
  }

  /** List; None stands for the panic on a number too large for the source. */
  method List(entries: seq<Entry>, f: ItemFilter) returns (r: Option<seq<Item>>)
    ensures r.None? <==> exists e :: e in entries && Panics(e)
    ensures r.Some? ==> forall i, j :: 0 <= i < j < |r.value| ==> Precedes(r.value[i], r.value[j])
    ensures r.Some? ==> Sorted(ItemLess, r.value) && multiset(r.value) == multiset(Selected(entries, f))
  {
    var res: seq<Item> := [];
    for i := 0 to |entries|
      invariant res == Selected(entries[..i], f)
      invariant forall e :: e in entries[..i] ==> !Panics(e)
    {
      var e := entries[i];
      assert entries[..i + 1] == entries[..i] + [e];
      if e.isDir {
        match FromBaseName(e.name)
        case NumberPanic =>
          assert e in entries && Panics(e);
          return None;
        case NoName =>
        case Found(v, p) =>
          if FilterMatches(f, Item(v, p)) {
            res := res + [Item(v, p)];
          }
      }
    }
    assert entries[..|entries|] == entries;
    ItemsAreOrdered();
    SortSorts(ItemLess, res);
    InOrder(Sort(ItemLess, res));
    return Some(Sort(ItemLess, res));
  }

  /** The listing does not depend on the order of the directory. */
  lemma ListingIgnoresDirectoryOrder(a: seq<Item>, b: seq<Item>, x: seq<Item>, y: seq<Item>)
    requires multiset(x) == multiset(y)
    requires Sorted(ItemLess, a) && multiset(a) == multiset(x) && Sorted(ItemLess, b) && multiset(b) == multiset(y)
    ensures a == b
  {
    ItemsAreOrdered();
    SortedIsUnique(ItemLess, a, b);
  }

  // ----- The newest remote version -----

  ghost predicate NewestFirst(sets: seq<VersionSet>) {
    forall i, j :: 0 <= i < j < |sets| ==> !NewerThan(sets[j].version, sets[i].version)
  }

  /** Version v is offered for platform p, and both are asked for. */
  ghost predicate RemoteCandidate(sets: seq<VersionSet>, f: ItemFilter, v: Concrete, p: PlatformItem) {
    && FilterMatches(f, Item(v, p.platform))
    && exists i :: 0 <= i < |sets| && sets[i].version == v && p in sets[i].platforms
  }

  ghost predicate NoRemoteNewer(sets: seq<VersionSet>, f: ItemFilter, v: Concrete) {
    forall w, p :: RemoteCandidate(sets, f, w, p) ==> !NewerThan(w, v)
  }

  ghost predicate SetHasNone(s: VersionSet, f: ItemFilter) {
    forall p :: p in s.platforms ==> !FilterMatches(f, Item(s.version, p.platform))
  }

  method LatestVersion(sets: seq<VersionSet>, f: ItemFilter) returns (r: Option<(Concrete, PlatformItem)>)
    requires NewestFirst(sets)
    ensures r.Some? ==> RemoteCandidate(sets, f, r.value.0, r.value.1) && NoRemoteNewer(sets, f, r.value.0)
    ensures r.None? ==> forall v, p :: !RemoteCandidate(sets, f, v, p)
  {
    for i := 0 to |sets|
      invariant forall k :: 0 <= k < i ==> SetHasNone(sets[k], f)
    {
      if !Matches(f.version.selector, sets[i].version) {
        continue;
      }
      for j := 0 to |sets[i].platforms|
        invariant forall k :: 0 <= k < j ==> !PlatformMatches(f.platform, sets[i].platforms[k].platform)
      {
        var plat := sets[i].platforms[j];
        if PlatformMatches(f.platform, plat.platform) && Matches(f.version.selector, sets[i].version) {
          assert RemoteCandidate(sets, f, sets[i].version, plat);
          FirstIsNewest(sets, f, i);
          return Some((sets[i].version, plat));
        }
      }
    }
    return None;
  }

  lemma FirstIsNewest(sets: seq<VersionSet>, f: ItemFilter, i: nat)
    requires NewestFirst(sets) && i < |sets| && forall k :: 0 <= k < i ==> SetHasNone(sets[k], f)
    ensures NoRemoteNewer(sets, f, sets[i].version)
  {
    forall w, p | RemoteCandidate(sets, f, w, p) ensures !NewerThan(w, sets[i].version) {
      var k :| 0 <= k < |sets| && sets[k].version == w && p in sets[k].platforms;
      assert !SetHasNone(sets[k], f);
      NewerIsStrictTotalOrder(w, w, w);
    }
  }

  // ----- Ensuring a version -----

  ghost predicate LocalCandidate(entries: seq<Entry>, f: ItemFilter, item: Item) {
    FilterMatches(f, item) && Stored(entries, item)
  }

  ghost predicate NoLocalNewer(entries: seq<Entry>, f: ItemFilter, v: Concrete) {
    forall item :: LocalCandidate(entries, f, item) ==> !NewerThan(item.version, v)
  }

  /** The loop over the listed items. */
  method FirstMatching(items: seq<Item>, f: ItemFilter) returns (r: Option<Item>)
    requires Sorted(ItemLess, items)
    ensures r.Some? ==> r.value in items && FilterMatches(f, r.value)
                        && forall x :: x in items && FilterMatches(f, x) ==> !NewerThan(x.version, r.value.version)
    ensures r.None? ==> forall x :: x in items ==> !FilterMatches(f, x)
  {
    for i := 0 to |items|
      invariant forall k :: 0 <= k < i ==> !FilterMatches(f, items[k])
    {
      if !Matches(f.version.selector, items[i].version) || !PlatformMatches(f.platform, items[i].platform) {
        continue;
      }
      return Some(items[i]);
    }
    return None;
  }

  /** The newest local candidate. */
  method BestLocal(entries: seq<Entry>, f: ItemFilter) returns (crashed: bool, r: Option<Item>)
    ensures crashed <==> exists e :: e in entries && Panics(e)
    ensures !crashed && r.Some? ==> LocalCandidate(entries, f, r.value) && NoLocalNewer(entries, f, r.value.version)
    ensures !crashed && r.None? ==> forall item :: !LocalCandidate(entries, f, item)
  {
    var listed := List(entries, f);
    if listed.None? {
      return true, None;
    }
    r := FirstMatching(listed.value, f);
    crashed := false;
    forall item ensures item in listed.value <==> LocalCandidate(entries, f, item) {
      SelectedMember(entries, f, item);
      assert item in multiset(listed.value) <==> item in multiset(Selected(entries, f));
    }
  }

  datatype Ending = Returned | Exited | Crashed

  class Env {
    var platform: PlatformItem
    var version: Spec
    const noDownload: bool
    const forceDownload: bool

    constructor (p: PlatformItem, v: Spec, no: bool, force: bool)
      ensures platform == p && version == v && noDownload == no && forceDownload == force
    {
      platform, version, noDownload, forceDownload := p, v, no, force;
    }

    ghost function Wanted(): ItemFilter
      reads this
    {
      ItemFilter(version, platform.platform)
    }

    /**
     `entries` is the store directory and `sets` the remote listing; None means that reading it failed.
     */
    method EnsureVersionIsSet(entries: Option<seq<Entry>>, sets: Option<seq<VersionSet>>) returns (ending: Ending)
      requires sets.Some? ==> NewestFirst(sets.value)
      modifies this
      ensures AsConcrete(old(version).selector).Some? ==>
                ending.Returned? && version == old(version) && platform == old(platform)
      ensures AsConcrete(old(version).selector).None? && ending.Returned? ==>
                && entries.Some? && AsConcrete(version.selector).Some? && !version.checkLatest
                && ChoiceIsRight(entries.value, sets, old(Wanted()), noDownload, forceDownload,
                                 AsConcrete(version.selector).value, platform.platform)
      ensures ending.Returned? && !IsWildcard(old(platform).platform) && !IsWildcard(platform.platform) ==>
                platform.platform == old(platform).platform
      ensures AsConcrete(old(version).selector).None? && ending.Returned? ==>
                ChecksumIsRight(entries.value, sets, old(Wanted()), noDownload, forceDownload,
                                AsConcrete(version.selector).value, old(platform), platform)
      ensures ending.Exited? <==>
                && AsConcrete(old(version).selector).None? && !ending.Crashed?
                && (entries.None? || NothingToChoose(entries.value, sets, old(Wanted()), noDownload))
      ensures !ending.Returned? ==> version == old(version) && platform == old(platform)
      ensures ending.Crashed? <==>
                AsConcrete(old(version).selector).None? && entries.Some? && exists e :: e in entries.value && Panics(e)
    {
      if AsConcrete(version.selector).Some? {
        return Returned;
      }
      if entries.None? {
        return Exited;
      }
      var f := ItemFilter(version, platform.platform);
      forall q ensures !IsWildcard(f.platform) && !IsWildcard(q) && PlatformMatches(f.platform, q) ==> q == f.platform {
        MatchesIffCommon(f.platform, q);
      }
      var crashed, local := BestLocal(entries.value, f);
      if crashed {
        return Crashed;
      }
      if noDownload || !version.checkLatest {
        if local.Some? {
          version := Spec(Exact(local.value.version), false);
          platform := platform.(platform := local.value.platform);
          return Returned;
        }
        if noDownload {
          return Exited;
        }
      }
      if sets.None? {
        return Exited;
      }
      var server := LatestVersion(sets.value, f);
      if server.None? {
        return Exited;
      }
      if !forceDownload && local.Some? && NewerThan(local.value.version, server.value.0) {
        NewerThanAllRemote(sets.value, f, local.value.version, server.value.0);
        platform := platform.(platform := local.value.platform);
        version := Spec(Exact(local.value.version), false);
        return Returned;
      }
      if !forceDownload && local.Some? {
        NoLocalNewerThan(entries.value, f, local.value.version, server.value.0);
      }
      platform := server.value.1;
      version := Spec(Exact(server.value.0), false);
      return Returned;
    }
  }

  /** The remote has to be asked: it may be, and either the latest is wanted or there is nothing local. */
  ghost predicate AsksRemote(entries: seq<Entry>, f: ItemFilter, noDownload: bool) {
    !noDownload && (f.version.checkLatest || forall item :: !LocalCandidate(entries, f, item))
  }

  /** Neither the store nor, where it is asked, the remote has a candidate. */
  ghost predicate NothingToChoose(entries: seq<Entry>, sets: Option<seq<VersionSet>>, f: ItemFilter, noDownload: bool) {
    || (noDownload && forall item :: !LocalCandidate(entries, f, item))
    || (AsksRemote(entries, f, noDownload) && (sets.None? || forall v, p :: !RemoteCandidate(sets.value, f, v, p)))
  }

  /** A remote choice brings its own checksum; a local one keeps the old, and has to be newer where the remote is asked. */
  ghost predicate ChecksumIsRight(entries: seq<Entry>, sets: Option<seq<VersionSet>>, f: ItemFilter, noDownload: bool,
                                  force: bool, v: Concrete, was: PlatformItem, now: PlatformItem)
  {
    if AsksRemote(entries, f, noDownload) then
      && sets.Some?
      && (RemoteCandidate(sets.value, f, v, now)
          || (!force && now.md5 == was.md5 && forall w, p :: RemoteCandidate(sets.value, f, w, p) ==> NewerThan(v, w)))
    else now.md5 == was.md5
  }

  /** The chosen version and platform are a candidate, and no candidate that counts is newer. */
  ghost predicate ChoiceIsRight(entries: seq<Entry>, sets: Option<seq<VersionSet>>, f: ItemFilter, noDownload: bool,
                                force: bool, v: Concrete, p: Platform)
  {
    && FilterMatches(f, Item(v, p))
    && if !AsksRemote(entries, f, noDownload) then
         LocalCandidate(entries, f, Item(v, p)) && NoLocalNewer(entries, f, v)
       else
         && sets.Some?
         && NoRemoteNewer(sets.value, f, v)
         && (force ==> IsRemote(sets.value, f, v, p))
         && (!force ==> NoLocalNewer(entries, f, v)
                        && (IsRemote(sets.value, f, v, p) || LocalCandidate(entries, f, Item(v, p))))
  }

  ghost predicate IsRemote(sets: seq<VersionSet>, f: ItemFilter, v: Concrete, p: Platform) {
    exists md5 :: RemoteCandidate(sets, f, v, PlatformItem(p, md5))
  }

  lemma NewerThanAllRemote(sets: seq<VersionSet>, f: ItemFilter, v: Concrete, best: Concrete)
    requires NoRemoteNewer(sets, f, best) && NewerThan(v, best)
    ensures NoRemoteNewer(sets, f, v) && forall w, p :: RemoteCandidate(sets, f, w, p) ==> NewerThan(v, w)
  {
    forall w, p | RemoteCandidate(sets, f, w, p) ensures !NewerThan(w, v) && NewerThan(v, w) {
      NewerIsStrictTotalOrder(w, v, best);
      NewerIsStrictTotalOrder(v, best, w);
      NewerIsStrictTotalOrder(best, w, v);
    }
  }

  lemma NoLocalNewerThan(entries: seq<Entry>, f: ItemFilter, best: Concrete, v: Concrete)
    requires NoLocalNewer(entries, f, best) && !NewerThan(best, v)
    ensures NoLocalNewer(entries, f, v)
  {
    forall item | LocalCandidate(entries, f, item) ensures !NewerThan(item.version, v) {
      NewerIsStrictTotalOrder(item.version, v, best);
      NewerIsStrictTotalOrder(item.version, best, v);
      NewerIsStrictTotalOrder(best, v, item.version);
    }
  }
}
