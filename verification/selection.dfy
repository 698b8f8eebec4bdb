/** Which satellite Mission Control picks for a platform. */
module Selection {
  import opened Wrappers
  import opened Entries
  import opened Platforms

  type Discovered = seq<(string, SatelliteEntry)>

  predicate IdleNative(e: SatelliteEntry, arch: string) { e.status == IDLE && e.nativeArch == arch }

  predicate IdleOffering(e: SatelliteEntry, platform: string) { e.status == IDLE && platform in e.platforms }

  function NativeTo(arch: string): SatelliteEntry -> bool { (e: SatelliteEntry) => IdleNative(e, arch) }

  function Offering(platform: string): SatelliteEntry -> bool { (e: SatelliteEntry) => IdleOffering(e, platform) }

  /** `filter(eligible).max_by_key(registered_at)`: of equal maxima the last one wins. */
  function Latest(entries: Discovered, eligible: SatelliteEntry -> bool): Option<SatelliteEntry> {
    if entries == [] then None
    else
      var best := Latest(entries[..|entries| - 1], eligible);
      var e := entries[|entries| - 1].1;
      if !eligible(e) then best
      else if best.Some? && best.value.registeredAt > e.registeredAt then best
      else Some(e)
  }

  /** `select_satellite_for_platform`: native first, then emulated. */
  function Select(entries: Discovered, platform: string): Option<SatelliteEntry>
    requires '/' in platform
  {
    var native := Latest(entries, NativeTo(ArchOf(platform)));
    if native.Some? then native
    else Latest(entries, Offering(platform))
  }

  ghost predicate IsLatest(entries: Discovered, eligible: SatelliteEntry -> bool, i: int) {
    && 0 <= i < |entries| && eligible(entries[i].1)
    && forall j :: 0 <= j < |entries| && eligible(entries[j].1) ==>
         if i < j then entries[j].1.registeredAt < entries[i].1.registeredAt
         else entries[j].1.registeredAt <= entries[i].1.registeredAt
  }

  lemma LatestGrows(entries: Discovered, eligible: SatelliteEntry -> bool, i: int)
    requires entries != [] && IsLatest(entries[..|entries| - 1], eligible, i)
    requires eligible(entries[|entries| - 1].1) ==>
               entries[|entries| - 1].1.registeredAt < entries[i].1.registeredAt
    ensures IsLatest(entries, eligible, i)
  {
    var before := entries[..|entries| - 1];
    forall j | 0 <= j < |entries| && eligible(entries[j].1)
      ensures if i < j then entries[j].1.registeredAt < entries[i].1.registeredAt
              else entries[j].1.registeredAt <= entries[i].1.registeredAt
    {
      if j < |before| {
        assert before[j] == entries[j];
      }
    }
  }

  lemma {:induction false} LatestSpec(entries: Discovered, eligible: SatelliteEntry -> bool)
    ensures Latest(entries, eligible).None? <==> forall i :: 0 <= i < |entries| ==> !eligible(entries[i].1)
    ensures Latest(entries, eligible).Some? ==>
              exists i :: IsLatest(entries, eligible, i) && entries[i].1 == Latest(entries, eligible).value
  {
    if entries != [] {
      var n := |entries| - 1;
      var before := entries[..n];
      LatestSpec(before, eligible);
      assert forall i :: 0 <= i < n ==> entries[i] == before[i];
      var best := Latest(before, eligible);
      if best.Some? {
        var i :| IsLatest(before, eligible, i) && before[i].1 == best.value;
        assert eligible(entries[i].1);
        if Latest(entries, eligible) == best && !(eligible(entries[n].1) && entries[n].1 == best.value) {
          LatestGrows(entries, eligible, i);
        } else {
          assert IsLatest(entries, eligible, n);
        }
      } else if eligible(entries[n].1) {
        assert IsLatest(entries, eligible, n);
      }
    }
  }

  lemma LatestIgnoresOrder(xs: Discovered, ys: Discovered, eligible: SatelliteEntry -> bool)
    requires forall x :: x in xs <==> x in ys
    ensures Latest(xs, eligible).Some? <==> Latest(ys, eligible).Some?
    ensures Latest(xs, eligible).Some? ==>
              Latest(xs, eligible).value.registeredAt == Latest(ys, eligible).value.registeredAt
  {
    LatestSpec(xs, eligible);
    LatestSpec(ys, eligible);
    if Latest(xs, eligible).Some? {
      var i :| IsLatest(xs, eligible, i) && xs[i].1 == Latest(xs, eligible).value;
      assert xs[i] in ys;
      var j :| 0 <= j < |ys| && ys[j] == xs[i];
      assert eligible(ys[j].1);
    }
    if Latest(ys, eligible).Some? {
      var j :| IsLatest(ys, eligible, j) && ys[j].1 == Latest(ys, eligible).value;
      assert ys[j] in xs;
      var i :| 0 <= i < |xs| && xs[i] == ys[j];
      assert eligible(xs[i].1);
    }
  }

  ghost predicate SomeIdleNative(entries: Discovered, platform: string)
    requires '/' in platform
  {
    exists i :: 0 <= i < |entries| && entries[i].1.status == IDLE && entries[i].1.nativeArch == ArchOf(platform)
  }

  /** The class selection draws from: idle native entries if there is one, else idle entries that list the platform. */
  ghost function ClassOf(entries: Discovered, platform: string): SatelliteEntry -> bool
    requires '/' in platform
  {
    var native := SomeIdleNative(entries, platform);
    (e: SatelliteEntry) =>
      e.status == IDLE && if native then e.nativeArch == ArchOf(platform) else platform in e.platforms
  }

  /**
   The result is the last of the most recently registered entries of its class,
   native whenever any idle native entry exists; nothing is returned exactly if
   no idle entry is native to the platform or lists it.
   */
  lemma SelectSpec(entries: Discovered, platform: string)
    requires '/' in platform
    ensures Select(entries, platform).Some? <==>
              exists i :: 0 <= i < |entries| && entries[i].1.status == IDLE
                          && (entries[i].1.nativeArch == ArchOf(platform) || platform in entries[i].1.platforms)
    ensures Select(entries, platform).Some? ==>
              exists i :: IsLatest(entries, ClassOf(entries, platform), i)
                          && entries[i].1 == Select(entries, platform).value
  {
    var native := NativeTo(ArchOf(platform));
    var offering := Offering(platform);
    LatestSpec(entries, native);
    LatestSpec(entries, offering);
    if Latest(entries, native).Some? {
      var i :| IsLatest(entries, native, i) && entries[i].1 == Latest(entries, native).value;
      assert native(entries[i].1);
      assert IsLatest(entries, ClassOf(entries, platform), i);
    } else {
      assert forall i :: 0 <= i < |entries| ==> !native(entries[i].1);
      assert !SomeIdleNative(entries, platform);
      if Latest(entries, offering).Some? {
        var i :| IsLatest(entries, offering, i) && entries[i].1 == Latest(entries, offering).value;
        assert offering(entries[i].1);
        assert IsLatest(entries, ClassOf(entries, platform), i);
      } else {
        assert forall i :: 0 <= i < |entries| ==> !offering(entries[i].1);
      }
    }
  }

  lemma SelectedIsIdle(entries: Discovered, platform: string)
    requires '/' in platform && Select(entries, platform).Some?
    ensures
      var e := Select(entries, platform).value;
      && e.status == IDLE && (exists i :: 0 <= i < |entries| && entries[i].1 == e)
      && (e.nativeArch == ArchOf(platform) <==> SomeIdleNative(entries, platform))
      && (e.nativeArch == ArchOf(platform) || platform in e.platforms)
  {
    SelectSpec(entries, platform);
    var i :| IsLatest(entries, ClassOf(entries, platform), i) && entries[i].1 == Select(entries, platform).value;
    assert ClassOf(entries, platform)(entries[i].1);
  }

  lemma BranchTaken(entries: Discovered, platform: string)
    requires '/' in platform && Select(entries, platform).Some?
    ensures Select(entries, platform).value.nativeArch == ArchOf(platform)
            <==> Latest(entries, NativeTo(ArchOf(platform))).Some?
  {
    LatestSpec(entries, NativeTo(ArchOf(platform)));
    SelectedIsIdle(entries, platform);
  }

  lemma SameMembers<T>(xs: seq<T>, ys: seq<T>)
    requires multiset(xs) == multiset(ys)
    ensures forall x :: x in xs <==> x in ys
  {
    forall x
      ensures x in xs <==> x in ys
    {
      assert x in xs <==> x in multiset(xs);
      assert x in ys <==> x in multiset(ys);
    }
  }

  /** The Doc's listing order cannot change which class is chosen, nor the timestamp of the choice. */
  lemma SelectIgnoresOrder(xs: Discovered, ys: Discovered, platform: string)
    requires '/' in platform && multiset(xs) == multiset(ys)
    ensures Select(xs, platform).Some? <==> Select(ys, platform).Some?
    ensures Select(xs, platform).Some? ==>
              && (Select(xs, platform).value.nativeArch == ArchOf(platform)
                  <==> Select(ys, platform).value.nativeArch == ArchOf(platform))
              && Select(xs, platform).value.registeredAt == Select(ys, platform).value.registeredAt
  {
    SameMembers(xs, ys);
    LatestIgnoresOrder(xs, ys, NativeTo(ArchOf(platform)));
    LatestIgnoresOrder(xs, ys, Offering(platform));
    if Select(xs, platform).Some? {
      BranchTaken(xs, platform);
      BranchTaken(ys, platform);
    }
  }

  /** What registration makes of an entry: its native platform is listed first. */
  ghost predicate Registered(e: SatelliteEntry) {
    '/' !in e.nativeArch && e.platforms != [] && e.platforms[0] == LINUX + e.nativeArch
  }

  ghost predicate AllRegistered(entries: Discovered) {
    forall i :: 0 <= i < |entries| ==> Registered(entries[i].1)
  }

  ghost predicate Advertised(entries: Discovered, platform: string) {
    exists i :: 0 <= i < |entries| && entries[i].1.status == IDLE && platform in entries[i].1.platforms
  }

  /** For a plain platform the native branch, which never looks at the list, agrees with the list. */
  lemma SelectedAdvertises(entries: Discovered, platform: string)
    requires Plain(platform) && AllRegistered(entries)
    ensures '/' in platform
    ensures Select(entries, platform).Some? <==> Advertised(entries, platform)
    ensures Select(entries, platform).Some? ==> platform in Select(entries, platform).value.platforms
  {
    PlainIsLinuxArch(platform);
    SelectSpec(entries, platform);
    assert forall i :: 0 <= i < |entries| ==> Registered(entries[i].1);
    assert forall i :: 0 <= i < |entries| && entries[i].1.nativeArch == ArchOf(platform) ==>
        entries[i].1.platforms[0] == platform;
    if Select(entries, platform).Some? {
      SelectedIsIdle(entries, platform);
    }
  }
}
