/**
 The heap side of publishing (poller.go): Go maps are mutable objects, a
 published set points at one, and the store is an atomic pointer that scrapes
 load without a lock.
 */
module SnapshotStore {
  import opened Wrappers
  import opened Model
  import opened Journal
  import opened Sweeps

  /** A Go map: assigning an entry changes it for everyone holding the reference. */
  class GoMap<D> {
    var entries: SnapshotMap<D>

    constructor (entries: SnapshotMap<D>)
      ensures this.entries == entries
    {
      this.entries := entries;
    }

    method Assign(device: string, s: Snapshot<D>)
      modifies this
      ensures entries == old(entries)[device := s]
    {
      entries := entries[device := s];
    }

    /** maps.Clone: equal entries in a map of its own. */
    method Clone() returns (copy: GoMap<D>)
      ensures fresh(copy) && copy.entries == entries
    {
      copy := new GoMap(entries);
    }
  }

  /** A snapshotSet; the set stored for an empty discovery has a nil map. */
  class SnapshotSet<D> {
    const byDevice: GoMap?<D>

    constructor (byDevice: GoMap?<D>)
      ensures this.byDevice == byDevice
    {
      this.byDevice := byDevice;
    }

    function Contents(): SnapshotMap<D>
      reads byDevice
    {
      if byDevice == null then map[] else byDevice.entries
    }
  }

  /** atomic.Pointer to the current set. */
  class Store<D> {
    var current: SnapshotSet?<D>
    /** Every set a scrape may have loaded, and what each held when it was stored. */
    ghost var sets: seq<SnapshotSet<D>>
    ghost var contents: seq<SnapshotMap<D>>

    /** The maps behind the published sets. */
    ghost function Maps(): set<GoMap<D>>
      reads this
    {
      set s | s in sets && s.byDevice != null :: s.byDevice
    }

    /** No published set has changed since it was stored. */
    ghost predicate Valid()
      reads this, Maps()
    {
      && |sets| == |contents|
      && (forall i | 0 <= i < |sets| :: sets[i].Contents() == contents[i])
      && current == (if sets == [] then null else sets[|sets| - 1])
    }

    constructor ()
      ensures Valid() && sets == [] && contents == []
    {
      current := null;
      sets, contents := [], [];
    }

    /** What a scrape loading the pointer now would find. */
    ghost function Loaded(): Option<SnapshotMap<D>>
      reads this
    {
      if contents == [] then None else Some(contents[|contents| - 1])
    }

    method Publish(s: SnapshotSet<D>)
      requires Valid()
      modifies this
      ensures Valid()
      ensures sets == old(sets) + [s] && contents == old(contents) + [s.Contents()]
    {
      current := s;
      sets := sets + [s];
      contents := contents + [s.Contents()];
    }

    /** Load the pointer, as a scrape or a sweep does. */
    method Load() returns (s: SnapshotSet?<D>)
      requires Valid()
      ensures s == current && ContentsOf(s) == Loaded()
    {
      s := current;
      if s != null {
        assert sets[|sets| - 1].Contents() == contents[|contents| - 1];
      }
    }

    /** Earlier sets and their contents are still there, and only maps of the store's own making were added. */
    twostate predicate Grown()
      reads this
    {
      && old(sets) <= sets && old(contents) <= contents
      && forall m :: m in Maps() ==> m in old(Maps()) || fresh(m)
    }

    /** A set that was ever published, and may still be in a reader's hands, never changes. */
    twostate lemma PublishedNeverChanges(s: SnapshotSet<D>)
      requires old(Valid()) && Valid() && Grown() && s in old(sets)
      ensures s.Contents() == old(s.Contents())
    {
      var i :| 0 <= i < |old(sets)| && old(sets)[i] == s;
      assert old(s.Contents()) == old(contents)[i] && sets[i] == s;
    }

    /** Publish the set with no devices. */
    method PublishEmpty()
      requires Valid()
      modifies this
      ensures Valid() && Grown() && contents == old(contents) + [map[]]
    {
      var s := new SnapshotSet(null);
      Publish(s);
    }

    /** Publish a copy of the working map, which keeps being written to. */
    method PublishCopy(working: GoMap<D>)
      requires Valid()
      modifies this
      ensures Valid() && contents == old(contents) + [working.entries]
      ensures Grown()
    {
      var copy := working.Clone();
      var s := new SnapshotSet(copy);
      Publish(s);
    }
  }

  /** What a loaded set holds; nil before the first publish. */
  ghost function ContentsOf<D>(s: SnapshotSet?<D>): Option<SnapshotMap<D>>
    reads if s == null || s.byDevice == null then {} else {s.byDevice}
  {
    if s == null then None else Some(s.Contents())
  }

  /** snapshotSet.lookup */
  method LookupIn<D>(s: SnapshotSet?<D>, device: string) returns (found: Option<Snapshot<D>>)
    ensures found == StoreLookup(ContentsOf(s), device)
  {
    if s == null || s.byDevice == null { return None; }
    if device in s.byDevice.entries { return Some(s.byDevice.entries[device]); }
    return None;
  }

  /** A fresh map for the sweep to write to, holding the entries worth keeping. */
  method SeedWorking<D>(previous: SnapshotSet?<D>, targets: seq<Target>) returns (working: GoMap<D>)
    ensures fresh(working) && working.entries == Seed(ContentsOf(previous), targets)
  {
    working := new GoMap(map[]);
    for i := 0 to |targets|
      invariant fresh(working)
      invariant working.entries == Seed(ContentsOf(previous), targets[..i])
    {
      var s := LookupIn(previous, targets[i].device);
      SeedExtends(ContentsOf(previous), targets, i);
      if s.Some? {
        working.Assign(targets[i].device, s.value);
      }
    }
    assert targets[..|targets|] == targets;
  }

  lemma SeedExtends<D>(store: Option<SnapshotMap<D>>, targets: seq<Target>, i: nat)
    requires i < |targets|
    ensures StoreLookup(store, targets[i].device).None? ==> Seed(store, targets[..i + 1]) == Seed(store, targets[..i])
    ensures StoreLookup(store, targets[i].device).Some? ==>
              Seed(store, targets[..i + 1])
              == Seed(store, targets[..i])[targets[i].device := StoreLookup(store, targets[i].device).value]
  {
    var a, b := Seed(store, targets[..i]), Seed(store, targets[..i + 1]);
    assert targets[..i + 1] == targets[..i] + [targets[i]];
    forall d ensures Among(d, targets[..i + 1]) <==> Among(d, targets[..i]) || d == targets[i].device {
      if t :| t in targets[..i] && t.device == d { assert t in targets[..i + 1]; }
      assert targets[i] in targets[..i + 1];
    }
    if store.Some? {
      assert forall d :: d in b <==> d in a || (d == targets[i].device && d in store.value);
    }
  }
}
