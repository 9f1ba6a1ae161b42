/**
 * `Overlays`, the object the gRPC node service drives: its locked map of
 * volumes per base, together with the pool on disk and the markers in the
 * volumes' directories. Each method is one critical section; its contract
 * ties the new state to the matching step of `Engine`.
 */
module Driver {
  import opened Wrappers
  import opened Paths
  import opened Bases
  import opened Engine

  class Overlays {
    const config: Config
    /** The base directories on disk, with the time in their marker. */
    var pool: map<Base, Option<int>>
    /** `lock: Mutex<HashMap<Base, HashSet<String>>>`. */
    var mapping: Volumes
    /** The volume ids whose backing directory holds `.as_base` (written by their workload). */
    var marked: set<string>

    function Snapshot(): State
      reads this
    {
      State(pool, mapping, marked)
    }

    ghost predicate Valid()
      reads this
    {
      Inv(Snapshot())
    }

    /** `from_flags`: `bases_host` is the driver pod's own "bases" empty-dir;
        the map starts empty. The pool and the markers are what is on disk. */
    constructor (pods: Path, podId: string, maxAge: int, onDisk: map<Base, Option<int>>, markers: set<string>)
      ensures Valid()
      ensures config == Config(pods, BasesHost(pods, podId), maxAge)
      ensures Snapshot() == State(onDisk, map[], markers)
    {
      config := Config(pods, BasesHost(pods, podId), maxAge);
      pool := onDisk;
      mapping := map[];
      marked := markers;
    }

    /** `mount(id, target)` for a volume whose storage pod has uid `podUid`. */
    method Mount(id: string, target: Path, podUid: string, listing: Option<seq<Base>>, now: int, runOk: bool)
      returns (r: Result<MountCommand, Error>)
      requires Valid() && ListingOk(listing, pool)
      modifies this
      ensures Valid()
      ensures Step(Snapshot(), r) == MountStep(config, old(Snapshot()), id, target, podUid, listing, now, runOk)
    {
      MountPreservesInv(config, Snapshot(), id, target, podUid, listing, now, runOk);
      if listing.None? {
        return Err(ReadDirFailed);
      }
      var volumeDir := VolumeDir(config.pods, podUid);
      var found := FindValidBase(listing.value, pool, now, config.maxAge);
      if found.Some? {
        var base := found.value;
        var cmd := OverlayMount(id, MountOptions(base.path, volumeDir), target);
        if !runOk {
          return Err(MountFailed(cmd));
        }
        var volumes := if base in mapping then mapping[base] else {};
        mapping := mapping[base := volumes + {id}];
        r := Ok(cmd);
      } else {
        var cmd := BindMount(volumeDir, target);
        if !runOk {
          return Err(MountFailed(cmd));
        }
        r := Ok(cmd);
      }
    }

    /** `unmount(id, target)` for a volume whose storage pod has uid `podUid`. */
    method Unmount(id: string, podUid: string, listing: Option<seq<Base>>, now: int, renameOk: bool)
      returns (r: Result<Option<Base>, Error>)
      requires Valid()
      modifies this
      ensures Valid()
      ensures Step(Snapshot(), r) == UnmountStep(config, old(Snapshot()), id, podUid, listing, now, renameOk)
    {
      UnmountPreservesInv(config, Snapshot(), id, podUid, listing, now, renameOk);
      ghost var s0 := Snapshot();
      var isOverlay := exists b :: b in mapping && id in mapping[b];
      assert isOverlay == Attached(s0.mapping, id);
      var noValidBase := listing.None? || FindValidBase(listing.value, pool, now, config.maxAge).None?;
      assert noValidBase == NoValidBase(config, s0, listing, now);
      var promoted := None;
      if !isOverlay && noValidBase && id in marked {
        var base := BaseHost(config.basesHost, id);
        if !renameOk {
          return Err(RenameFailed(VolumeDir(config.pods, podUid), base.path));
        }
        pool := pool[base := Some(now)];
        promoted := Some(base);
      }
      ghost var before, promotedPool := mapping, pool;
      var todo := mapping.Keys;
      while todo != {}
        invariant pool == promotedPool && marked == s0.marked
        invariant todo <= mapping.Keys == before.Keys
        invariant forall b :: b in mapping ==> mapping[b] == if b in todo then before[b] else before[b] - {id}
        decreases todo
      {
        var b :| b in todo;
        mapping := mapping[b := mapping[b] - {id}];
        todo := todo - {b};
      }
      assert mapping == Detach(s0.mapping, id);
      marked := marked - {id};
      r := Ok(promoted);
    }

    /** `cleanup()`: `failing` holds the bases whose `remove_dir_all` fails. */
    method Cleanup(listing: Option<seq<Base>>, now: int, failing: set<Base>) returns (r: Result<(), Error>)
      requires Valid() && ListingOk(listing, pool)
      modifies this
      ensures Valid()
      ensures Step(Snapshot(), r) == CleanupStep(config, old(Snapshot()), listing, now, failing)
    {
      CleanupPreservesInv(config, Snapshot(), listing, now, failing);
      if listing.None? {
        return Err(ReadDirFailed);
      }
      var bases := listing.value;
      var i := 0;
      while i < |bases|
        invariant 0 <= i <= |bases|
        invariant Sweep(bases, old(Snapshot()), now, config.maxAge, failing)
               == Sweep(bases[i..], Snapshot(), now, config.maxAge, failing)
      {
        var base := bases[i];
        assert bases[i..][1..] == bases[i + 1..];
        if !IsValid(TimeOf(pool, base), now, config.maxAge) {
          var volumes := if base in mapping then mapping[base] else {};
          mapping := mapping[base := volumes];
          if volumes == {} {
            if base in failing {
              return Err(RemoveFailed(base));
            }
            pool := pool - {base};
            mapping := mapping - {base};
          }
        }
        i := i + 1;
      }
      r := Ok(());
    }
  }

  /** The lifecycle of `PromotionRoundTrip`, run against the object. */
  method PromotionScenario(pods: Path, podId: string)
  {
    var o := new Overlays(pods, podId, 3600, map[], {});
    var r1 := o.Mount("a", Path(true, ["mnt", "a"]), "uid-a", Some([]), 0, true);
    assert r1 == Ok(BindMount(VolumeDir(pods, "uid-a"), Path(true, ["mnt", "a"])));
    o.marked := o.marked + {"a"};
    var u1 := o.Unmount("a", "uid-a", Some([]), 0, true);
    var b1 := BaseHost(BasesHost(pods, podId), "a");
    assert u1 == Ok(Some(b1));
    assert o.pool == map[b1 := Some(0)];
    assert FindValidBase([b1], o.pool, 10, 3600) == Some(b1);
    var r2 := o.Mount("c", Path(true, ["mnt", "c"]), "uid-c", Some([b1]), 10, true);
    assert r2.Ok? && r2.value.OverlayMount?;
    ghost var beforeCleanup := o.Snapshot();
    assert VolumesOf(beforeCleanup.mapping, b1) == {"c"};
    var clean := o.Cleanup(Some([b1]), 7200, {});
    CleanupKeepsLiveBases(o.config, beforeCleanup, Some([b1]), 7200, {});
    assert b1 in o.pool;
  }
}
