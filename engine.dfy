/**
 * The bookkeeping of `Overlays` as atomic steps on a value state. Each of
 * `mount`, `unmount` and `cleanup` runs under the driver's lock, so each is one
 * step here. Kubernetes, the clock, `read_dir` and the mount commands are
 * inputs of the steps.
 */
module Engine {
  import opened Wrappers
  import opened Paths
  import opened Bases

  /** `HashMap<Base, HashSet<String>>`: the volume ids overlaid on each base. */
  type Volumes = map<Base, set<string>>

  /** The flags fixed at start-up: `flags.pods`, `bases_host` and `flags.max_age_s`. */
  datatype Config = Config(pods: Path, basesHost: Path, maxAge: int)

  /**
   * `pool`: the base directories on disk, with the time in their marker;
   * `mapping`: the driver's in-memory map;
   * `marked`: the volume ids whose backing directory holds `.as_base`.
   */
  datatype State = State(pool: map<Base, Option<int>>, mapping: Volumes, marked: set<string>)

  /** The mount command the driver runs. */
  datatype MountCommand =
    | OverlayMount(device: string, options: string, target: Path)
    | BindMount(source: Path, target: Path)

  datatype Error =
    | ReadDirFailed
    | MountFailed(command: MountCommand)
    | RenameFailed(source: Path, destination: Path)
    | RemoveFailed(base: Base)

  datatype Step<T> = Step(state: State, result: Result<T, Error>)

  /** Every base the map mentions is on disk. */
  ghost predicate Inv(s: State)
  {
    s.mapping.Keys <= s.pool.Keys
  }

  /** A `read_dir` of the pool either failed or listed it exactly. */
  ghost predicate ListingOk(listing: Option<seq<Base>>, pool: map<Base, Option<int>>)
  {
    listing.Some? ==> Lists(listing.value, pool)
  }

  function VolumesOf(m: Volumes, b: Base): set<string>
  {
    if b in m then m[b] else {}
  }

  /** `mapping.values().flatten().any(|v| v == id)`. */
  predicate Attached(m: Volumes, id: string)
  {
    exists b :: b in m && id in m[b]
  }

  /** `mapping.entry(b).or_default().insert(id)`. */
  function Attach(m: Volumes, b: Base, id: string): (r: Volumes)
    ensures r.Keys == m.Keys + {b}
    ensures r[b] == VolumesOf(m, b) + {id}
    ensures forall c :: c in m && c != b ==> r[c] == m[c]
  {
    m[b := VolumesOf(m, b) + {id}]
  }

  /** `for volumes in mapping.values_mut() { volumes.remove(id); }`. */
  function Detach(m: Volumes, id: string): (r: Volumes)
    ensures r.Keys == m.Keys
    ensures !Attached(r, id)
    ensures forall b, v :: v != id ==> (b in m && v in m[b] <==> b in r && v in r[b])
  {
    map b | b in m :: m[b] - {id}
  }

  /** Detaching a volume that is on no base changes nothing. */
  lemma DetachAbsent(m: Volumes, id: string)
    requires !Attached(m, id)
    ensures Detach(m, id) == m
  {
    forall b | b in m ensures Detach(m, id)[b] == m[b] {
      assert id !in m[b];
    }
  }

  /** Detaching undoes attaching, except that the base keeps an (emptied) entry. */
  lemma DetachAttach(m: Volumes, b: Base, id: string)
    requires !Attached(m, id)
    ensures Detach(Attach(m, b, id), id) == m[b := VolumesOf(m, b)]
  {
    var lhs, rhs := Detach(Attach(m, b, id), id), m[b := VolumesOf(m, b)];
    assert id !in VolumesOf(m, b);
    forall c | c in lhs ensures lhs[c] == rhs[c] {
      if c != b { assert id !in m[c]; }
    }
  }

  /** `find_valid_base()` found nothing, or failed. */
  function NoValidBase(c: Config, s: State, listing: Option<seq<Base>>, now: int): bool
  {
    listing.None? || FindValidBase(listing.value, s.pool, now, c.maxAge).None?
  }

  // ---------------------------------------------------------------------
  // mount

  /**
   * `Overlays::mount` of volume `id` at `target`, whose storage pod has uid
   * `podUid`; `runOk` says whether creating the directories and running the
   * mount command succeed.
   */
  function MountStep(c: Config, s: State, id: string, target: Path, podUid: string,
                     listing: Option<seq<Base>>, now: int, runOk: bool): (r: Step<MountCommand>)
    ensures listing.None? ==> r == Step(s, Err(ReadDirFailed))
    ensures r.result.Err? ==> r.state == s
    ensures r.state.pool == s.pool && r.state.marked == s.marked
    ensures r.result.Ok? <==> listing.Some? && runOk
    ensures listing.Some? && FindValidBase(listing.value, s.pool, now, c.maxAge).Some? && runOk ==>
      var b := FindValidBase(listing.value, s.pool, now, c.maxAge).value;
      && r.result.value == OverlayMount(id, MountOptions(b.path, VolumeDir(c.pods, podUid)), target)
      && r.state.mapping.Keys == s.mapping.Keys + {b}
      && r.state.mapping[b] == VolumesOf(s.mapping, b) + {id}
      && forall x :: x in s.mapping && x != b ==> r.state.mapping[x] == s.mapping[x]
    ensures NoValidBase(c, s, listing, now) ==> r.state == s
    ensures listing.Some? && NoValidBase(c, s, listing, now) && runOk ==>
      r.result.value == BindMount(VolumeDir(c.pods, podUid), target)
  {
    if listing.None? then Step(s, Err(ReadDirFailed))
    else
      var volumeDir := VolumeDir(c.pods, podUid);
      match FindValidBase(listing.value, s.pool, now, c.maxAge)
      case Some(b) =>
        var cmd := OverlayMount(id, MountOptions(b.path, volumeDir), target);
        if runOk then Step(s.(mapping := Attach(s.mapping, b, id)), Ok(cmd))
        else Step(s, Err(MountFailed(cmd)))
      case None =>
        var cmd := BindMount(volumeDir, target);
        if runOk then Step(s, Ok(cmd)) else Step(s, Err(MountFailed(cmd)))
  }

  lemma MountPreservesInv(c: Config, s: State, id: string, target: Path, podUid: string,
                          listing: Option<seq<Base>>, now: int, runOk: bool)
    requires Inv(s) && ListingOk(listing, s.pool)
    ensures Inv(MountStep(c, s, id, target, podUid, listing, now, runOk).state)
  {
  }

  // ---------------------------------------------------------------------
  // unmount

  /** `base_host(id)`: where a promoted volume is renamed to. */
  function BaseHost(basesHost: Path, id: string): Base
  {
    Base(Child(basesHost, id))
  }

  /**
   * `Overlays::unmount` of volume `id`, whose storage pod has uid `podUid`;
   * `renameOk` says whether renaming its directory into the pool succeeds.
   * The result is the base the volume was promoted into, if any.
   */
  function UnmountStep(c: Config, s: State, id: string, podUid: string,
                       listing: Option<seq<Base>>, now: int, renameOk: bool): (r: Step<Option<Base>>)
    ensures r.result.Err? ==>
      r.state == s && r.result.error == RenameFailed(VolumeDir(c.pods, podUid), BaseHost(c.basesHost, id).path)
    ensures r.result.Ok? ==> r.state.mapping == Detach(s.mapping, id) && r.state.marked == s.marked - {id}
    ensures (r.result.Err? || r.result.value.Some?) <==>
      !Attached(s.mapping, id) && NoValidBase(c, s, listing, now) && id in s.marked
    ensures r.result.Err? <==>
      !Attached(s.mapping, id) && NoValidBase(c, s, listing, now) && id in s.marked && !renameOk
    ensures r.result.Ok? && r.result.value.Some? ==>
      r.result.value.value == BaseHost(c.basesHost, id)
      && r.state.pool == s.pool[BaseHost(c.basesHost, id) := Some(now)]
    ensures r.result.Ok? && r.result.value.None? ==> r.state.pool == s.pool
  {
    var isOverlay := Attached(s.mapping, id);
    var noValidBase := NoValidBase(c, s, listing, now);
    if !isOverlay && noValidBase && id in s.marked then
      var base := BaseHost(c.basesHost, id);
      if !renameOk then Step(s, Err(RenameFailed(VolumeDir(c.pods, podUid), base.path)))
      else Step(State(s.pool[base := Some(now)], Detach(s.mapping, id), s.marked - {id}), Ok(Some(base)))
    else
      Step(s.(mapping := Detach(s.mapping, id), marked := s.marked - {id}), Ok(None))
  }

  /** Unmounting a volume that is on no base leaves the map as it was. */
  lemma UnmountAbsentKeepsMapping(c: Config, s: State, id: string, podUid: string,
                                  listing: Option<seq<Base>>, now: int, renameOk: bool)
    requires !Attached(s.mapping, id)
    ensures UnmountStep(c, s, id, podUid, listing, now, renameOk).state.mapping == s.mapping
  {
    DetachAbsent(s.mapping, id);
  }

  /** Unmounting an overlaid volume never touches the pool. */
  lemma UnmountOverlayKeepsPool(c: Config, s: State, id: string, podUid: string,
                                listing: Option<seq<Base>>, now: int, renameOk: bool)
    requires Attached(s.mapping, id)
    ensures var r := UnmountStep(c, s, id, podUid, listing, now, renameOk);
      r.result == Ok(None) && r.state.pool == s.pool
  {
  }

  /** Over a successful listing of the pool, promotion happens exactly when the
      volume is on no base, no base of the pool is valid, the marker exists and
      the rename succeeds; the new base is then valid if `maxAge` is positive. */
  lemma UnmountPromotesIff(c: Config, s: State, id: string, podUid: string,
                           listing: seq<Base>, now: int, renameOk: bool)
    requires Lists(listing, s.pool)
    ensures var r := UnmountStep(c, s, id, podUid, Some(listing), now, renameOk);
      && (r.result.Ok? && r.result.value.Some? <==>
            && !Attached(s.mapping, id)
            && (forall b :: b in s.pool ==> !IsValid(s.pool[b], now, c.maxAge))
            && id in s.marked && renameOk)
      && (r.result.Ok? && r.result.value.Some? ==>
            (IsValid(r.state.pool[r.result.value.value], now, c.maxAge) <==> c.maxAge > 0))
  {
    FindValidBaseInPool(listing, s.pool, now, c.maxAge);
    FreshBaseValid(now, c.maxAge);
  }

  lemma UnmountPreservesInv(c: Config, s: State, id: string, podUid: string,
                            listing: Option<seq<Base>>, now: int, renameOk: bool)
    requires Inv(s)
    ensures Inv(UnmountStep(c, s, id, podUid, listing, now, renameOk).state)
  {
  }

  // ---------------------------------------------------------------------
  // cleanup

  /** One pass of the loop of `cleanup` over `bases`, stopping at the first
      `remove_dir_all` that fails (those of the bases in `failing`). */
  function Sweep(bases: seq<Base>, s: State, now: int, maxAge: int, failing: set<Base>): Step<()>
    decreases |bases|
  {
    if bases == [] then Step(s, Ok(()))
    else
      var b := bases[0];
      if IsValid(TimeOf(s.pool, b), now, maxAge) then Sweep(bases[1..], s, now, maxAge, failing)
      else
        var volumes := VolumesOf(s.mapping, b);
        var s1 := s.(mapping := s.mapping[b := volumes]);
        if volumes != {} then Sweep(bases[1..], s1, now, maxAge, failing)
        else if b in failing then Step(s1, Err(RemoveFailed(b)))
        else Sweep(bases[1..], s1.(pool := s1.pool - {b}, mapping := s1.mapping - {b}), now, maxAge, failing)
  }

  /** `Overlays::cleanup`. */
  function CleanupStep(c: Config, s: State, listing: Option<seq<Base>>, now: int, failing: set<Base>): (r: Step<()>)
    ensures listing.None? ==> r == Step(s, Err(ReadDirFailed))
  {
    if listing.None? then Step(s, Err(ReadDirFailed)) else Sweep(listing.value, s, now, c.maxAge, failing)
  }

  /** The loop drops bases and leaves every base it does not list as it was. */
  lemma {:induction false} SweepFrame(bases: seq<Base>, s: State, now: int, maxAge: int, failing: set<Base>)
    ensures var r := Sweep(bases, s, now, maxAge, failing).state;
      && r.marked == s.marked
      && (forall b :: b in r.pool ==> b in s.pool && r.pool[b] == s.pool[b])
      && (forall b :: b !in bases ==> (b in r.pool <==> b in s.pool))
      && (forall b :: b !in bases ==> (b in r.mapping <==> b in s.mapping))
      && (forall b :: b !in bases && b in s.mapping ==> r.mapping[b] == s.mapping[b])
    decreases |bases|
  {
    if bases != [] {
      var b := bases[0];
      var volumes := VolumesOf(s.mapping, b);
      var s1 := s.(mapping := s.mapping[b := volumes]);
      var s2 := s1.(pool := s1.pool - {b}, mapping := s1.mapping - {b});
      assert forall x :: x !in bases ==> x !in bases[1..] && x != b;
      SweepFrame(bases[1..], s, now, maxAge, failing);
      SweepFrame(bases[1..], s1, now, maxAge, failing);
      SweepFrame(bases[1..], s2, now, maxAge, failing);
    }
  }

  /** The loop deletes only bases that are invalid and have no volume, and
      removes their entries. */
  lemma {:induction false} SweepSafe(bases: seq<Base>, s: State, now: int, maxAge: int, failing: set<Base>)
    requires Distinct(bases)
    ensures var r := Sweep(bases, s, now, maxAge, failing).state;
      forall b :: b in s.pool && b !in r.pool ==>
        && b in bases
        && !IsValid(s.pool[b], now, maxAge)
        && VolumesOf(s.mapping, b) == {}
        && b !in r.mapping
    decreases |bases|
  {
    if bases != [] {
      var b := bases[0];
      var rest := bases[1..];
      assert Distinct(rest);
      assert b !in rest;
      var volumes := VolumesOf(s.mapping, b);
      var s1 := s.(mapping := s.mapping[b := volumes]);
      var s2 := s1.(pool := s1.pool - {b}, mapping := s1.mapping - {b});
      if IsValid(TimeOf(s.pool, b), now, maxAge) {
        SweepSafe(rest, s, now, maxAge, failing);
      } else if volumes != {} {
        SweepSafe(rest, s1, now, maxAge, failing);
      } else if b !in failing {
        SweepSafe(rest, s2, now, maxAge, failing);
        SweepFrame(rest, s2, now, maxAge, failing);
      }
    }
  }

  /** Bases that survive the loop keep their volume sets; the only entries it
      adds are empty ones. */
  lemma {:induction false} SweepKeeps(bases: seq<Base>, s: State, now: int, maxAge: int, failing: set<Base>)
    ensures var r := Sweep(bases, s, now, maxAge, failing).state;
      && (forall b :: b in s.mapping && b in r.pool ==> b in r.mapping && r.mapping[b] == s.mapping[b])
      && (forall b :: b in r.mapping && b !in s.mapping ==> r.mapping[b] == {})
    decreases |bases|
  {
    if bases != [] {
      var b := bases[0];
      var rest := bases[1..];
      var volumes := VolumesOf(s.mapping, b);
      var s1 := s.(mapping := s.mapping[b := volumes]);
      var s2 := s1.(pool := s1.pool - {b}, mapping := s1.mapping - {b});
      if IsValid(TimeOf(s.pool, b), now, maxAge) {
        SweepKeeps(rest, s, now, maxAge, failing);
      } else if volumes != {} {
        assert s1 == s;
        SweepKeeps(rest, s1, now, maxAge, failing);
      } else if b !in failing {
        SweepKeeps(rest, s2, now, maxAge, failing);
        SweepFrame(rest, s2, now, maxAge, failing);
      }
    }
  }

  /** When the loop runs to the end, every listed base that is invalid and has
      no volume is gone from the pool and from the map. */
  lemma {:induction false} SweepComplete(bases: seq<Base>, s: State, now: int, maxAge: int, failing: set<Base>)
    requires Distinct(bases)
    ensures var r := Sweep(bases, s, now, maxAge, failing);
      r.result.Ok? ==>
        forall b :: b in bases && !IsValid(TimeOf(s.pool, b), now, maxAge) && VolumesOf(s.mapping, b) == {} ==>
          b !in r.state.pool && b !in r.state.mapping
    decreases |bases|
  {
    if bases != [] {
      var b := bases[0];
      var rest := bases[1..];
      assert Distinct(rest);
      assert b !in rest;
      var volumes := VolumesOf(s.mapping, b);
      var s1 := s.(mapping := s.mapping[b := volumes]);
      var s2 := s1.(pool := s1.pool - {b}, mapping := s1.mapping - {b});
      assert forall x :: x in bases && x != b ==> x in rest;
      if IsValid(TimeOf(s.pool, b), now, maxAge) {
        SweepComplete(rest, s, now, maxAge, failing);
      } else if volumes != {} {
        SweepComplete(rest, s1, now, maxAge, failing);
      } else if b !in failing {
        SweepComplete(rest, s2, now, maxAge, failing);
        SweepFrame(rest, s2, now, maxAge, failing);
      }
    }
  }

  lemma {:induction false} SweepPreservesInv(bases: seq<Base>, s: State, now: int, maxAge: int, failing: set<Base>)
    requires Inv(s) && Distinct(bases) && forall b :: b in bases ==> b in s.pool
    ensures Inv(Sweep(bases, s, now, maxAge, failing).state)
    decreases |bases|
  {
    if bases != [] {
      var b := bases[0];
      var rest := bases[1..];
      assert Distinct(rest);
      assert b !in rest;
      var volumes := VolumesOf(s.mapping, b);
      var s1 := s.(mapping := s.mapping[b := volumes]);
      var s2 := s1.(pool := s1.pool - {b}, mapping := s1.mapping - {b});
      if IsValid(TimeOf(s.pool, b), now, maxAge) {
        SweepPreservesInv(rest, s, now, maxAge, failing);
      } else if volumes != {} {
        SweepPreservesInv(rest, s1, now, maxAge, failing);
      } else if b !in failing {
        SweepPreservesInv(rest, s2, now, maxAge, failing);
      }
    }
  }

  /** `cleanup` never deletes a valid base nor one with volumes attached; such
      bases keep their marker time and their volume set. */
  lemma CleanupKeepsLiveBases(c: Config, s: State, listing: Option<seq<Base>>, now: int, failing: set<Base>)
    requires ListingOk(listing, s.pool)
    ensures var r := CleanupStep(c, s, listing, now, failing).state;
      forall b :: b in s.pool && (IsValid(s.pool[b], now, c.maxAge) || VolumesOf(s.mapping, b) != {}) ==>
        && b in r.pool && r.pool[b] == s.pool[b]
        && (b in s.mapping ==> b in r.mapping && r.mapping[b] == s.mapping[b])
  {
    if listing.Some? {
      SweepSafe(listing.value, s, now, c.maxAge, failing);
      SweepFrame(listing.value, s, now, c.maxAge, failing);
      SweepKeeps(listing.value, s, now, c.maxAge, failing);
    }
  }

  /** A `cleanup` that succeeds deletes every base that is invalid and has an
      empty or absent volume set, and drops its entry. */
  lemma CleanupEvictsExpiredIdle(c: Config, s: State, listing: seq<Base>, now: int, failing: set<Base>)
    requires Lists(listing, s.pool)
    ensures var r := CleanupStep(c, s, Some(listing), now, failing);
      r.result.Ok? ==>
        forall b :: b in s.pool && !IsValid(s.pool[b], now, c.maxAge) && VolumesOf(s.mapping, b) == {} ==>
          b !in r.state.pool && b !in r.state.mapping
  {
    SweepComplete(listing, s, now, c.maxAge, failing);
  }

  /** Every base `cleanup` deletes loses its entry; surviving bases keep theirs
      unchanged, and the only entry it may add is an empty one. */
  lemma CleanupUpdatesMapping(c: Config, s: State, listing: Option<seq<Base>>, now: int, failing: set<Base>)
    requires ListingOk(listing, s.pool)
    ensures var r := CleanupStep(c, s, listing, now, failing).state;
      && r.pool.Keys <= s.pool.Keys
      && (forall b :: b in s.pool && b !in r.pool ==> b !in r.mapping)
      && (forall b :: b in s.mapping && b in r.pool ==> b in r.mapping && r.mapping[b] == s.mapping[b])
      && (forall b :: b in r.mapping && b !in s.mapping ==> r.mapping[b] == {})
      && r.marked == s.marked
  {
    if listing.Some? {
      SweepSafe(listing.value, s, now, c.maxAge, failing);
      SweepFrame(listing.value, s, now, c.maxAge, failing);
      SweepKeeps(listing.value, s, now, c.maxAge, failing);
    }
  }

  lemma CleanupPreservesInv(c: Config, s: State, listing: Option<seq<Base>>, now: int, failing: set<Base>)
    requires Inv(s) && ListingOk(listing, s.pool)
    ensures Inv(CleanupStep(c, s, listing, now, failing).state)
  {
    if listing.Some? {
      SweepPreservesInv(listing.value, s, now, c.maxAge, failing);
    }
  }

  // ---------------------------------------------------------------------
  // A whole lifecycle

  /**
   * Publish A on an empty pool (a bind mount), let its workload write the
   * marker, unpublish A (it becomes base B1), publish C (an overlay on B1),
   * unpublish C (nothing promoted, B1 kept with an empty set), publish D
   * (again an overlay on B1).
   */
  lemma PromotionRoundTrip(c: Config, a: string, cId: string, d: string, uidA: string, uidC: string, uidD: string,
                           targetA: Path, targetC: Path, targetD: Path, t0: int, t1: int)
    requires t0 <= t1 < t0 + c.maxAge
    ensures
      var s0 := State(map[], map[], {});
      var m1 := MountStep(c, s0, a, targetA, uidA, Some([]), t0, true);
      var s1 := m1.state.(marked := m1.state.marked + {a});
      var u1 := UnmountStep(c, s1, a, uidA, Some([]), t0, true);
      var b1 := BaseHost(c.basesHost, a);
      var m2 := MountStep(c, u1.state, cId, targetC, uidC, Some([b1]), t1, true);
      var u2 := UnmountStep(c, m2.state, cId, uidC, Some([b1]), t1, true);
      var m3 := MountStep(c, u2.state, d, targetD, uidD, Some([b1]), t1, true);
      && m1.result == Ok(BindMount(VolumeDir(c.pods, uidA), targetA))
      && u1.result == Ok(Some(b1)) && u1.state.pool == map[b1 := Some(t0)]
      && m2.result == Ok(OverlayMount(cId, MountOptions(b1.path, VolumeDir(c.pods, uidC)), targetC))
      && m2.state.mapping == map[b1 := {cId}]
      && u2.result == Ok(None) && u2.state.pool == map[b1 := Some(t0)] && u2.state.mapping == map[b1 := {}]
      && m3.result == Ok(OverlayMount(d, MountOptions(b1.path, VolumeDir(c.pods, uidD)), targetD))
      && m3.state.mapping == map[b1 := {d}]
  {
    var s0 := State(map[], map[], {});
    var m1 := MountStep(c, s0, a, targetA, uidA, Some([]), t0, true);
    assert FindValidBase([], s0.pool, t0, c.maxAge) == None;
    assert m1.result == Ok(BindMount(VolumeDir(c.pods, uidA), targetA)) && m1.state == s0;
    var s1 := m1.state.(marked := m1.state.marked + {a});
    assert !Attached(s1.mapping, a);
    var u1 := UnmountStep(c, s1, a, uidA, Some([]), t0, true);
    var b1 := BaseHost(c.basesHost, a);
    assert u1.result == Ok(Some(b1));
    assert u1.state.mapping == map[];
    assert u1.state.pool == map[b1 := Some(t0)];
    assert IsValid(Some(t0), t1, c.maxAge);
    assert FindValidBase([b1], u1.state.pool, t1, c.maxAge) == Some(b1);
    var m2 := MountStep(c, u1.state, cId, targetC, uidC, Some([b1]), t1, true);
    var empty: Volumes := map[];
    assert u1.state.mapping == empty;
    assert VolumesOf(empty, b1) == {};
    assert m2.state.mapping == Attach(empty, b1, cId);
    var single := map[b1 := {cId}];
    assert Attach(empty, b1, cId).Keys == single.Keys;
    assert Attach(empty, b1, cId)[b1] == single[b1];
    assert Attach(empty, b1, cId) == single;
    assert Attached(m2.state.mapping, cId);
    var u2 := UnmountStep(c, m2.state, cId, uidC, Some([b1]), t1, true);
    assert u2.state.mapping == map[b1 := {}];
    assert u2.state.pool == map[b1 := Some(t0)];
    assert FindValidBase([b1], u2.state.pool, t1, c.maxAge) == Some(b1);
    var m3 := MountStep(c, u2.state, d, targetD, uidD, Some([b1]), t1, true);
    var emptied := map[b1 := {}];
    assert u2.state.mapping == emptied;
    assert m3.result == Ok(OverlayMount(d, MountOptions(b1.path, VolumeDir(c.pods, uidD)), targetD));
    assert m3.state.mapping.Keys == {b1};
    assert m3.state.mapping[b1] == {d};
    assert m3.state.mapping == map[b1 := {d}];
  }
}
