/**
 * Bases of the pool: their `.as_base` time marker, the age check `Base::valid`
 * and the search `find_valid_base` over a directory listing of the pool.
 *
 * A base's marker is abstracted to the creation time it holds, in whole
 * seconds, or `None` when it cannot be read or parsed.
 */
module Bases {
  import opened Wrappers
  import opened Paths

  /** `struct Base(PathBuf)`. */
  datatype Base = Base(path: Path)

  /** `Base::as_base_filename()`. */
  const AS_BASE_FILENAME: string := ".as_base"

  /** `as_base_file()`: the marker inside the base directory; `write_time` writes here. */
  function AsBaseFile(b: Base): Path
  {
    Child(b.path, AS_BASE_FILENAME)
  }

  /** The file `read_time` reads, as written: `self.0.join(self.as_base_file())`. */
  function ReadTimePathAsWritten(b: Base): Path
  {
    Join(b.path, AsBaseFile(b))
  }

  /** The file `read_time` is meant to read: the marker `write_time` wrote. */
  function ReadTimePath(b: Base): (p: Path)
    ensures Within(p, b.path) && |p.comps| == |b.path.comps| + 1
    ensures p.comps[|b.path.comps|] == AS_BASE_FILENAME
    ensures p == AsBaseFile(b)
  {
    Child(b.path, AS_BASE_FILENAME)
  }

  /** As written, `read_time` reads the marker only when the base path is
      absolute (or empty): joining onto a relative base doubles its components. */
  lemma ReadTimePathAsWrittenAgrees(b: Base)
    ensures ReadTimePathAsWritten(b) == ReadTimePath(b) <==> b.path.absolute || b.path.comps == []
  {
    if !b.path.absolute && b.path.comps != [] {
      assert |ReadTimePathAsWritten(b).comps| == 2 * |b.path.comps| + 1;
    }
  }

  /** A base `bases/b1` of a pool given by a relative directory: its marker
      is `bases/b1/.as_base`, but `read_time` reads `bases/b1/bases/b1/.as_base`. */
  lemma ReadTimeMisreadsRelativeBase()
    ensures var b := Base(Path(false, ["bases", "b1"]));
      && Render(ReadTimePathAsWritten(b)) == "bases/b1/bases/b1/.as_base"
      && Render(ReadTimePath(b)) == "bases/b1/.as_base"
  {
    var b := Base(Path(false, ["bases", "b1"]));
    assert ReadTimePathAsWritten(b).comps == ["bases", "b1", "bases", "b1", AS_BASE_FILENAME];
    assert ReadTimePath(b).comps == ["bases", "b1", AS_BASE_FILENAME];
  }

  // ---------------------------------------------------------------------
  // Age check

  /** `Base::valid`: the marker can be read, the base is not from the future,
      and its age in whole seconds is below `maxAge`. */
  function IsValid(created: Option<int>, now: int, maxAge: int): (v: bool)
    ensures created.None? ==> !v
    ensures created.Some? && now - created.value < 0 ==> !v
    ensures created.Some? && now - created.value >= 0 ==> (v <==> now - created.value < maxAge)
  {
    match created
    case None => false
    case Some(t) =>
      var age := now - t;
      if age < 0 then false else age < maxAge
  }

  /** A base is valid exactly during the window `[t, t + maxAge)` after its creation time `t`. */
  lemma ValidWindow(t: int, now: int, maxAge: int)
    ensures IsValid(Some(t), now, maxAge) <==> t <= now < t + maxAge
  {
  }

  /** Once a base has aged past `maxAge`, it stays invalid. */
  lemma ExpiredStaysExpired(t: int, now: int, later: int, maxAge: int)
    requires now <= later && now - t >= maxAge
    ensures !IsValid(Some(t), now, maxAge) && !IsValid(Some(t), later, maxAge)
  {
  }

  /** A base stamped now is valid now exactly when `maxAge` is positive. */
  lemma FreshBaseValid(now: int, maxAge: int)
    ensures IsValid(Some(now), now, maxAge) <==> maxAge > 0
  {
  }

  // ---------------------------------------------------------------------
  // The pool as `read_dir` lists it

  /** The marker time recorded for `b`, `None` when `b` is not in the pool. */
  function TimeOf(pool: map<Base, Option<int>>, b: Base): Option<int>
  {
    if b in pool then pool[b] else None
  }

  ghost predicate Distinct(bases: seq<Base>)
  {
    forall i, j :: 0 <= i < j < |bases| ==> bases[i] != bases[j]
  }

  /** `listing` is a `read_dir` of the pool: every base directory exactly once, in some order. */
  ghost predicate Lists(listing: seq<Base>, pool: map<Base, Option<int>>)
  {
    Distinct(listing) && forall b :: b in listing <==> b in pool
  }

  /** `find_valid_base`: the first base of the listing that is valid at `now`. */
  function FindValidBase(listing: seq<Base>, pool: map<Base, Option<int>>, now: int, maxAge: int): (r: Option<Base>)
    ensures r.Some? ==> r.value in listing && IsValid(TimeOf(pool, r.value), now, maxAge)
    ensures r.None? <==> forall b :: b in listing ==> !IsValid(TimeOf(pool, b), now, maxAge)
    ensures r.Some? ==> exists k :: 0 <= k < |listing| && listing[k] == r.value
                           && forall j :: 0 <= j < k ==> !IsValid(TimeOf(pool, listing[j]), now, maxAge)
  {
    if listing == [] then None
    else if IsValid(TimeOf(pool, listing[0]), now, maxAge) then Some(listing[0])
    else
      var r := FindValidBase(listing[1..], pool, now, maxAge);
      assert r.Some? ==> exists k :: 0 <= k < |listing| && listing[k] == r.value
                           && forall j :: 0 <= j < k ==> !IsValid(TimeOf(pool, listing[j]), now, maxAge) by {
        if r.Some? {
          var k :| 0 <= k < |listing[1..]| && listing[1..][k] == r.value
                   && forall j :: 0 <= j < k ==> !IsValid(TimeOf(pool, listing[1..][j]), now, maxAge);
          assert listing[k + 1] == r.value;
          assert forall j :: 0 <= j < k + 1 ==> !IsValid(TimeOf(pool, listing[j]), now, maxAge) by {
            forall j | 0 <= j < k + 1 ensures !IsValid(TimeOf(pool, listing[j]), now, maxAge) {
              if j > 0 { assert listing[j] == listing[1..][j - 1]; }
            }
          }
        }
      }
      r
  }

  /** Over a listing of the whole pool, `find_valid_base` finds nothing exactly
      when no base of the pool is valid. */
  lemma FindValidBaseInPool(listing: seq<Base>, pool: map<Base, Option<int>>, now: int, maxAge: int)
    requires Lists(listing, pool)
    ensures var r := FindValidBase(listing, pool, now, maxAge);
      && (r.Some? ==> r.value in pool && IsValid(pool[r.value], now, maxAge))
      && (r.None? <==> forall b :: b in pool ==> !IsValid(pool[b], now, maxAge))
  {
  }
}
