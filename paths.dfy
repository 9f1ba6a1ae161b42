/**
 * Host paths of the driver: how `PathBuf::join` builds them, how they are
 * rendered as text, the fixed layout of pod-local empty-dir volumes, and the
 * option string handed to `mount -t overlay`.
 */
module Paths {
  import opened Wrappers

  /** A path as `PathBuf` holds it: rooted or relative, and its components. */
  datatype Path = Path(absolute: bool, comps: seq<string>)

  /** `p.join(name)` where `name` is a single relative component
      (a pod uid, a volume id or one of the fixed directory names). */
  function Child(p: Path, name: string): Path
  {
    Path(p.absolute, p.comps + [name])
  }

  /** `p.join(q)` for an arbitrary path `q`: joining an absolute path replaces `p`. */
  function Join(p: Path, q: Path): Path
  {
    if q.absolute then q else Path(p.absolute, p.comps + q.comps)
  }

  /** `q` is `p` or lies below it. */
  predicate Within(q: Path, p: Path)
  {
    q.absolute == p.absolute && |p.comps| <= |q.comps| && q.comps[..|p.comps|] == p.comps
  }

  function JoinSlash(comps: seq<string>): string
  {
    if |comps| == 0 then ""
    else if |comps| == 1 then comps[0]
    else comps[0] + "/" + JoinSlash(comps[1..])
  }

  /** The text `as_os_str().to_str()` gives for a path. */
  function Render(p: Path): string
  {
    (if p.absolute then "/" else "") + JoinSlash(p.comps)
  }

  lemma {:induction false} JoinSlashSnoc(comps: seq<string>, name: string)
    requires comps != []
    ensures JoinSlash(comps + [name]) == JoinSlash(comps) + "/" + name
  {
    if |comps| == 1 {
      assert comps + [name] == [comps[0], name];
      assert [comps[0], name][1..] == [name];
    } else {
      assert (comps + [name])[1..] == comps[1..] + [name];
      JoinSlashSnoc(comps[1..], name);
    }
  }

  /** Joining a component onto a non-empty path appends "/name" to its text. */
  lemma RenderChild(p: Path, name: string)
    requires p.comps != []
    ensures Render(Child(p, name)) == Render(p) + "/" + name
  {
    JoinSlashSnoc(p.comps, name);
  }

  predicate CommaFree(p: Path)
  {
    forall i :: 0 <= i < |p.comps| ==> ',' !in p.comps[i]
  }

  lemma {:induction false} JoinSlashCommaFree(comps: seq<string>)
    requires forall i :: 0 <= i < |comps| ==> ',' !in comps[i]
    ensures ',' !in JoinSlash(comps)
  {
    if |comps| > 1 {
      JoinSlashCommaFree(comps[1..]);
    }
  }

  /** A path whose components hold no comma renders without a comma. */
  lemma RenderCommaFree(p: Path)
    requires CommaFree(p)
    ensures ',' !in Render(p)
  {
    JoinSlashCommaFree(p.comps);
  }

  // ---------------------------------------------------------------------
  // Layout of the kubelet's empty-dir volumes

  const EMPTY_DIR_PLUGIN: string := "kubernetes.io~empty-dir"

  /** `empty_dir(pod_uid, volume)`: the host directory of an empty-dir volume of a pod. */
  function EmptyDir(pods: Path, podUid: string, volume: string): Path
  {
    Child(Child(Child(Child(pods, podUid), "volumes"), EMPTY_DIR_PLUGIN), volume)
  }

  /** `volume_dir(pod_uid)`: the volume named "volume" of the storage pod. */
  function VolumeDir(pods: Path, podUid: string): Path
  {
    EmptyDir(pods, podUid, "volume")
  }

  /** `bases_host`: the host path of the driver's own "bases" empty-dir. */
  function BasesHost(pods: Path, podId: string): Path
  {
    EmptyDir(pods, podId, "bases")
  }

  /** Upper layer of an overlay, inside the storage pod's volume. */
  function UpperDir(volumeDir: Path): Path
  {
    Child(volumeDir, "upper")
  }

  /** Work directory of an overlay, inside the storage pod's volume. */
  function WorkDir(volumeDir: Path): Path
  {
    Child(volumeDir, "workdir")
  }

  /** The text of a storage pod's volume: `<pods>/<uid>/volumes/kubernetes.io~empty-dir/volume`. */
  lemma VolumeDirLayout(pods: Path, podUid: string)
    requires pods.comps != []
    ensures Render(VolumeDir(pods, podUid))
         == Render(pods) + "/" + podUid + "/" + "volumes" + "/" + EMPTY_DIR_PLUGIN + "/" + "volume"
  {
    var p1 := Child(pods, podUid);
    var p2 := Child(p1, "volumes");
    var p3 := Child(p2, EMPTY_DIR_PLUGIN);
    RenderChild(pods, podUid);
    RenderChild(p1, "volumes");
    RenderChild(p2, EMPTY_DIR_PLUGIN);
    RenderChild(p3, "volume");
  }

  /** The overlay scratch directories are `<volume>/upper` and `<volume>/workdir`. */
  lemma ScratchLayout(volumeDir: Path)
    requires volumeDir.comps != []
    ensures Render(UpperDir(volumeDir)) == Render(volumeDir) + "/" + "upper"
    ensures Render(WorkDir(volumeDir)) == Render(volumeDir) + "/" + "workdir"
    ensures UpperDir(volumeDir) != WorkDir(volumeDir)
  {
    RenderChild(volumeDir, "upper");
    RenderChild(volumeDir, "workdir");
    assert UpperDir(volumeDir).comps[|volumeDir.comps|] == "upper";
  }

  /** Volumes of two different storage pods never nest in one another. */
  lemma VolumeDirsSeparate(pods: Path, uid1: string, uid2: string)
    requires uid1 != uid2
    ensures !Within(VolumeDir(pods, uid1), VolumeDir(pods, uid2))
    ensures !Within(UpperDir(VolumeDir(pods, uid1)), VolumeDir(pods, uid2))
    ensures !Within(WorkDir(VolumeDir(pods, uid1)), VolumeDir(pods, uid2))
  {
    var n := |pods.comps|;
    assert VolumeDir(pods, uid1).comps[n] == uid1;
    assert VolumeDir(pods, uid2).comps[n] == uid2;
    assert UpperDir(VolumeDir(pods, uid1)).comps[n] == uid1;
    assert WorkDir(VolumeDir(pods, uid1)).comps[n] == uid1;
  }

  /** The overlay scratch directories of any volume lie outside the shared base pool. */
  lemma ScratchOutsidePool(pods: Path, podUid: string, podId: string)
    ensures !Within(UpperDir(VolumeDir(pods, podUid)), BasesHost(pods, podId))
    ensures !Within(WorkDir(VolumeDir(pods, podUid)), BasesHost(pods, podId))
    ensures !Within(VolumeDir(pods, podUid), BasesHost(pods, podId))
  {
    var n := |pods.comps|;
    assert BasesHost(pods, podId).comps[n + 3] == "bases";
    assert VolumeDir(pods, podUid).comps[n + 3] == "volume";
    assert UpperDir(VolumeDir(pods, podUid)).comps[n + 3] == "volume";
    assert WorkDir(VolumeDir(pods, podUid)).comps[n + 3] == "volume";
  }

  // ---------------------------------------------------------------------
  // The `-o` argument of the overlay mount

  /** `lowerdir=L,upperdir=U,workdir=W`. */
  function OverlayOptions(lower: string, upper: string, work: string): string
  {
    "lowerdir=" + lower + ",upperdir=" + upper + ",workdir=" + work
  }

  /** The option string of an overlay of `base` with scratch space in `volumeDir`. */
  function MountOptions(base: Path, volumeDir: Path): string
  {
    OverlayOptions(Render(base), Render(UpperDir(volumeDir)), Render(WorkDir(volumeDir)))
  }

  /** The comma-separated fields of a mount option string, as the kernel splits them. */
  function Fields(s: string): (r: seq<string>)
    ensures |r| >= 1
  {
    if |s| == 0 then [""]
    else
      var rest := Fields(s[1..]);
      if s[0] == ',' then [""] + rest else [[s[0]] + rest[0]] + rest[1..]
  }

  function StripPrefix(prefix: string, s: string): Option<string>
  {
    if prefix <= s then Some(s[|prefix|..]) else None
  }

  /** Reads the three layers back out of an overlay option string. */
  function ParseOverlayOptions(s: string): Option<(string, string, string)>
  {
    var f := Fields(s);
    if |f| != 3 then None
    else
      match (StripPrefix("lowerdir=", f[0]), StripPrefix("upperdir=", f[1]), StripPrefix("workdir=", f[2]))
      case (Some(l), Some(u), Some(w)) => Some((l, u, w))
      case _ => None
  }

  lemma {:induction false} FieldsPlain(a: string)
    requires ',' !in a
    ensures Fields(a) == [a]
  {
    if |a| > 0 {
      FieldsPlain(a[1..]);
      assert [a[0]] + a[1..] == a;
    }
  }

  lemma {:induction false} FieldsComma(a: string, b: string)
    requires ',' !in a
    ensures Fields(a + "," + b) == [a] + Fields(b)
  {
    if |a| == 0 {
      assert a + "," + b == "," + b;
      assert ("," + b)[1..] == b;
    } else {
      assert (a + "," + b)[1..] == a[1..] + "," + b;
      FieldsComma(a[1..], b);
      assert [a[0]] + a[1..] == a;
    }
  }

  /** Parsing the option string gives back exactly the three layers, when no
      layer path holds a comma. */
  lemma OverlayOptionsRoundTrip(lower: string, upper: string, work: string)
    requires ',' !in lower && ',' !in upper && ',' !in work
    ensures ParseOverlayOptions(OverlayOptions(lower, upper, work)) == Some((lower, upper, work))
  {
    var f0, f1, f2 := "lowerdir=" + lower, "upperdir=" + upper, "workdir=" + work;
    assert OverlayOptions(lower, upper, work) == f0 + "," + (f1 + "," + f2);
    FieldsComma(f0, f1 + "," + f2);
    FieldsComma(f1, f2);
    FieldsPlain(f2);
    assert Fields(OverlayOptions(lower, upper, work)) == [f0, f1, f2];
    assert f0[|"lowerdir="|..] == lower;
    assert f1[|"upperdir="|..] == upper;
    assert f2[|"workdir="|..] == work;
  }

  /** The overlay of a base mounts exactly that base as its lower layer and the
      volume's own `upper` and `workdir` as its upper and work layers. */
  lemma MountOptionsRoundTrip(base: Path, volumeDir: Path)
    requires CommaFree(base) && CommaFree(volumeDir)
    ensures ParseOverlayOptions(MountOptions(base, volumeDir))
         == Some((Render(base), Render(UpperDir(volumeDir)), Render(WorkDir(volumeDir))))
  {
    RenderCommaFree(base);
    assert CommaFree(UpperDir(volumeDir));
    assert CommaFree(WorkDir(volumeDir));
    RenderCommaFree(UpperDir(volumeDir));
    RenderCommaFree(WorkDir(volumeDir));
    OverlayOptionsRoundTrip(Render(base), Render(UpperDir(volumeDir)), Render(WorkDir(volumeDir)));
  }
}
