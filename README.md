# overlayfs-csi: base-pool bookkeeping

This project models the node-side core of the overlayfs CSI driver, the `Overlays` object in `src/lib.rs`.
When a volume is published, the driver looks for a *valid base* in the pool of base directories. A base is
valid when the creation time in its `.as_base` marker is less than `max_age_s` seconds old. If it finds one,
it mounts an overlay of the base, with the upper and work directories in the volume's own storage pod, and it
records the volume id under that base. Otherwise it bind-mounts the pod's empty directory. When the volume is
unpublished, the driver may *promote* the volume's directory into a new base. It does so when the volume was
on no base, no valid base exists, and the workload left the `.as_base` marker. The unpublish then removes the
id from every base's volume set. A periodic *cleanup* deletes bases that are expired and have no volumes attached.

Modules:

- `Wrappers`: `Option` and `Result`.
- `Paths`: `PathBuf` as a rooted or relative list of components. It covers `join`, the text of a path, the
  kubelet empty-dir layout (`empty_dir`, `volume_dir`, `bases_host`, the `upper`/`workdir` scratch
  directories) and the `lowerdir=…,upperdir=…,workdir=…` option string, together with a parser that reads it back.
- `Bases`: `Base`, its marker path, the age check `Base::valid` and `find_valid_base`.
- `Engine`: the state (the pool on disk with each base's marker time, the in-memory `mapping`, and the set of
  volume ids whose directory holds `.as_base`) and `mount`, `unmount` and `cleanup` as atomic steps. Each
  step is a pure function, and lemmas state what the steps promise.
- `Driver`: the class `Overlays`, with fields `pool`, `mapping` and `marked`. Its methods `Mount`, `Unmount`
  and `Cleanup` update the fields in place, the way the Rust code updates the locked map. Each method is
  proved equal to its `Engine` step and to keep the invariant that every base in `mapping` is on disk.

Inputs that stand for the environment:

- The pod uid Kubernetes assigns (`create_pod`, `pods.get`) is the parameter `podUid`.
- The clock is `now`, in whole seconds.
- A base's marker is the creation time it holds, or `None` when it cannot be read or parsed.
- `read_dir` of the pool is `listing`: `None` when it fails, otherwise every base exactly once, in the
  order the filesystem gives.
- Whether the mount command and its `create_dir_all` calls succeed is `runOk`.
- Whether the promotion `rename` succeeds is `renameOk`.
- The bases whose `remove_dir_all` fails are `failing`.

Assumptions:

- Bases are read from `flags.bases` (src/lib.rs:139-142) but new bases are renamed into `bases_host/<id>`
  (src/lib.rs:273-275). The model treats both as one pool.
- Every joined name (pod uid, volume id) is a single relative path component.
- A successful unmount clears the volume's marker. Either its directory was renamed into the pool, or the
  storage pod is deleted (src/lib.rs:292) and Kubernetes removes its storage.
- Times are compared as the code does: an unreadable marker, a marker in the future, or an age of
  `max_age_s` seconds or more makes a base invalid.

Where the code and a reference-counted design of the pool differ, the model follows the code.

- The code keeps a set of volume ids per base, not a reference count.
- `mount` has no idempotency check. Publishing the same id twice records it under each base it picked.
- When `read_dir` fails, `unmount` treats the pool as having no valid base (`map_or(true, …)`). It may then
  promote even though valid bases exist.
- `cleanup`'s `entry(base).or_default()` inserts an empty entry before testing it. When `remove_dir_all` fails,
  that empty entry stays in the map and the loop stops. Bases deleted earlier in the loop stay deleted.
- The layout comment at src/lib.rs:80-82 names `work` and `{workdir}/volumes/{id}`. The code uses
  `workdir` inside the storage pod's `volume` empty-dir, and the model follows the code.

## Model

| member | source | states |
|---|---|---|
| `Paths.VolumeDirLayout` | src/lib.rs:124-134 | the volume of a storage pod is `<pods>/<uid>/volumes/kubernetes.io~empty-dir/volume` |
| `Paths.ScratchLayout` | src/lib.rs:214-215 | the overlay upper and work directories are `<volume>/upper` and `<volume>/workdir`, and they are distinct |
| `Paths.VolumeDirsSeparate` | src/lib.rs:132-134 | volumes (and their scratch directories) of two different pod uids never lie inside one another |
| `Paths.ScratchOutsidePool` | src/lib.rs:105-108 | no volume directory or overlay scratch directory lies inside the pool's `bases` empty-dir |
| `Paths.OverlayOptionsRoundTrip` | src/lib.rs:225-230 | `lowerdir=L,upperdir=U,workdir=W` parses back to exactly L, U and W when none holds a comma |
| `Paths.MountOptionsRoundTrip` | src/lib.rs:214-230 | the option string of an overlay names the base as lower layer and the volume's `upper`/`workdir` as upper and work layers |
| `Paths.RenderChild` | src/lib.rs:124-131 | joining a component onto a non-empty path appends `/name` to its text |
| `Bases.ReadTimePath` | src/lib.rs:48-50 | the marker time is read from the file `.as_base` directly inside the base, the file `write_time` writes |
| `Bases.ReadTimePathAsWrittenAgrees` | src/lib.rs:58-61 | as written, `read_time` reads that file exactly when the base path is absolute (or empty) |
| `Bases.ReadTimeMisreadsRelativeBase` | src/lib.rs:59 | for the relative base `bases/b1`, `read_time` reads `bases/b1/bases/b1/.as_base` rather than `bases/b1/.as_base` |
| `Bases.IsValid` | src/lib.rs:63-77 | invalid without a readable time; invalid when the age is negative; otherwise valid exactly when the age is below `max_age_s` |
| `Bases.ValidWindow` | src/lib.rs:63-77 | a base created at `t` is valid exactly at the times in `[t, t + max_age_s)` |
| `Bases.ExpiredStaysExpired` | src/lib.rs:67-76 | a base whose age has reached `max_age_s` is invalid then and at every later time |
| `Bases.FreshBaseValid` | src/lib.rs:63-77 | a base stamped now is valid now exactly when `max_age_s` is positive |
| `Bases.FindValidBase` | src/lib.rs:144-146 | returns a listed valid base with no valid base before it in the listing; returns none exactly when no listed base is valid |
| `Bases.FindValidBaseInPool` | src/lib.rs:138-146 | over a listing of the whole pool, a found base is in the pool and valid, and none is found exactly when no base in the pool is valid |
| `Engine.Attach` | src/lib.rs:234 | the base's set gains the id; the base becomes a key; no other entry changes |
| `Engine.Detach` | src/lib.rs:285-287 | the keys stay the same; afterwards the id is on no base; every other id stays exactly where it was |
| `Engine.DetachAbsent` | src/lib.rs:285-287 | removing an id that is on no base leaves the map unchanged |
| `Engine.DetachAttach` | src/lib.rs:234 | unmounting undoes a mount's attach, except that the base keeps an emptied entry |
| `Engine.MountStep` | src/lib.rs:204-244 | a failed `read_dir` or a failed mount changes nothing; with a valid base B, the result is an overlay of B, B's set gains the id, and no other entry changes; with no valid base, the result is a bind of the volume directory and the map is unchanged; the pool and markers never change |
| `Engine.MountPreservesInv` | src/lib.rs:211-234 | after a mount, every base in the map is still on disk |
| `Engine.UnmountStep` | src/lib.rs:259-294 | promotion is attempted exactly when the id is on no base, no valid base is found and the marker exists; a failed rename changes nothing; otherwise the id is removed from every set and the marker cleared; a promoted volume becomes `bases_host/<id>`, stamped `now`; without promotion the pool is unchanged |
| `Engine.UnmountAbsentKeepsMapping` | src/lib.rs:285-287 | unmounting an id that is on no base leaves the map as it was |
| `Engine.UnmountOverlayKeepsPool` | src/lib.rs:262-267 | unmounting an overlaid volume never promotes it and never changes the pool |
| `Engine.UnmountPromotesIff` | src/lib.rs:262-276 | over a listing of the pool, promotion happens exactly when the id is on no base, no base of the pool is valid, the marker exists and the rename succeeds; the new base is then valid exactly when `max_age_s` is positive |
| `Engine.UnmountPreservesInv` | src/lib.rs:267-287 | after an unmount, every base in the map is still on disk |
| `Engine.CleanupStep` | src/lib.rs:245-258 | when `read_dir` fails, cleanup reports the error and changes nothing |
| `Engine.SweepFrame` | src/lib.rs:248-256 | the cleanup loop only removes bases (keeping the times of the rest) and leaves unlisted bases and their entries as they were |
| `Engine.SweepSafe` | src/lib.rs:248-256 | the loop deletes only listed bases that are invalid and have no volumes, and their entries go too |
| `Engine.SweepKeeps` | src/lib.rs:251-254 | bases surviving the loop keep their volume sets; the only entries it adds are empty |
| `Engine.SweepComplete` | src/lib.rs:248-256 | a loop that runs to the end deletes every listed invalid base with no volumes, from disk and from the map |
| `Engine.SweepPreservesInv` | src/lib.rs:248-256 | the loop keeps every base of the map on disk |
| `Engine.CleanupKeepsLiveBases` | src/lib.rs:248-256 | cleanup never deletes a valid base nor one with volumes attached; such bases keep their time and their volume set |
| `Engine.CleanupEvictsExpiredIdle` | src/lib.rs:248-256 | a successful cleanup deletes every invalid base whose volume set is empty or absent, and drops its entry |
| `Engine.CleanupUpdatesMapping` | src/lib.rs:251-254 | every deleted base loses its entry; surviving bases keep their entries unchanged; the only entry added is empty |
| `Engine.CleanupPreservesInv` | src/lib.rs:248-256 | after cleanup, every base in the map is still on disk |
| `Engine.PromotionRoundTrip` | src/lib.rs:204-294 | publish on an empty pool binds; unpublishing with the marker promotes the volume to `bases_host/<id>`; later publishes overlay that base; unpublishing an overlay keeps the base with an empty set |
| `Driver.Overlays.constructor` | src/lib.rs:98-108 | `bases_host` is the driver pod's `bases` empty-dir and the map starts empty |
| `Driver.Overlays.Mount` | src/lib.rs:204-244 | updates the map in place exactly as `MountStep` says, keeping the invariant |
| `Driver.Overlays.Unmount` | src/lib.rs:259-294 | promotes, then removes the id from every set in a loop over the map, exactly as `UnmountStep` says |
| `Driver.Overlays.Cleanup` | src/lib.rs:245-258 | walks the listing, deleting as it goes, exactly as `CleanupStep` says, keeping the invariant |

## Findings

| source | as written | input that shows it | evidently intended | confidence | as-written member | corrected member |
|---|---|---|---|---|---|---|
| src/lib.rs:59 | `read_time` reads `self.0.join(self.as_base_file())`, which joins the base path onto a path that already starts with it | a pool given by the relative path `bases` and a base `bases/b1`: it reads `bases/b1/bases/b1/.as_base`, which does not exist, so every base looks invalid and an idle one is deleted by cleanup | read `self.as_base_file()`, the file `write_time` writes | not executed; absolute pool paths, the usual deployment, are unaffected | `Bases.ReadTimeMisreadsRelativeBase` | `Bases.ReadTimePath` |

The pool in `Engine` records, for each base, the time held in `ReadTimePath(base)`, so the model uses the
corrected read. `Bases.ReadTimePathAsWrittenAgrees` shows this agrees with the code for every absolute base path.

## Left out

- Kubernetes API calls (`create_pod`, `watch_pod`, `delete_pod`, `pods.get`): a foreign network client. The pod uid is an input, and failures of these calls are not modelled.
- The `mount`/`umount` processes and `std::fs`: their effects on the pool are modelled, and their outcomes are the inputs `runOk`, `renameOk` and `failing`. The forced `umount -f` is unchecked in the code and not modelled. `write_time` is assumed to succeed.
- Concurrency: the tokio `Mutex` and the cleanup task spawned every `BASE_CLEANUP_FREQ_S` seconds. Each method body is one atomic step under the lock.
- The `time` crate and the RFC 3339 text of the marker: times are whole seconds, so ages under a second and the truncation of `whole_seconds` are not modelled.
- `from_flags`' failure when `POD_ID` is unset: environment access.
- The gRPC service, flag parsing and socket setup in src/main.rs, and the code generation in build.rs: plumbing with no bookkeeping logic.
- The directory contents of bases and volumes (the files a workload writes): only the presence of `.as_base` in a volume and the time in a base's marker are modelled.
- Engine.MountStep: when both `read_dir` and the `create_dir_all` of the mount point fail, it reports `ReadDirFailed`, whereas the code fails first at the mount point (src/lib.rs:210). The state is unchanged either way.
