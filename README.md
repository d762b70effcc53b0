# flatpak-menu-sync, modelled in Dafny

`flatpak-menu-sync.py` is a background service that mirrors the application
launchers Flatpak exports (`/var/lib/flatpak/exports/share/applications`,
the *source*) into the system launcher directory (`/usr/share/applications`,
the *target*). On start it checks both directories, subscribes to
create/delete/modify events on the source, runs one reconciliation pass, and
then runs one more pass for every event whose file name ends in `.desktop`.

A pass copies every `*.desktop` file of the source that the target lacks,
then sets its mode to 0644. It then deletes every `org.flatpak.*.desktop`
file of the target that the source lacks. Names are compared by existence
only: a file already in the target is never overwritten. A copy or a
deletion that fails is logged and skipped, and the pass still succeeds.

The model:

- `patterns.dfy` (module `Patterns`): the two globs as predicates on names.
- `directories.dfy` (module `Directories`): a directory is a
  `map<Name, Entry>`, where an entry is bytes plus a mode. The four
  existence/access queries of the pre-flight check are boolean inputs
  (`Access`).
- `reconciler.dfy` (module `Reconciler`): `Reconciled` is the specification
  of a pass, and the lemmas state its properties. The class `FileSystem`
  holds both directories as fields. Its method `SyncDesktopFiles` runs the
  two loops of the source, updating the target field in place. Each loop
  visits its listing in an arbitrary order (a Python set has no fixed
  iteration order). The method is proved to leave exactly the target `Reconciled` describes,
  or the old target when the check fails.
  Per-file failures come from an oracle: `failing` is the set of names whose
  copy or deletion the file system refuses.
- `watcher.dfy` (module `Watcher`): the three event handlers as one
  `Handle`, the watch loop over a finite sequence of deliveries (`Watch`),
  and the start-up sequence (`Serve`). A delivery is an event together with
  what the pass it may trigger sees: the source directory after the change
  the event reports, the pre-flight queries' outcomes, and the names the
  file system refuses in that pass. `Replay` folds the passes of a delivery
  sequence over the target; the lemmas about it show that later events are
  the only retry of a refused copy or deletion.
- `scenarios.dfy` (module `Scenarios`): small concrete runs.

The two globs are deliberately asymmetric, and the model keeps them that
way. Copies take every `*.desktop` name. Deletions take only
`org.flatpak.*.desktop` names. A launcher whose name lacks the
`org.flatpak.` prefix (for example `org.mozilla.firefox.desktop`) is
therefore copied once and never removed after its application is
uninstalled. `UnprefixedCopyIsOrphaned`, `UnprefixedNeverRemoved` and
`PatternsDiffer` state this.

Convergence holds in this form: after a pass without failures, every
source `*.desktop` name is in the target, and the target's
`org.flatpak.*.desktop` names are exactly the source's. The target's full
set of `*.desktop` names need not equal the source's, because of the
orphans above.

## Model

| member | source | states |
|---|---|---|
| `Patterns.IsFlatpakDesktop` | flatpak-menu-sync.py:57-58 | a name matching `org.flatpak.*.desktop` also matches `*.desktop`; prefix and suffix do not overlap (at least 20 characters) |
| `Patterns.PatternsDiffer` | flatpak-menu-sync.py:57-58 | `org.mozilla.firefox.desktop` is listed in the source but is outside the target pattern; `org.flatpak.desktop` is outside it too |
| `Directories.CheckDirectories` | flatpak-menu-sync.py:31-45 | the check passes exactly when all four queries succeed; otherwise it reports the first failing query, in the order source exists, target exists, source readable, target writable |
| `Reconciler.Reconciled` | flatpak-menu-sync.py:56-79 | every unrefused source `.desktop` name is present afterwards; a missing one gets the source's bytes and mode 0644; every new name is such a copy; existing entries keep their content; a target entry disappears exactly when it matches `org.flatpak.*.desktop`, the source lacks it and it is not refused; refused names keep their state |
| `Reconciler.Convergence` | flatpak-menu-sync.py:57-79 | with no failures: every source `.desktop` name is in the target; the target's `org.flatpak.*.desktop` names equal the source's; a further pass has nothing to copy or delete |
| `Reconciler.Idempotent` | flatpak-menu-sync.py:61-79 | a second pass on unchanged directories, with the same names refused, leaves the target as the first left it |
| `Reconciler.FailureIsolation` | flatpak-menu-sync.py:61-79 | on every name not refused, a pass with failures has the same outcome as a pass without them |
| `Reconciler.ExistenceOnly` | flatpak-menu-sync.py:62-63 | changing a source file whose name the target already holds changes nothing in the outcome |
| `Reconciler.Retry` | flatpak-menu-sync.py:61-79 | a second pass on an unchanged source retries every copy and deletion the first refused: two passes equal one pass refusing only the names both refused |
| `Reconciler.CopyStep` | flatpak-menu-sync.py:61-69 | visiting one listed name in the copy loop installs it exactly when it is missing from the target and not refused |
| `Reconciler.RemoveStep` | flatpak-menu-sync.py:72-79 | visiting one listed name in the removal loop deletes it exactly when the source lacks it and it is not refused |
| `Reconciler.FileSystem.SyncDesktopFiles` | flatpak-menu-sync.py:48-83 | returns true exactly when the check passes, whatever per-file failures occur; never writes the source; a failed check leaves the target unchanged, and a passed one leaves it `Reconciled` from the old directories |
| `Reconciler.FileSystem.CopyNewFiles` | flatpak-menu-sync.py:61-69 | the copy loop, visiting the source listing in any order, installs exactly the listed names the target lacked and the file system did not refuse |
| `Reconciler.FileSystem.RemoveObsoleteFiles` | flatpak-menu-sync.py:72-79 | the removal loop, visiting the target listing in any order, deletes exactly the listed names the source lacks and the file system did not refuse |
| `Watcher.PassCount` | flatpak-menu-sync.py:87-100 | the passes a delivery sequence triggers are counted by the positions whose event names a `.desktop` file |
| `Watcher.PassCountBounds` | flatpak-menu-sync.py:87-100 | at most one pass per delivery; none exactly when no event names a `.desktop` file; one per delivery exactly when all do |
| `Watcher.PassCountAppend` | flatpak-menu-sync.py:87-100 | passes add up over consecutive stretches of deliveries |
| `Watcher.ReplayRetries` | flatpak-menu-sync.py:61-79 | while the source is unchanged, a first pass followed by any deliveries leaves the target of a single pass in which only the names refused by every pass that ran stay refused |
| `Watcher.StillRefusedWithin` | flatpak-menu-sync.py:87-100 | a name still refused after a delivery sequence was refused by every pass that ran |
| `Watcher.Settles` | flatpak-menu-sync.py:61-79 | while the source is unchanged, one later pass that runs and is refused nothing leaves the target of a failure-free pass, whatever earlier passes refused |
| `Watcher.UnprefixedNeverRemoved` | flatpak-menu-sync.py:72-77 | no sequence of passes, on any sources, removes or changes a target entry outside `org.flatpak.*.desktop` |
| `Watcher.UnprefixedCopyIsOrphaned` | flatpak-menu-sync.py:57-58 | a copied launcher outside `org.flatpak.` stays in the target with the copied bytes and mode 0644 through any later deliveries, including those whose source no longer has it |
| `Watcher.Handle` | flatpak-menu-sync.py:87-100 | for create, delete and modify alike, a `.desktop` name runs exactly one pass and any other name runs none; the source is not written |
| `Watcher.Watch` | flatpak-menu-sync.py:129-131 | the loop runs one pass per `.desktop` event; the source ends as the last delivery left it; the target is `Replay` of the deliveries over the old one, each pass seeing its own delivery's source, queries and refusals |
| `Watcher.Serve` | flatpak-menu-sync.py:103-134 | start-up reaches the watch loop exactly when the start-up check, the subscription and the initial pass's check all succeed; otherwise it exits with status 1, running no watch pass and leaving both directories unchanged; once watching, the target is the initial pass's `Reconciled` target with the deliveries replayed over it |
| `Scenarios.NewLauncherInstalled` | flatpak-menu-sync.py:61-67 | a lone source launcher is installed into an empty target with mode 0644 |
| `Scenarios.StaleLauncherDeleted` | flatpak-menu-sync.py:72-77 | an `org.flatpak.` launcher missing from an empty source is deleted |
| `Scenarios.PresentLauncherKept` | flatpak-menu-sync.py:61-67 | a present launcher keeps its stale content while a missing one is copied |
| `Scenarios.UnreadableSourceFails` | flatpak-menu-sync.py:39-41 | an unreadable source is reported and the target is unchanged |
| `Scenarios.OtherFileIgnored` | flatpak-menu-sync.py:87-90 | creating `foo.txt` triggers no pass and leaves the target as it was |

## Left out

- The inotify machinery (`WatchManager`, `Notifier`, `add_watch`, `notifier.loop`) is replaced by a finite sequence of deliveries. The subscription's outcome is the boolean `watchOk` of `Serve`, standing for the test at flatpak-menu-sync.py:120 that the returned descriptor map holds a true entry for the source directory. How `pyinotify` itself reports a failed watch is not part of this model. The event mask is modelled as the three event classes.
- Logging (file and stdout handlers, every message) is left out: it is output only.
- The `pyinotify` import guard and `sys.exit` are represented only by the `Exit(1)` outcome of `Serve`.
- `os.path.exists` and `os.access` are taken as the four booleans of `Access`. Real permission semantics are not modelled.
- `shutil.copy2` is modelled as copying content. Its preservation of timestamps and other metadata is left out, since the mode is overwritten with 0644 right after.
- A failed copy is modelled as leaving no entry. The partly written file, and a copy that succeeds while the chmod after it fails, are not modelled.
- `Path.glob` is modelled as the prefix/suffix predicates. Hidden-file handling and directories that match the pattern are not modelled.
- The `mkdir` of the target directory is left out. The check that precedes it already fails when the target is missing, so it never creates anything.
- The outer `except Exception` of the pass, and of `main`, is not modelled. An unexpected failure while listing a directory, which makes the pass return false, does not occur in the model.
- Changes by the package manager are modelled only as the whole new source directory each delivery carries. Their interleaving with a pass in progress is not modelled: each pass sees one fixed source. Changes to the target by anything but the service are not modelled.
- The service's infinite loop is cut off after the given events: `Watch` returns once the sequence is consumed.
