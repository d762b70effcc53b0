/**
 * The reconciliation pass: copy every source launcher the target lacks,
 * then delete every `org.flatpak.*.desktop` launcher of the target that the
 * source no longer has. Names are compared by existence only.
 *
 * Individual copies and deletions may fail; `failing` is the set of names
 * on which the file system refuses the operation. A failure is logged and
 * skipped, and the pass goes on.
 */
module Reconciler {
  import opened Patterns
  import opened Directories

  /** The source listing: every source name matching `*.desktop`. */
  function DesktopNames(source: Dir): set<Name> {
    set n | n in source && IsDesktop(n)
  }

  /** The target listing: every target name matching `org.flatpak.*.desktop`. */
  function FlatpakNames(target: Dir): set<Name> {
    set n | n in target && IsFlatpakDesktop(n)
  }

  /** The copies a pass attempts: listed source names absent from the target. */
  function PendingCopies(source: Dir, target: Dir): set<Name> {
    set n | n in DesktopNames(source) && n !in target
  }

  /** The deletions a pass attempts: listed target names absent from the source. */
  function PendingRemovals(source: Dir, target: Dir): set<Name> {
    set n | n in FlatpakNames(target) && n !in source
  }

  /** The names of `listed` that the copy loop installs. */
  function Installs(target: Dir, listed: set<Name>, failing: set<Name>): set<Name> {
    set n | n in listed && n !in target && n !in failing
  }

  /** The names of `listed` that the removal loop deletes. */
  function Doomed(source: Dir, listed: set<Name>, failing: set<Name>): set<Name> {
    set n | n in listed && n !in source && n !in failing
  }

  /** `target` with each of `names` installed from `source`. */
  function CopyInto(source: Dir, target: Dir, names: set<Name>): Dir
    requires names <= source.Keys
  {
    target + map n | n in names :: Installed(source[n])
  }

  /**
   * The target after a pass whose checks passed: the copy phase, then the
   * removal phase, each skipping the names in `failing`.
   */
  function Reconciled(source: Dir, target: Dir, failing: set<Name>): (t: Dir)
    // every listed source name not refused is present afterwards
    ensures forall n :: n in source && IsDesktop(n) && n !in failing ==> n in t
    // a name that was missing is installed with the source's bytes and mode 0644
    ensures forall n :: n in source && IsDesktop(n) && n !in target && n !in failing ==>
      t[n] == Entry(source[n].content, Mode0644)
    // every new name is such a copy
    ensures forall n :: n in t && n !in target ==>
      n in source && IsDesktop(n) && n !in failing
    // an existing entry is never overwritten, whatever its content
    ensures forall n :: n in target && n in t ==> t[n] == target[n]
    // only unrefused `org.flatpak.*.desktop` names missing from the source go
    ensures forall n :: n in target ==>
      (n !in t <==> IsFlatpakDesktop(n) && n !in source && n !in failing)
    // a refused name keeps its previous state
    ensures forall n :: n in failing ==> (n in t <==> n in target)
  {
    CopyInto(source, target, Installs(target, DesktopNames(source), failing))
      - Doomed(source, FlatpakNames(target), failing)
  }

  /** A whole call: the pre-flight check, then the pass if the check passed. */
  function Pass(access: Access, source: Dir, target: Dir, failing: set<Name>): Dir
  {
    if CheckDirectories(access).Passed? then Reconciled(source, target, failing) else target
  }

  /**
   * Convergence: a pass without failures leaves every listed source name in
   * the target, makes the target's `org.flatpak.*.desktop` names exactly the
   * source's, and leaves nothing for a further pass to copy or delete.
   */
  lemma Convergence(source: Dir, target: Dir)
    ensures DesktopNames(source) <= Reconciled(source, target, {}).Keys
    ensures FlatpakNames(Reconciled(source, target, {})) == FlatpakNames(source)
    ensures PendingCopies(source, Reconciled(source, target, {})) == {}
    ensures PendingRemovals(source, Reconciled(source, target, {})) == {}
  {
  }

  /**
   * Idempotence: a second pass on an unchanged file system, whose file
   * system refuses the same names, leaves the target as the first left it.
   */
  lemma Idempotent(source: Dir, target: Dir, failing: set<Name>)
    ensures Reconciled(source, Reconciled(source, target, failing), failing)
         == Reconciled(source, target, failing)
  {
  }

  /**
   * Failure isolation: on every name the file system does not refuse, a
   * pass with failures does exactly what a pass without failures does.
   */
  lemma FailureIsolation(source: Dir, target: Dir, failing: set<Name>, n: Name)
    requires n !in failing
    ensures n in Reconciled(source, target, failing) <==> n in Reconciled(source, target, {})
    ensures n in Reconciled(source, target, {}) ==>
      Reconciled(source, target, failing)[n] == Reconciled(source, target, {})[n]
  {
  }

  /**
   * Existence-only comparison: changing the bytes or mode of a source file
   * whose name the target already holds changes nothing in the outcome.
   */
  lemma ExistenceOnly(source: Dir, target: Dir, failing: set<Name>, n: Name, e: Entry)
    requires n in source && n in target
    ensures Reconciled(source[n := e], target, failing) == Reconciled(source, target, failing)
  {
    assert DesktopNames(source[n := e]) == DesktopNames(source);
  }

  /**
   * Retry: a second pass on an unchanged source tries again every copy or
   * deletion the first refused, so only the names both passes refuse stay
   * as they were.
   */
  lemma Retry(source: Dir, target: Dir, first: set<Name>, second: set<Name>)
    ensures Reconciled(source, Reconciled(source, target, first), second)
         == Reconciled(source, target, first * second)
  {
  }

  /** One step of the copy loop: visiting `name` installs it exactly when it is missing and not refused. */
  lemma CopyStep(source: Dir, start: Dir, listed: set<Name>, todo: set<Name>, failing: set<Name>, name: Name)
    requires listed <= source.Keys && todo <= listed && name in todo
    ensures var t := CopyInto(source, start, Installs(start, listed - todo, failing));
      && (name in t <==> name in start)
      && CopyInto(source, start, Installs(start, listed - (todo - {name}), failing))
         == if name !in t && name !in failing then t[name := Installed(source[name])] else t
  {
    var done := Installs(start, listed - todo, failing);
    var done' := Installs(start, listed - (todo - {name}), failing);
    assert name !in done;
    if name !in start && name !in failing {
      assert done' == done + {name};
      var t := CopyInto(source, start, done);
      assert CopyInto(source, start, done') == t[name := Installed(source[name])];
    } else {
      assert done' == done;
    }
  }

  /** One step of the removal loop: visiting `name` deletes it exactly when the source lacks it and it is not refused. */
  lemma RemoveStep(source: Dir, start: Dir, listed: set<Name>, todo: set<Name>, failing: set<Name>, name: Name)
    requires todo <= listed && name in todo
    ensures var t := start - Doomed(source, listed - todo, failing);
      start - Doomed(source, listed - (todo - {name}), failing)
      == if name !in source && name !in failing then t - {name} else t
  {
  }

  /** The two directories the service works on. */
  class FileSystem {
    var source: Dir
    var target: Dir

    constructor (source: Dir, target: Dir)
      ensures this.source == source && this.target == target
    {
      this.source := source;
      this.target := target;
    }

    /**
     * One reconciliation pass. Reports failure, changing nothing, when the
     * pre-flight check fails; otherwise copies, deletes and reports success
     * whatever individual copies or deletions were refused. The source
     * directory is never written.
     */
    method SyncDesktopFiles(access: Access, failing: set<Name>) returns (ok: bool)
      modifies this
      ensures ok <==> CheckDirectories(access).Passed?
      ensures source == old(source)
      ensures target == Pass(access, old(source), old(target), failing)
    {
      if !CheckDirectories(access).Passed? {
        return false;
      }
      var targetFiles := FlatpakNames(target);
      CopyNewFiles(failing);
      RemoveObsoleteFiles(targetFiles, failing);
      return true;
    }

    /**
     * The copy phase: every listed source name the target lacks is
     * installed, unless the file system refuses the copy.
     */
    method CopyNewFiles(failing: set<Name>)
      modifies this
      ensures source == old(source)
      ensures target == CopyInto(source, old(target), Installs(old(target), DesktopNames(source), failing))
    {
      var sourceFiles := DesktopNames(source);
      var todo := sourceFiles;
      while todo != {}
        invariant todo <= sourceFiles
        invariant source == old(source)
        invariant target == CopyInto(source, old(target), Installs(old(target), sourceFiles - todo, failing))
        decreases todo
      {
        var name :| name in todo;
        CopyStep(source, old(target), sourceFiles, todo, failing, name);
        if name !in target {
          if name !in failing {
            target := target[name := Installed(source[name])];
          }
          // else: the copy is refused, logged and skipped
        }
        todo := todo - {name};
      }
      assert sourceFiles - todo == sourceFiles;
    }

    /**
     * The removal phase over the target listing `targetFiles`: every listed
     * name the source lacks is deleted, unless the file system refuses.
     */
    method RemoveObsoleteFiles(targetFiles: set<Name>, failing: set<Name>)
      modifies this
      ensures source == old(source)
      ensures target == old(target) - Doomed(source, targetFiles, failing)
    {
      var todo := targetFiles;
      while todo != {}
        invariant todo <= targetFiles
        invariant source == old(source)
        invariant target == old(target) - Doomed(source, targetFiles - todo, failing)
        decreases todo
      {
        var name :| name in todo;
        RemoveStep(source, old(target), targetFiles, todo, failing, name);
        if name !in source {
          if name !in failing {
            target := target - {name};
          }
          // else: the deletion is refused, logged and skipped
        }
        todo := todo - {name};
      }
      assert targetFiles - todo == targetFiles;
    }
  }
}
