/**
 * Concrete runs of the model on small directories.
 */
module Scenarios {
  import opened Patterns
  import opened Directories
  import opened Reconciler
  import opened Watcher

  /** A new launcher is installed with mode 0644. */
  lemma NewLauncherInstalled(e: Entry)
    ensures Reconciled(map["app1.desktop" := e], map[], {})
         == map["app1.desktop" := Entry(e.content, Mode0644)]
  {
  }

  /** A launcher whose application was uninstalled is deleted. */
  lemma StaleLauncherDeleted(e: Entry)
    ensures Reconciled(map[], map["org.flatpak.old.desktop" := e], {}) == map[]
  {
  }

  /** A launcher already present is kept as it is, however the source's copy differs. */
  lemma PresentLauncherKept(a: Entry, b: Entry, stale: Entry)
    ensures Reconciled(map["a.desktop" := a, "b.desktop" := b], map["a.desktop" := stale], {})
         == map["a.desktop" := stale, "b.desktop" := Installed(b)]
  {
  }

  /** An unreadable source directory fails the pass and leaves the target alone. */
  lemma UnreadableSourceFails(source: Dir, target: Dir, failing: set<Name>)
    ensures var a := Access(true, true, false, true);
      CheckDirectories(a) == SourceUnreadable && Pass(a, source, target, failing) == target
  {
  }

  /** A created file outside the `.desktop` pattern triggers no pass. */
  lemma OtherFileIgnored(target: Dir, source: Dir, access: Access, failing: set<Name>)
    ensures var ds := [Delivery(Event(Create, "foo.txt"), source, access, failing)];
      PassCount(ds) == 0 && Replay(target, ds) == target
  {
  }
}
