/**
 * The service around the reconciliation pass: start-up, then one pass per
 * relevant change event on the source directory.
 *
 * The kernel's event queue is replaced by a finite sequence of deliveries.
 * Each delivery carries, besides the event, the world its pass would see:
 * the source directory after the change the event reports, the outcome of
 * the pre-flight queries, and the names the file system refuses to copy or
 * delete during that pass.
 */
module Watcher {
  import opened Patterns
  import opened Directories
  import opened Reconciler

  /** The event classes the watch subscribes to. */
  datatype EventKind = Create | Delete | Modify

  /** A change event: its class and the name of the entry it concerns. */
  datatype Event = Event(kind: EventKind, name: Name)

  /** An event as the loop dispatches it, with the state its pass sees. */
  datatype Delivery = Delivery(event: Event, source: Dir, access: Access, failing: set<Name>)

  /** The filter shared by the three handlers: the class plays no part. */
  predicate Triggers(e: Event) {
    IsDesktop(e.name)
  }

  /** The positions of the deliveries whose event names a `.desktop` file. */
  function TriggerIndices(ds: seq<Delivery>): set<nat> {
    set i: nat | i < |ds| && Triggers(ds[i].event)
  }

  /** How many passes a sequence of deliveries triggers: one per `.desktop` event. */
  function PassCount(ds: seq<Delivery>): (c: nat)
    ensures c == |TriggerIndices(ds)|
  {
    if ds == [] then 0
    else
      var n := |ds| - 1;
      assert TriggerIndices(ds) == TriggerIndices(ds[..n]) + if Triggers(ds[n].event) then {n} else {};
      PassCount(ds[..n]) + if Triggers(ds[n].event) then 1 else 0
  }

  /**
   * At most one pass per delivery; none exactly when no event names a
   * `.desktop` file, and one per delivery exactly when all do.
   */
  lemma {:induction false} PassCountBounds(ds: seq<Delivery>)
    ensures PassCount(ds) <= |ds|
    ensures PassCount(ds) == 0 <==> forall i :: 0 <= i < |ds| ==> !Triggers(ds[i].event)
    ensures PassCount(ds) == |ds| <==> forall i :: 0 <= i < |ds| ==> Triggers(ds[i].event)
  {
    if ds != [] {
      var n := |ds| - 1;
      PassCountBounds(ds[..n]);
      assert forall i :: 0 <= i < n ==> ds[..n][i] == ds[i];
    }
  }

  /** Passes add up over consecutive stretches of deliveries. */
  lemma {:induction false} PassCountAppend(a: seq<Delivery>, b: seq<Delivery>)
    ensures PassCount(a + b) == PassCount(a) + PassCount(b)
  {
    if b == [] {
      assert a + b == a;
    } else {
      var n := |b| - 1;
      assert (a + b)[..|a| + n] == a + b[..n];
      PassCountAppend(a, b[..n]);
    }
  }

  /** The target after the loop has dispatched `ds` in order, starting from `target`. */
  function Replay(target: Dir, ds: seq<Delivery>): Dir
  {
    if ds == [] then target
    else
      var d := ds[|ds| - 1];
      var before := Replay(target, ds[..|ds| - 1]);
      if Triggers(d.event) then Pass(d.access, d.source, before, d.failing) else before
  }

  /** The source directory as the last delivery left it. */
  function Latest(source: Dir, ds: seq<Delivery>): Dir {
    if ds == [] then source else ds[|ds| - 1].source
  }

  /**
   * Of the names `failing` refused, those every later pass also refused:
   * a delivery whose event is ignored, or whose check fails, retries nothing.
   */
  function StillRefused(failing: set<Name>, ds: seq<Delivery>): set<Name> {
    if ds == [] then failing
    else
      var d := ds[|ds| - 1];
      var r := StillRefused(failing, ds[..|ds| - 1]);
      if Triggers(d.event) && CheckDirectories(d.access).Passed? then r * d.failing else r
  }

  /**
   * Later events are the only retry: while the source stays `source`, the
   * target after a first pass and any deliveries is the target of one pass
   * in which only the names refused by every pass that ran are refused.
   */
  lemma {:induction false} ReplayRetries(source: Dir, target: Dir, failing: set<Name>, ds: seq<Delivery>)
    requires forall i :: 0 <= i < |ds| ==> ds[i].source == source
    ensures Replay(Reconciled(source, target, failing), ds)
         == Reconciled(source, target, StillRefused(failing, ds))
  {
    if ds != [] {
      var n := |ds| - 1;
      assert forall i :: 0 <= i < n ==> ds[..n][i] == ds[i];
      ReplayRetries(source, target, failing, ds[..n]);
      var r := StillRefused(failing, ds[..n]);
      if Triggers(ds[n].event) && CheckDirectories(ds[n].access).Passed? {
        Retry(source, target, r, ds[n].failing);
      }
    }
  }

  /** A name every pass that ran refused was refused by each of them. */
  lemma {:induction false} StillRefusedWithin(failing: set<Name>, ds: seq<Delivery>, j: nat)
    requires j < |ds| && Triggers(ds[j].event) && CheckDirectories(ds[j].access).Passed?
    ensures StillRefused(failing, ds) <= ds[j].failing
  {
    var n := |ds| - 1;
    if j < n {
      assert ds[..n][j] == ds[j];
      StillRefusedWithin(failing, ds[..n], j);
    }
  }

  /**
   * Settling: while the source stays `source`, one later pass that runs and
   * is refused nothing leaves the target exactly as a failure-free pass
   * would, whatever the earlier passes refused.
   */
  lemma {:induction false} Settles(source: Dir, target: Dir, failing: set<Name>, ds: seq<Delivery>, j: nat)
    requires forall i :: 0 <= i < |ds| ==> ds[i].source == source
    requires j < |ds| && Triggers(ds[j].event) && CheckDirectories(ds[j].access).Passed?
    requires ds[j].failing == {}
    ensures Replay(Reconciled(source, target, failing), ds) == Reconciled(source, target, {})
  {
    ReplayRetries(source, target, failing, ds);
    StillRefusedWithin(failing, ds, j);
    assert StillRefused(failing, ds) == {};
  }

  /** No sequence of passes removes a target entry outside `org.flatpak.*.desktop`. */
  lemma {:induction false} UnprefixedNeverRemoved(target: Dir, ds: seq<Delivery>, n: Name)
    requires n in target && !IsFlatpakDesktop(n)
    ensures n in Replay(target, ds) && Replay(target, ds)[n] == target[n]
  {
    if ds != [] {
      UnprefixedNeverRemoved(target, ds[..|ds| - 1], n);
    }
  }

  /**
   * The asymmetry of the two patterns: a launcher outside `org.flatpak.`
   * that a pass copied stays in the target, with the copied bytes and mode
   * 0644, through any later passes on any later sources, including those
   * from which its source file is gone.
   */
  lemma UnprefixedCopyIsOrphaned(source: Dir, target: Dir, failing: set<Name>, n: Name, ds: seq<Delivery>)
    requires n in source && IsDesktop(n) && !IsFlatpakDesktop(n)
    requires n !in target && n !in failing
    ensures var t := Replay(Reconciled(source, target, failing), ds);
      n in t && t[n] == Installed(source[n])
  {
    UnprefixedNeverRemoved(Reconciled(source, target, failing), ds, n);
  }

  /**
   * The handler of one event, the same for all three classes: a `.desktop`
   * name triggers one full pass, whatever entry it names; any other name
   * triggers nothing.
   */
  method Handle(fs: FileSystem, access: Access, failing: set<Name>, e: Event) returns (ran: bool)
    modifies fs
    ensures ran == Triggers(e)
    ensures fs.source == old(fs.source)
    ensures fs.target == if ran then Pass(access, fs.source, old(fs.target), failing) else old(fs.target)
  {
    ran := Triggers(e);
    if ran {
      var _ := fs.SyncDesktopFiles(access, failing);
    }
  }

  /**
   * The watch loop: dispatch each delivery in turn, running one full pass
   * for each `.desktop` event whatever its class, and none for any other.
   */
  method Watch(fs: FileSystem, ds: seq<Delivery>) returns (passes: nat)
    modifies fs
    ensures passes == PassCount(ds)
    ensures fs.source == Latest(old(fs.source), ds)
    ensures fs.target == Replay(old(fs.target), ds)
  {
    passes := 0;
    var i := 0;
    while i < |ds|
      invariant 0 <= i <= |ds|
      invariant passes == PassCount(ds[..i])
      invariant fs.source == Latest(old(fs.source), ds[..i])
      invariant fs.target == Replay(old(fs.target), ds[..i])
    {
      var d := ds[i];
      assert ds[..i + 1][..i] == ds[..i];
      // the change the event reports, made by the package manager
      fs.source := d.source;
      var ran := Handle(fs, d.access, d.failing, d.event);
      if ran {
        passes := passes + 1;
      }
      i := i + 1;
    }
    assert ds[..i] == ds;
  }

  /** How start-up ends: with an exit status, or in the watch loop. */
  datatype Startup = Exit(status: int) | Watching

  /**
   * The service's entry point: the pre-flight check, the subscription
   * (`watchOk` says whether the descriptor map returned for the source
   * directory holds a usable entry), the initial pass, then the watch loop.
   * `startAccess` is what the start-up check sees; `access` and `failing`
   * are what the initial pass sees.
   */
  method Serve(fs: FileSystem, startAccess: Access, watchOk: bool, access: Access,
               failing: set<Name>, ds: seq<Delivery>)
    returns (outcome: Startup, passes: nat)
    modifies fs
    ensures outcome == Watching <==>
      CheckDirectories(startAccess).Passed? && watchOk && CheckDirectories(access).Passed?
    ensures outcome.Exit? ==>
      outcome.status == 1 && passes == 0 &&
      fs.source == old(fs.source) && fs.target == old(fs.target)
    ensures outcome == Watching ==>
      passes == PassCount(ds) &&
      fs.source == Latest(old(fs.source), ds) &&
      fs.target == Replay(Reconciled(old(fs.source), old(fs.target), failing), ds)
  {
    if !CheckDirectories(startAccess).Passed? {
      return Exit(1), 0;
    }
    if !watchOk {
      return Exit(1), 0;
    }
    var ok := fs.SyncDesktopFiles(access, failing);
    if !ok {
      return Exit(1), 0;
    }
    passes := Watch(fs, ds);
    outcome := Watching;
  }
}
