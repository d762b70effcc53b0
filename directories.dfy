/**
 * The two directories as abstract tables, and the pre-flight check that
 * gates every reconciliation pass and the service start-up.
 */
module Directories {
  import opened Patterns

  /** A directory entry: its bytes (never inspected) and its permission bits. */
  datatype Entry = Entry(content: seq<bv8>, mode: nat)

  /** A directory maps each file name to its entry. */
  type Dir = map<Name, Entry>

  /** Permission bits rw-r--r-- (octal 0644). */
  const Mode0644: nat := 6 * 64 + 4 * 8 + 4

  /** What a successful copy-then-chmod leaves in the target: the source's bytes, mode 0644. */
  function Installed(e: Entry): Entry {
    Entry(e.content, Mode0644)
  }

  /**
   * The outcomes of the four file-system queries the check makes; the
   * queries themselves (existence, read and write access) are not modelled.
   */
  datatype Access = Access(
    sourceExists: bool,
    targetExists: bool,
    sourceReadable: bool,
    targetWritable: bool)

  /** The check's verdict: success, or the one failure it reports. */
  datatype CheckOutcome =
    | Passed
    | SourceMissing
    | TargetMissing
    | SourceUnreadable
    | TargetUnwritable

  /**
   * The pre-flight check. It passes exactly when all four queries succeed;
   * otherwise it reports the first failing one, in the order source
   * exists, target exists, source readable, target writable.
   */
  function CheckDirectories(a: Access): (r: CheckOutcome)
    ensures r.Passed? <==>
      a.sourceExists && a.targetExists && a.sourceReadable && a.targetWritable
    ensures r == SourceMissing <==> !a.sourceExists
    ensures r == TargetMissing <==> a.sourceExists && !a.targetExists
    ensures r == SourceUnreadable <==>
      a.sourceExists && a.targetExists && !a.sourceReadable
    ensures r == TargetUnwritable <==>
      a.sourceExists && a.targetExists && a.sourceReadable && !a.targetWritable
  {
    if !a.sourceExists then SourceMissing
    else if !a.targetExists then TargetMissing
    else if !a.sourceReadable then SourceUnreadable
    else if !a.targetWritable then TargetUnwritable
    else Passed
  }
}
