/** Entries, verdicts and counters shared by the comparers, the session and the sync planner. */
module Results {
  import opened Bytes

  /** A relative path or key, as its UTF-8 code units; components are separated by a backslash. */
  type Path = bytes

  const SEP: u8 := 0x5C

  datatype Status =
    | Identical | Missing | Extra | SizeMismatch | ContentMismatch
    | IdenticalPartial | ContentMismatchPartial
    | ReadError | AccessDenied | ChangedDuringScan

  datatype PartialPattern = Edges | Center | Random

  datatype ScanMode = Presence | Size | Content

  datatype ReparseKind = NotReparse | SymlinkFile | SymlinkDir | Junction | OtherReparse | UnknownReparse

  datatype FileEntry = FileEntry(
    relativePath: Path, size: u64, mtime: u64, attributes: u32, fileId: u64, isDirectory: bool,
    reparseKind: ReparseKind, linkTarget: bytes)

  /** The nineteen run counters. */
  datatype Stats = Stats(
    sourceFiles: nat, sourceDirs: nat, destFiles: nat, destDirs: nat,
    identicalFiles: nat, identicalDirs: nat, missingFiles: nat, missingDirs: nat,
    extraFiles: nat, extraDirs: nat, sizeMismatch: nat, contentMismatch: nat,
    identicalPartialFiles: nat, contentMismatchPartial: nat,
    readErrors: nat, accessDenied: nat, changedDuringScan: nat,
    bytesSource: nat, bytesDest: nat)
  {
    function Plus(o: Stats): Stats {
      Stats(
        sourceFiles + o.sourceFiles, sourceDirs + o.sourceDirs,
        destFiles + o.destFiles, destDirs + o.destDirs,
        identicalFiles + o.identicalFiles, identicalDirs + o.identicalDirs,
        missingFiles + o.missingFiles, missingDirs + o.missingDirs,
        extraFiles + o.extraFiles, extraDirs + o.extraDirs,
        sizeMismatch + o.sizeMismatch, contentMismatch + o.contentMismatch,
        identicalPartialFiles + o.identicalPartialFiles,
        contentMismatchPartial + o.contentMismatchPartial,
        readErrors + o.readErrors, accessDenied + o.accessDenied,
        changedDuringScan + o.changedDuringScan,
        bytesSource + o.bytesSource, bytesDest + o.bytesDest)
    }
  }

  const ZERO: Stats := Stats(0, 0, 0, 0, 0, 0, 0, 0, 0, 0, 0, 0, 0, 0, 0, 0, 0, 0, 0)

  lemma PlusAssoc(a: Stats, b: Stats, c: Stats)
    ensures a.Plus(b).Plus(c) == a.Plus(b.Plus(c))
  {}

  lemma PlusComm(a: Stats, b: Stats)
    ensures a.Plus(b) == b.Plus(a)
  {}

  lemma PlusZero(a: Stats)
    ensures a.Plus(ZERO) == a && ZERO.Plus(a) == a
  {}
}
