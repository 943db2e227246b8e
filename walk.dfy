/** What a directory walk reports. The walk itself reads the file system and is an input of the
    model: a sequence of these events, paths already split into components and relative to the
    scan root. */
module Walk {
  import opened Paths

  datatype DirStatus = Started | Finished

  /** An event of the newer walker: a directory entered or left, or a file and its size. */
  datatype FileType =
    | Dir(path: Path, status: DirStatus)
    | File(path: Path, size: nat)

  /** An event of the older walkers: one file and its size. */
  datatype FileSize = FileSize(path: Path, size: nat)
}
