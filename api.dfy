/** The messages exchanged with the client: the five enumerations of the session's wire
    protocol, as tagged unions. Sizes are byte counts. */
module Api {
  import opened Paths

  /** Where the scan stands for a directory. */
  datatype UpdatingStatus = Idle | Updating | Finished

  /** One line of a listing. A `SizeUpdate` always carries a `Directory`. */
  datatype Entry =
    | File(path: Path, size: nat)
    | Directory(path: Path, size: nat, updating: UpdatingStatus)

  datatype DeletingStatus = Deleting | Finished

  /** What the session sends to the client. */
  datatype EventMessage =
    | DirectoryChange(currentDirectory: Entry, entries: seq<Entry>, breadcrumbEntries: seq<Entry>,
                      availableSpace: nat)
    | SizeUpdate(entry: Entry)
    | Deleting(path: Path, status: DeletingStatus)

  /** What the client asks of the session. */
  datatype ControlMessage =
    | ChangeDirectory(path: Path)
    | Delete(path: Path)
    | Reveal(path: Path)
}
