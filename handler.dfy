/** The session's handling of the client's control messages: navigation, refresh and deletion.

    The handler keeps the root of the scan and the directory the client is looking at; it talks
    to the scanner thread over a control channel and to the client over an event channel, both
    modelled as the sequences of messages sent so far. Its event sender is the output side of the
    coalescer, so `Deleting` events go to the client directly.

    Deleting races the removal against a one-second delay. Which of the two finishes first, and
    whether the removal succeeds, are inputs of the model: the file system and the clock are not
    part of it. */
module Handler {
  import opened Paths
  import opened Api
  import HandlerScanner

  /** How a removal went: whether the one-second delay won the race, and whether the removal
      itself succeeded. */
  datatype Removal = Removal(slow: bool, removed: bool)

  /** The events a delete of `path` sends to the client. A slow removal first announces that it
      is deleting; a successful one ends with `Finished`; a failed one leaves early through `?`. */
  function DeleteEvents(path: Path, outcome: Removal): seq<EventMessage> {
    (if outcome.slow then [EventMessage.Deleting(path, DeletingStatus.Deleting)] else [])
    + (if outcome.removed then [EventMessage.Deleting(path, DeletingStatus.Finished)] else [])
  }

  /** Fast success sends only `Finished`; slow success sends `Deleting` then `Finished`; a fast
      failure sends nothing; a slow failure sends only `Deleting`. */
  lemma DeleteEventsByOutcome(path: Path, outcome: Removal)
    ensures var r := DeleteEvents(path, outcome);
            && (!outcome.slow && outcome.removed ==> r == [EventMessage.Deleting(path, DeletingStatus.Finished)])
            && (outcome.slow && outcome.removed ==> r == [EventMessage.Deleting(path, DeletingStatus.Deleting),
                                                          EventMessage.Deleting(path, DeletingStatus.Finished)])
            && (!outcome.slow && !outcome.removed ==> r == [])
            && (outcome.slow && !outcome.removed ==> r == [EventMessage.Deleting(path, DeletingStatus.Deleting)])
  {
  }

  /** The client is told that the delete finished exactly when the removal succeeded, and is
      told that it is deleting exactly when the removal was slow; every event names `path`, and
      `Finished`, when it comes, comes last. */
  lemma DeleteEventsMeaning(path: Path, outcome: Removal)
    ensures var r := DeleteEvents(path, outcome);
            && (EventMessage.Deleting(path, DeletingStatus.Finished) in r <==> outcome.removed)
            && (EventMessage.Deleting(path, DeletingStatus.Deleting) in r <==> outcome.slow)
            && (forall e | e in r :: e.Deleting? && e.path == path)
            && (forall i | 0 <= i < |r| && r[i].status == DeletingStatus.Finished :: i == |r| - 1)
  {
  }

  class WebsocketHandler {
    var rootPath: Path
    var currentDir: Path
    /** Everything sent to the scanner thread. */
    var controlSent: seq<HandlerScanner.ScannerControlMessage>
    /** Everything the handler itself sent to the client. */
    var eventsSent: seq<EventMessage>

    /** The handler of a new session: it looks at the root, and has sent nothing yet. */
    constructor (rootPath: Path)
      ensures this.rootPath == rootPath && currentDir == []
      ensures controlSent == [] && eventsSent == []
    {
      this.rootPath := rootPath;
      currentDir := [];
      controlSent := [];
      eventsSent := [];
    }

    /** `change_dir`: remember the directory and ask the scanner for it. */
    method ChangeDir(path: Path)
      modifies this
      ensures currentDir == path && rootPath == old(rootPath)
      ensures controlSent == old(controlSent) + [HandlerScanner.ChangeDirectory(path)]
      ensures eventsSent == old(eventsSent)
    {
      currentDir := path;
      controlSent := controlSent + [HandlerScanner.ChangeDirectory(path)];
    }

    /** `refresh`: ask the scanner for the current directory again; nothing else changes. */
    method Refresh()
      modifies this
      ensures currentDir == old(currentDir) && rootPath == old(rootPath)
      ensures controlSent == old(controlSent) + [HandlerScanner.ChangeDirectory(currentDir)]
      ensures eventsSent == old(eventsSent)
    {
      ChangeDir(currentDir);
    }

    /** `delete`: announce a slow removal, and on success announce the end and refresh the
        listing; a failed removal returns its error (`ok` is false) without either. */
    method Delete(path: Path, outcome: Removal) returns (ok: bool)
      modifies this
      ensures ok == outcome.removed
      ensures currentDir == old(currentDir) && rootPath == old(rootPath)
      ensures eventsSent == old(eventsSent) + DeleteEvents(path, outcome)
      ensures controlSent == old(controlSent) + if ok then [HandlerScanner.ChangeDirectory(currentDir)] else []
    {
      if outcome.slow {
        eventsSent := eventsSent + [EventMessage.Deleting(path, DeletingStatus.Deleting)];
      }
      if !outcome.removed {
        return false;
      }
      eventsSent := eventsSent + [EventMessage.Deleting(path, DeletingStatus.Finished)];
      Refresh();
      return true;
    }

    /** `handle_message`: dispatch one control message of the client. A failed delete is only
        logged; revealing a path is handed to the operating system and changes nothing here. */
    method HandleMessage(message: ControlMessage, outcome: Removal)
      modifies this
      ensures rootPath == old(rootPath)
      ensures message.ChangeDirectory? ==>
        && currentDir == message.path
        && controlSent == old(controlSent) + [HandlerScanner.ChangeDirectory(message.path)]
        && eventsSent == old(eventsSent)
      ensures message.Delete? ==>
        && currentDir == old(currentDir)
        && eventsSent == old(eventsSent) + DeleteEvents(message.path, outcome)
        && controlSent == old(controlSent) + if outcome.removed then [HandlerScanner.ChangeDirectory(currentDir)] else []
      ensures message.Reveal? ==>
        currentDir == old(currentDir) && controlSent == old(controlSent) && eventsSent == old(eventsSent)
    {
      match message {
        case ChangeDirectory(path) =>
          ChangeDir(path);
        case Delete(path) =>
          var _ := Delete(path, outcome);
        case Reveal(_) =>
      }
    }
  }
}
