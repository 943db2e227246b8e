/** The scanner thread of the actor generation: it waits for the first directory the client
    looks at, then takes the walk's files one by one. Before each file it polls the control
    channel without blocking; then it inserts the file into its size tree and reports the new
    size of the subscribed child directory of the current directory that the file lies in.
    Once the walk is over, it still answers directory changes with a listing.

    The walk, the outcome of each poll and each directory listing are inputs of the model. */
module ActorScanner {
  import opened Paths
  import opened Options
  import opened Walk
  import opened Subscription
  import ActorWorkerTree

  /** What the actor tells the scanner thread. */
  datatype ThreadControlMessage = ChangeDirectory(path: Path)

  /** What the scanner thread sends to the actor. */
  datatype ScanEvent =
    | DirectoryChange(path: Path, entries: seq<ListedEntry>)
    | SizeUpdate(entry: ListedEntry)

  /** The result of `try_recv` on the control channel: a message (with what the listing then
      reads), nothing yet, or a closed channel. */
  datatype Poll =
    | Received(message: ThreadControlMessage, entries: seq<ListedEntry>)
    | Empty
    | Disconnected

  /** One turn of the walk loop: the poll made before the file, and the file. */
  datatype Turn = Turn(poll: Poll, file: FileSize)

  /** A directory change received after the walk, with what the listing reads. */
  datatype Listing = Listing(message: ThreadControlMessage, entries: seq<ListedEntry>)

  /** How the walk loop ended: all files handled, the control channel closed, or a panic. */
  datatype Ending = Exhausted | ControlClosed | Crashed

  /** Every file of the walk has a name. */
  predicate FilesNamed(turns: seq<Turn>) {
    forall i | 0 <= i < |turns| :: |turns[i].file.path| > 0
  }

  /** The files of the first `n` turns, in order. */
  function FilesOf(turns: seq<Turn>, n: nat): (r: seq<FileSize>)
    requires n <= |turns|
    ensures |r| == n
  {
    if n == 0 then [] else FilesOf(turns, n - 1) + [turns[n - 1].file]
  }

  /** What the files of the first `n` turns add to the tree, in order. */
  function TurnAdditions(turns: seq<Turn>, n: nat): (r: seq<Addition>)
    requires FilesNamed(turns) && n <= |turns|
    ensures |r| == n
  {
    if n == 0 then [] else TurnAdditions(turns, n - 1) + [Addition(Parent(turns[n - 1].file.path), turns[n - 1].file.size)]
  }

  /** The additions of the walked turns are those of their files. */
  lemma {:induction false} TurnAdditionsOfFiles(turns: seq<Turn>, n: nat)
    requires FilesNamed(turns) && n <= |turns|
    ensures ActorWorkerTree.FilePaths(FilesOf(turns, n))
    ensures TurnAdditions(turns, n) == ActorWorkerTree.Additions(FilesOf(turns, n))
  {
    if n > 0 {
      TurnAdditionsOfFiles(turns, n - 1);
      var files := FilesOf(turns, n);
      assert files[..n - 1] == FilesOf(turns, n - 1);
      assert files[n - 1] == turns[n - 1].file;
    }
  }

  /** Starting from a new tree, the size the scanner reports for a directory after `n` turns is
      the sum of the sizes of the walked files strictly below it. */
  lemma WalkedSizeIsFilesBelow(turns: seq<Turn>, n: nat, q: Path)
    requires FilesNamed(turns) && n <= |turns|
    ensures SizeUnder(TurnAdditions(turns, n), q) == ActorWorkerTree.SizeOfFilesBelow(FilesOf(turns, n), q)
  {
    TurnAdditionsOfFiles(turns, n);
    ActorWorkerTree.TotalsAreFilesBelow(FilesOf(turns, n), q);
  }

  /** The listings sent for the directory changes after the walk. */
  function Listings(after: seq<Listing>): (r: seq<ScanEvent>)
    ensures |r| == |after|
    ensures forall i | 0 <= i < |after| :: r[i] == DirectoryChange(after[i].message.path, after[i].entries)
  {
    seq(|after|, i requires 0 <= i < |after| => DirectoryChange(after[i].message.path, after[i].entries))
  }

  /** The thread's state as a value: the node paths and the size log of its tree, the current
      directory, the subscribed names, and everything sent so far. */
  datatype ScanState = ScanState(keys: set<Path>, added: seq<Addition>, currentDir: Path,
                                 subscribed: set<string>, events: seq<ScanEvent>)

  /** The state after one turn, and whether the loop stops there. */
  datatype Outcome = Outcome(after: ScanState, stop: Option<Ending>)

  /** A file of the walk: it is inserted whatever happens next; then the filter decides, and a
      reported size is everything added at or below the current directory's child. A panic of
      the filter stops the loop. */
  function FileStep(s: ScanState, file: FileSize): Outcome
    requires |file.path| > 0
  {
    var keys := s.keys + Prefixes(Parent(file.path));
    var added := s.added + [Addition(Parent(file.path), file.size)];
    var d := Decide(file.path, s.currentDir, s.subscribed, keys);
    var events := if d.Emitted? then s.events + [SizeUpdate(ListedEntry.Directory(d.name, SizeUnder(added, s.currentDir + [d.name])))]
                  else s.events;
    Outcome(s.(keys := keys, added := added, events := events), if d == Panicked then Some(Crashed) else None)
  }

  /** The current directory and subscriptions a turn's file is filtered with: those of a
      directory change received in the poll, otherwise the old ones. The listing goes out. */
  function Polled(s: ScanState, poll: Poll): ScanState {
    match poll
    case Received(message, entries) =>
      s.(currentDir := message.path, subscribed := DirectoryNames(entries),
         events := s.events + [DirectoryChange(message.path, entries)])
    case Empty => s
    case Disconnected => s
  }

  /** One turn of the walk loop: a closed control channel stops it before the file; otherwise
      the poll is applied and the file handled. */
  function Feed(s: ScanState, turn: Turn): Outcome
    requires |turn.file.path| > 0
  {
    if turn.poll.Disconnected? then Outcome(s, Some(ControlClosed))
    else FileStep(Polled(s, turn.poll), turn.file)
  }

  /** The state after the first `n` turns. */
  function Fold(s: ScanState, turns: seq<Turn>, n: nat): ScanState
    requires FilesNamed(turns) && n <= |turns|
  {
    if n == 0 then s else Feed(Fold(s, turns, n - 1), turns[n - 1]).after
  }

  /** Whether turn `i` stops the loop, after the turns before it. */
  function StopAt(s: ScanState, turns: seq<Turn>, i: nat): Option<Ending>
    requires FilesNamed(turns) && i < |turns|
  {
    Feed(Fold(s, turns, i), turns[i]).stop
  }

  /** None of the first `n` turns stops the loop. */
  predicate Continues(s: ScanState, turns: seq<Turn>, n: nat)
    requires FilesNamed(turns) && n <= |turns|
  {
    forall i | 0 <= i < n :: StopAt(s, turns, i).None?
  }

  /** The loop runs through the first `n - 1` turns and stops at turn `n - 1` with `ending`. */
  predicate StopsAt(s: ScanState, turns: seq<Turn>, n: nat, ending: Ending)
    requires FilesNamed(turns) && n <= |turns|
  {
    0 < n && Continues(s, turns, n - 1) && StopAt(s, turns, n - 1) == Some(ending)
  }

  /** How the walk loop ended after `n` turns: having run through all of them, before the
      file of turn `n` on a closed control channel, or at turn `n - 1` on a panic. */
  predicate WalkEnds(s: ScanState, turns: seq<Turn>, n: nat, ending: Ending)
    requires FilesNamed(turns) && n <= |turns|
  {
    match ending
    case Exhausted => n == |turns| && Continues(s, turns, n)
    case ControlClosed => n < |turns| && Continues(s, turns, n) && turns[n].poll.Disconnected?
    case Crashed => StopsAt(s, turns, n, Crashed)
  }

  /** One more turn that does not stop the loop: the loop still continues. */
  lemma ContinuesStep(s: ScanState, turns: seq<Turn>, n: nat)
    requires FilesNamed(turns) && n < |turns| && Continues(s, turns, n)
    requires StopAt(s, turns, n).None?
    ensures Continues(s, turns, n + 1)
  {
    forall i | 0 <= i < n + 1 ensures StopAt(s, turns, i).None? {
    }
  }

  /** The loop stops exactly at a closed control channel, before the file, and at a file whose
      filter panics, after the poll has been applied. */
  lemma FeedStops(s: ScanState, turn: Turn)
    requires |turn.file.path| > 0
    ensures var stop := Feed(s, turn).stop;
            var p := Polled(s, turn.poll);
            && (stop == Some(ControlClosed) <==> turn.poll.Disconnected?)
            && (stop == Some(Crashed) <==>
                  !turn.poll.Disconnected?
                  && Decide(turn.file.path, p.currentDir, p.subscribed, p.keys + Prefixes(Parent(turn.file.path))) == Panicked)
            && stop != Some(Exhausted)
  {
  }

  /** Turns that do not stop the loop all have a live control channel. */
  lemma {:induction false} ConnectedWhileContinuing(s: ScanState, turns: seq<Turn>, n: nat)
    requires FilesNamed(turns) && n <= |turns| && Continues(s, turns, n)
    ensures forall i | 0 <= i < n :: !turns[i].poll.Disconnected?
  {
    forall i | 0 <= i < n ensures !turns[i].poll.Disconnected? {
      assert StopAt(s, turns, i).None?;
    }
  }

  /** One more turn with a live control channel. */
  lemma ConnectedStep(turns: seq<Turn>, n: nat)
    requires n < |turns| && !turns[n].poll.Disconnected?
    requires forall i | 0 <= i < n :: !turns[i].poll.Disconnected?
    ensures forall i | 0 <= i < n + 1 :: !turns[i].poll.Disconnected?
  {
  }

  /** The size log after `n` turns that did not stop is the old one followed by the additions
      of their files. */
  lemma {:induction false} FoldAdded(s: ScanState, turns: seq<Turn>, n: nat)
    requires FilesNamed(turns) && n <= |turns|
    requires forall i | 0 <= i < n :: !turns[i].poll.Disconnected?
    ensures Fold(s, turns, n).added == s.added + TurnAdditions(turns, n)
  {
    if n > 0 {
      FoldAdded(s, turns, n - 1);
      var t := Fold(s, turns, n - 1);
      var file := turns[n - 1].file;
      assert Polled(t, turns[n - 1].poll).added == t.added;
      assert Fold(s, turns, n).added == t.added + [Addition(Parent(file.path), file.size)];
    }
  }

  /** The loop only ever appends to what it has sent, at most two events per turn: the listing
      of a directory change and a size. */
  lemma {:induction false} FoldExtendsEvents(s: ScanState, turns: seq<Turn>, n: nat)
    requires FilesNamed(turns) && n <= |turns|
    ensures var t := Fold(s, turns, n);
            |s.events| <= |t.events| <= |s.events| + 2 * n && t.events[..|s.events|] == s.events
  {
    if n > 0 {
      FoldExtendsEvents(s, turns, n - 1);
      var t := Fold(s, turns, n - 1);
      var u := Fold(s, turns, n);
      assert u.events[..|t.events|] == t.events;
      assert u.events[..|s.events|] == u.events[..|t.events|][..|s.events|];
    }
  }

  /** However the walk loop ended, every turn it went through had a live control channel. */
  lemma WalkedConnected(s: ScanState, turns: seq<Turn>, n: nat, ending: Ending)
    requires FilesNamed(turns) && n <= |turns| && WalkEnds(s, turns, n, ending)
    ensures forall i | 0 <= i < n :: !turns[i].poll.Disconnected?
  {
    if ending == Crashed {
      ConnectedWhileContinuing(s, turns, n - 1);
      assert StopAt(s, turns, n - 1) == Some(Crashed);
      ConnectedStep(turns, n - 1);
    } else {
      ConnectedWhileContinuing(s, turns, n);
    }
  }

  /** However the walk loop ended, the size log holds exactly the additions of the files of the
      turns it went through. */
  lemma WalkedAdditions(s: ScanState, turns: seq<Turn>, n: nat, ending: Ending)
    requires FilesNamed(turns) && n <= |turns| && WalkEnds(s, turns, n, ending)
    ensures forall i | 0 <= i < n :: !turns[i].poll.Disconnected?
    ensures Fold(s, turns, n).added == s.added + TurnAdditions(turns, n)
  {
    WalkedConnected(s, turns, n, ending);
    FoldAdded(s, turns, n);
  }

  /** Without directory changes, files outside the current directory send nothing and leave
      the current directory and the subscriptions as they are. */
  lemma {:induction false} QuietOutsideCurrentDir(s: ScanState, turns: seq<Turn>, n: nat)
    requires FilesNamed(turns) && n <= |turns|
    requires forall i | 0 <= i < n :: !turns[i].poll.Received? && !IsPrefix(s.currentDir, turns[i].file.path)
    ensures var t := Fold(s, turns, n);
            t.events == s.events && t.currentDir == s.currentDir && t.subscribed == s.subscribed
  {
    if n > 0 {
      QuietOutsideCurrentDir(s, turns, n - 1);
    }
  }

  class Scanner {
    var tree: ActorWorkerTree.Directory
    var currentDir: Path
    var subscribed: set<string>
    /** Everything sent to the actor. */
    var events: seq<ScanEvent>

    ghost predicate Valid()
      reads this, tree
    {
      tree.Valid()
    }

    /** The start of the thread: a fresh tree, and the first directory change, awaited before
        any file is taken. */
    constructor (first: ThreadControlMessage, entries: seq<ListedEntry>)
      ensures Valid() && fresh(tree)
      ensures tree.nodes == map[[] := 0] && tree.added == []
      ensures currentDir == first.path && subscribed == DirectoryNames(entries)
      ensures events == [DirectoryChange(first.path, entries)]
    {
      tree := new ActorWorkerTree.Directory();
      events := [DirectoryChange(first.path, entries)];
      subscribed := DirectoryNames(entries);
      currentDir := first.path;
    }

    /** `send_directory_change`: send the listing and return the names of its directories. */
    method SendDirectoryChange(path: Path, entries: seq<ListedEntry>) returns (dirs: set<string>)
      modifies this
      ensures dirs == DirectoryNames(entries)
      ensures events == old(events) + [DirectoryChange(path, entries)]
      ensures tree == old(tree) && currentDir == old(currentDir) && subscribed == old(subscribed)
    {
      dirs := DirectoryNames(entries);
      events := events + [DirectoryChange(path, entries)];
    }

    /** A directory change during the walk: the listing goes out, and both the current
        directory and the subscribed names are replaced. The tree is not touched. */
    method OnChangeDirectory(path: Path, entries: seq<ListedEntry>)
      modifies this
      ensures currentDir == path && subscribed == DirectoryNames(entries)
      ensures events == old(events) + [DirectoryChange(path, entries)]
      ensures tree == old(tree)
    {
      subscribed := SendDirectoryChange(path, entries);
      currentDir := path;
    }

    /** A file of the walk: inserted first; then reported through the subscribed child of the
        current directory it lies in, with that child's total: everything added so far at or
        below it. */
    method OnFile(file: FileSize) returns (d: Decision)
      requires Valid() && |file.path| > 0
      modifies this, tree
      ensures Valid() && tree == old(tree)
      ensures tree.added == old(tree.added) + [Addition(Parent(file.path), file.size)]
      ensures tree.nodes.Keys == old(tree.nodes.Keys) + Prefixes(Parent(file.path))
      ensures currentDir == old(currentDir) && subscribed == old(subscribed)
      ensures d == Decide(file.path, currentDir, subscribed, tree.nodes.Keys)
      ensures d.Emitted? ==>
        events == old(events)
                  + [SizeUpdate(ListedEntry.Directory(d.name, SizeUnder(tree.added, currentDir + [d.name])))]
      ensures !d.Emitted? ==> events == old(events)
    {
      var components := file.path;
      tree.InsertFile(components, file.size);
      if !IsPrefix(currentDir, components) {
        return Skipped;
      }
      if |components| == |currentDir| {
        return Panicked;
      }
      var name := components[|currentDir|];
      if name !in subscribed {
        return Skipped;
      }
      var bap := currentDir + [name];
      var node := tree.At(bap);
      if node.None? {
        return Panicked;
      }
      assert tree.nodes[bap] == SizeUnder(tree.added, bap);
      events := events + [SizeUpdate(ListedEntry.Directory(name, tree.nodes[node.value]))];
      return Emitted(name);
    }

    /** The state as a value. */
    ghost function State(): ScanState
      reads this, tree
    {
      ScanState(tree.nodes.Keys, tree.added, currentDir, subscribed, events)
    }

    /** One turn of the walk loop: apply a pending directory change (listing, current directory
        and subscriptions) or stop on a closed control channel, then handle the file. */
    method OnTurn(turn: Turn) returns (ending: Option<Ending>)
      requires Valid() && |turn.file.path| > 0
      modifies this, tree
      ensures Valid() && tree == old(tree)
      ensures Outcome(State(), ending) == Feed(old(State()), turn)
      ensures ending == Some(ControlClosed) <==> turn.poll.Disconnected?
      ensures ending != Some(Exhausted)
    {
      match turn.poll {
        case Received(message, entries) =>
          OnChangeDirectory(message.path, entries);
        case Empty =>
        case Disconnected =>
          return Some(ControlClosed);
      }
      var d := OnFile(turn.file);
      if d == Panicked {
        return Some(Crashed);
      }
      return None;
    }

    /** Turn `n` of the walk loop, stated against the fold of the turns before it: the loop
        stops before the file on a closed channel, otherwise the state moves on by one turn. */
    method Advance(ghost start: ScanState, turns: seq<Turn>, n: nat) returns (stop: Option<Ending>)
      requires Valid() && FilesNamed(turns) && n < |turns|
      requires State() == Fold(start, turns, n) && Continues(start, turns, n)
      modifies this, tree
      ensures Valid() && tree == old(tree)
      ensures stop.None? || stop == Some(ControlClosed) || stop == Some(Crashed)
      ensures stop.None? ==> State() == Fold(start, turns, n + 1) && Continues(start, turns, n + 1)
      ensures stop == Some(ControlClosed) ==> State() == old(State()) && WalkEnds(start, turns, n, ControlClosed)
      ensures stop == Some(Crashed) ==> State() == Fold(start, turns, n + 1) && WalkEnds(start, turns, n + 1, Crashed)
    {
      ghost var before := Fold(start, turns, n);
      stop := OnTurn(turns[n]);
      if stop != Some(ControlClosed) {
        assert Fold(start, turns, n + 1) == Feed(before, turns[n]).after;
      }
      if stop.None? {
        ContinuesStep(start, turns, n);
      } else if stop == Some(Crashed) {
        assert Fold(start, turns, n) == before;
      }
    }

    /** The walk loop, turn by turn, until the files run out, the control channel closes or a
        turn panics. `n` is the number of files inserted; the state is the fold of those turns. */
    method WalkLoop(turns: seq<Turn>) returns (n: nat, ending: Ending)
      requires Valid() && FilesNamed(turns)
      modifies this, tree
      ensures Valid() && tree == old(tree)
      ensures n <= |turns| && State() == Fold(old(State()), turns, n)
      ensures tree.added == old(tree.added) + TurnAdditions(turns, n)
      ensures forall i | 0 <= i < n :: !turns[i].poll.Disconnected?
      ensures WalkEnds(old(State()), turns, n, ending)
    {
      ghost var start := State();
      n, ending := 0, Exhausted;
      while n < |turns|
        invariant n <= |turns| && Valid() && tree == old(tree)
        invariant State() == Fold(start, turns, n)
        invariant Continues(start, turns, n)
        invariant ending == Exhausted
      {
        var stop := Advance(start, turns, n);
        if stop == Some(ControlClosed) {
          ending := ControlClosed;
          break;
        }
        if stop == Some(Crashed) {
          ending := Crashed;
          n := n + 1;
          break;
        }
        n := n + 1;
      }
      if ending == Exhausted {
        assert WalkEnds(start, turns, n, ending);
      }
      WalkedAdditions(start, turns, n, ending);
    }

    /** After the walk: every directory change is answered with a listing, but neither the
        current directory nor the subscriptions change, and the tree stays as it is. */
    method AfterWalk(after: seq<Listing>)
      modifies this
      ensures events == old(events) + Listings(after)
      ensures tree == old(tree) && currentDir == old(currentDir) && subscribed == old(subscribed)
    {
      var i := 0;
      while i < |after|
        invariant i <= |after|
        invariant events == old(events) + Listings(after[..i])
        invariant tree == old(tree) && currentDir == old(currentDir) && subscribed == old(subscribed)
      {
        var _ := SendDirectoryChange(after[i].message.path, after[i].entries);
        assert Listings(after[..i + 1]) == Listings(after[..i]) + [DirectoryChange(after[i].message.path, after[i].entries)];
        i := i + 1;
      }
      assert after[..i] == after;
    }

    /** The thread after its first directory change: the walk loop, then, unless it stopped on
        a closed channel or a panic, the directory changes that come after the walk. */
    method Run(turns: seq<Turn>, after: seq<Listing>) returns (n: nat, ending: Ending)
      requires Valid() && FilesNamed(turns)
      modifies this, tree
      ensures Valid() && tree == old(tree)
      ensures n <= |turns| && tree.added == old(tree.added) + TurnAdditions(turns, n)
      ensures WalkEnds(old(State()), turns, n, ending)
      ensures var w := Fold(old(State()), turns, n);
              State() == if ending == Exhausted then w.(events := w.events + Listings(after)) else w
    {
      n, ending := WalkLoop(turns);
      if ending == Exhausted {
        AfterWalk(after);
      }
    }
  }
}
