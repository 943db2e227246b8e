/** The scanner task of the session: it waits for the first directory the client looks at, then
    walks the scan root and feeds every file into its size tree, reporting the new size of the
    subscribed child directory of the current directory that the file lies in. Directory
    changes from the session arrive on the same merged stream as the walk's files.

    The walk and the directory listing read the file system: the walk is the sequence of inputs,
    and the listing of each directory change (its entries and the free space) comes with the
    change. Paths are already split into components. */
module HandlerScanner {
  import opened Paths
  import opened Options
  import opened Walk
  import opened Subscription
  import HandlerTree

  /** What the session tells the scanner. */
  datatype ScannerControlMessage = ChangeDirectory(path: Path)

  /** What the scanner sends to the session. */
  datatype ScanEvent =
    | DirectoryChange(path: Path, entries: seq<ListedEntry>, free: nat)
    | SizeUpdate(entry: ListedEntry)

  /** One item of the merged stream: a control message (with what the listing then reads), the
      end of the control stream, a file of the walk, or the end of the walk. */
  datatype Input =
    | Control(message: ScannerControlMessage, entries: seq<ListedEntry>, free: nat)
    | ControlClosed
    | Walked(file: FileSize)
    | WalkDone

  /** How the loop ended: the inputs ran out, the control stream closed, or it panicked. */
  datatype Ending = Exhausted | Disconnected | Crashed

  /** Every file of the walk has a name. */
  predicate FilesNamed(inputs: seq<Input>) {
    forall i | 0 <= i < |inputs| && inputs[i].Walked? :: |inputs[i].file.path| > 0
  }

  /** What the files among the first `n` inputs add to the tree, in order. */
  function FileAdditions(inputs: seq<Input>, n: nat): seq<Addition>
    requires FilesNamed(inputs) && n <= |inputs|
  {
    if n == 0 then []
    else
      var last := inputs[n - 1];
      FileAdditions(inputs, n - 1) + if last.Walked? then [Addition(Parent(last.file.path), last.file.size)] else []
  }

  /** The scanner's state as a value: the node paths and the size log of its tree, the current
      directory, the subscribed names, and everything sent so far. */
  datatype ScanState = ScanState(keys: set<Path>, added: seq<Addition>, currentDir: Path,
                                 subscribed: set<string>, events: seq<ScanEvent>)

  /** The state after one input, and whether the loop stops there. */
  datatype Outcome = Outcome(after: ScanState, stop: Option<Ending>)

  /** A file of the walk: it is inserted whatever happens next; then the filter decides, and a
      reported size is everything added at or below the current directory's child. A panic of
      the filter stops the loop. */
  function FileStep(s: ScanState, file: FileSize): Outcome
    requires |file.path| > 0
  {
    var keys := s.keys + Prefixes(Parent(file.path));
    var added := s.added + [Addition(Parent(file.path), file.size)];
    var d := Decide(file.path, s.currentDir, s.subscribed, keys);
    var events := if d.Emitted? then s.events + [SizeUpdate(ListedEntry.Directory(d.name, SizeUnder(added, s.currentDir + [d.name])))]
                  else s.events;
    Outcome(s.(keys := keys, added := added, events := events), if d == Panicked then Some(Crashed) else None)
  }

  /** One item of the merged stream, as the select loop handles it. */
  function Feed(s: ScanState, input: Input): Outcome
    requires input.Walked? ==> |input.file.path| > 0
  {
    match input
    case Control(message, entries, free) =>
      Outcome(s.(currentDir := message.path, subscribed := DirectoryNames(entries),
                 events := s.events + [DirectoryChange(message.path, entries, free)]), None)
    case ControlClosed => Outcome(s, Some(Disconnected))
    case Walked(file) => FileStep(s, file)
    case WalkDone => Outcome(s, None)
  }

  /** The state after the first `n` inputs. */
  function Fold(s: ScanState, inputs: seq<Input>, n: nat): ScanState
    requires FilesNamed(inputs) && n <= |inputs|
  {
    if n == 0 then s else Feed(Fold(s, inputs, n - 1), inputs[n - 1]).after
  }

  /** Whether input `i` stops the loop, after the inputs before it. */
  function StopAt(s: ScanState, inputs: seq<Input>, i: nat): Option<Ending>
    requires FilesNamed(inputs) && i < |inputs|
  {
    Feed(Fold(s, inputs, i), inputs[i]).stop
  }

  /** None of the first `n` inputs stops the loop. */
  predicate Continues(s: ScanState, inputs: seq<Input>, n: nat)
    requires FilesNamed(inputs) && n <= |inputs|
  {
    forall i | 0 <= i < n :: StopAt(s, inputs, i).None?
  }

  /** The loop runs through the first `n - 1` inputs and stops at input `n - 1` with `ending`. */
  predicate StopsAt(s: ScanState, inputs: seq<Input>, n: nat, ending: Ending)
    requires FilesNamed(inputs) && n <= |inputs|
  {
    0 < n && Continues(s, inputs, n - 1) && StopAt(s, inputs, n - 1) == Some(ending)
  }

  /** One more input that does not stop the loop: the fold takes one more step, and the loop
      still continues. */
  lemma ContinuesStep(s: ScanState, inputs: seq<Input>, n: nat)
    requires FilesNamed(inputs) && n < |inputs| && Continues(s, inputs, n)
    requires StopAt(s, inputs, n).None?
    ensures Continues(s, inputs, n + 1)
  {
    forall i | 0 <= i < n + 1 ensures StopAt(s, inputs, i).None? {
    }
  }

  /** The loop stops exactly at the end of the control stream, and at a file whose filter panics. */
  lemma FeedStops(s: ScanState, input: Input)
    requires input.Walked? ==> |input.file.path| > 0
    ensures var stop := Feed(s, input).stop;
            && (stop == Some(Disconnected) <==> input == ControlClosed)
            && (stop == Some(Crashed) <==>
                  input.Walked?
                  && Decide(input.file.path, s.currentDir, s.subscribed, s.keys + Prefixes(Parent(input.file.path))) == Panicked)
            && stop != Some(Exhausted)
  {
  }

  /** The size log after `n` inputs is the old one followed by the additions of their files. */
  lemma {:induction false} FoldAdded(s: ScanState, inputs: seq<Input>, n: nat)
    requires FilesNamed(inputs) && n <= |inputs|
    ensures Fold(s, inputs, n).added == s.added + FileAdditions(inputs, n)
  {
    if n > 0 {
      FoldAdded(s, inputs, n - 1);
    }
  }

  /** The loop only ever appends to what it has sent, at most one event per input. */
  lemma {:induction false} FoldExtendsEvents(s: ScanState, inputs: seq<Input>, n: nat)
    requires FilesNamed(inputs) && n <= |inputs|
    ensures var t := Fold(s, inputs, n);
            |s.events| <= |t.events| <= |s.events| + n && t.events[..|s.events|] == s.events
  {
    if n > 0 {
      FoldExtendsEvents(s, inputs, n - 1);
      var t := Fold(s, inputs, n - 1);
      var u := Fold(s, inputs, n);
      assert u.events[..|t.events|] == t.events;
      assert u.events[..|s.events|] == u.events[..|t.events|][..|s.events|];
    }
  }

  /** Without directory changes, files outside the current directory send nothing and leave
      the current directory and the subscriptions as they are. */
  lemma {:induction false} QuietOutsideCurrentDir(s: ScanState, inputs: seq<Input>, n: nat)
    requires FilesNamed(inputs) && n <= |inputs|
    requires forall i | 0 <= i < n ::
      !inputs[i].Control? && (inputs[i].Walked? ==> !IsPrefix(s.currentDir, inputs[i].file.path))
    ensures var t := Fold(s, inputs, n);
            t.events == s.events && t.currentDir == s.currentDir && t.subscribed == s.subscribed
  {
    if n > 0 {
      QuietOutsideCurrentDir(s, inputs, n - 1);
    }
  }

  class Scanner {
    var tree: HandlerTree.Directory
    var currentDir: Path
    var subscribed: set<string>
    /** Everything sent to the session. */
    var events: seq<ScanEvent>

    ghost predicate Valid()
      reads this, tree
    {
      tree.Valid()
    }

    /** The start of the task: a fresh tree, and the first directory change, which is awaited
        before the walk starts. */
    constructor (first: ScannerControlMessage, entries: seq<ListedEntry>, free: nat)
      ensures Valid() && fresh(tree)
      ensures tree.nodes == map[[] := HandlerTree.NewNode] && tree.added == []
      ensures currentDir == first.path && subscribed == DirectoryNames(entries)
      ensures events == [DirectoryChange(first.path, entries, free)]
    {
      tree := new HandlerTree.Directory();
      events := [DirectoryChange(first.path, entries, free)];
      subscribed := DirectoryNames(entries);
      currentDir := first.path;
    }

    /** `send_directory_change`: send the listing and return the names of its directories. */
    method SendDirectoryChange(path: Path, entries: seq<ListedEntry>, free: nat) returns (dirs: set<string>)
      modifies this
      ensures dirs == DirectoryNames(entries)
      ensures events == old(events) + [DirectoryChange(path, entries, free)]
      ensures tree == old(tree) && currentDir == old(currentDir) && subscribed == old(subscribed)
    {
      dirs := DirectoryNames(entries);
      events := events + [DirectoryChange(path, entries, free)];
    }

    /** A directory change: the listing goes out, and both the current directory and the
        subscribed names are replaced. The tree is not touched. */
    method OnChangeDirectory(path: Path, entries: seq<ListedEntry>, free: nat)
      modifies this
      ensures currentDir == path && subscribed == DirectoryNames(entries)
      ensures events == old(events) + [DirectoryChange(path, entries, free)]
      ensures tree == old(tree)
    {
      subscribed := SendDirectoryChange(path, entries, free);
      currentDir := path;
    }

    /** A file of the walk: it is inserted into the tree first, whatever happens next; then,
        if it lies below a subscribed child of the current directory, that child's new total
        goes out. */
    method OnFile(file: FileSize) returns (d: Decision)
      requires Valid() && |file.path| > 0
      modifies this, tree
      ensures Valid() && tree == old(tree)
      ensures tree.added == old(tree.added) + [Addition(Parent(file.path), file.size)]
      ensures tree.nodes.Keys == old(tree.nodes.Keys) + Prefixes(Parent(file.path))
      ensures currentDir == old(currentDir) && subscribed == old(subscribed)
      ensures d == Decide(file.path, currentDir, subscribed, tree.nodes.Keys)
      ensures d.Emitted? ==>
        events == old(events) + [SizeUpdate(ListedEntry.Directory(d.name, SizeUnder(tree.added, currentDir + [d.name])))]
      ensures !d.Emitted? ==> events == old(events)
    {
      var components := file.path;
      tree.InsertFile(components, file.size);
      if !IsPrefix(currentDir, components) {
        return Skipped;
      }
      if |components| == |currentDir| {
        return Panicked;
      }
      var name := components[|currentDir|];
      if name !in subscribed {
        return Skipped;
      }
      assert components[..|currentDir| + 1] == currentDir + [name];
      var node := tree.AtMut(components[..|currentDir| + 1]);
      if node.None? {
        return Panicked;
      }
      var child := node.value;
      assert tree.nodes[child].totalSize == SizeUnder(tree.added, child);
      events := events + [SizeUpdate(ListedEntry.Directory(name, tree.nodes[child].totalSize))];
      return Emitted(name);
    }

    /** The state as a value. */
    ghost function State(): ScanState
      reads this, tree
    {
      ScanState(tree.nodes.Keys, tree.added, currentDir, subscribed, events)
    }

    /** One item of the merged stream: a directory change is applied, a closed control stream
        stops the loop, a file goes through `OnFile` (stopping the loop when it panics), and the
        end of the walk is only logged. */
    method OnInput(input: Input) returns (stop: Option<Ending>)
      requires Valid() && (input.Walked? ==> |input.file.path| > 0)
      modifies this, tree
      ensures Valid() && tree == old(tree)
      ensures Outcome(State(), stop) == Feed(old(State()), input)
    {
      match input {
        case Control(message, entries, free) =>
          OnChangeDirectory(message.path, entries, free);
          return None;
        case ControlClosed =>
          return Some(Disconnected);
        case Walked(file) =>
          var d := OnFile(file);
          if d == Panicked {
            return Some(Crashed);
          }
          return None;
        case WalkDone =>
          return None;
      }
    }

    /** The select loop: handle the merged stream one item at a time until the control stream
        closes or a step panics. The state is the fold of the inputs handled; every file handled
        is inserted into the tree, and what was sent before is kept. */
    method Run(inputs: seq<Input>) returns (n: nat, ending: Ending)
      requires Valid() && FilesNamed(inputs)
      modifies this, tree
      ensures Valid() && tree == old(tree)
      ensures n <= |inputs| && State() == Fold(old(State()), inputs, n)
      ensures ending == Exhausted ==> n == |inputs| && Continues(old(State()), inputs, n)
      ensures ending != Exhausted ==> StopsAt(old(State()), inputs, n, ending)
      ensures tree.added == old(tree.added) + FileAdditions(inputs, n)
      ensures |old(events)| <= |events| && events[..|old(events)|] == old(events)
      ensures ending == Disconnected ==> inputs[n - 1] == ControlClosed
      ensures ending == Crashed ==> inputs[n - 1].Walked?
      ensures forall i | 0 <= i < n - 1 :: inputs[i] != ControlClosed
    {
      ghost var start := State();
      n, ending := 0, Exhausted;
      while n < |inputs|
        invariant n <= |inputs| && Valid() && tree == old(tree)
        invariant State() == Fold(start, inputs, n)
        invariant Continues(start, inputs, n)
        invariant forall i | 0 <= i < n :: inputs[i] != ControlClosed
        invariant ending == Exhausted
      {
        ghost var before := Fold(start, inputs, n);
        FeedStops(before, inputs[n]);
        var stop := OnInput(inputs[n]);
        assert Fold(start, inputs, n + 1) == Feed(before, inputs[n]).after;
        if stop.Some? {
          ending := stop.value;
          n := n + 1;
          assert Fold(start, inputs, n - 1) == before;
          assert StopsAt(start, inputs, n, ending);
          break;
        }
        ContinuesStep(start, inputs, n);
        n := n + 1;
      }
      FoldAdded(start, inputs, n);
      FoldExtendsEvents(start, inputs, n);
    }
  }

  /** A reported size is the sum of the sizes of all files inserted so far below the reported
      child of the current directory. */
  lemma ReportedSizeIsTotalBelowChild(tree: HandlerTree.Directory, currentDir: Path, name: string)
    requires tree.Valid() && currentDir + [name] in tree.nodes
    ensures tree.nodes[currentDir + [name]].totalSize == SizeUnder(tree.added, currentDir + [name])
    ensures SizeUnder(tree.added, currentDir + [name]) <= tree.nodes[[]].totalSize
  {
    var child := currentDir + [name];
    assert tree.nodes[child].totalSize == SizeUnder(tree.added, child);
    AncestorsHoldMore(tree.added, child, 0);
    assert tree.nodes[[]].totalSize == SizeUnder(tree.added, []);
  }

  /** Every ancestor of a directory holds at least what the directory holds. */
  lemma {:induction false} AncestorsHoldMore(added: seq<Addition>, q: Path, i: nat)
    requires i <= |q|
    ensures SizeUnder(added, q) <= SizeUnder(added, q[..i])
    decreases |q| - i
  {
    if i < |q| {
      AncestorsHoldMore(added, q, i + 1);
      ChildHoldsNoMoreThanParent(added, q[..i + 1]);
      assert q[..i + 1][..i] == q[..i];
    } else {
      assert q[..i] == q;
    }
  }
}
