/** The websocket actor of the first generation. When it starts it sends the listing of the scan
    root, then a thread of its own takes the walk's files one by one into a file tree and, for a
    file lying inside a subdirectory of the fixed directory `src`, reports the new total of that
    subdirectory. Frames from the client are only logged, except Close.

    The walk and the listing read the file system and are inputs of the model; the messages are
    kept as values, before their JSON encoding. */
module Actor {
  import opened Paths
  import opened Options
  import opened Walk
  import ActorTree

  /** The directory whose subdirectories the thread reports on: `src`, fixed. */
  const CurrentDir: Path := ["src"]

  /** One line of the root listing. */
  datatype DirEntry = File(name: string, size: nat) | Directory(name: string)

  /** What the actor sends to the client. */
  datatype WebSocketMessage = DirectoryChange(entries: seq<DirEntry>) | SizeUpdate(name: string, size: nat)

  /** What the client sends. */
  datatype Frame = Text(text: string) | Close | Other

  /** What the thread did with a file. */
  datatype Outcome = Reported | Quiet | Crashed

  /** The prefix loop with its `ok` flag: compare `currentDir` with `components` index by
      index, stopping at the first difference. None is the panic of indexing past the end of
      `components`, which happens when it is shorter and matches so far. */
  method MatchesCurrentDir(components: Path, currentDir: Path) returns (r: Option<bool>)
    ensures r.None? <==> |components| < |currentDir| && components == currentDir[..|components|]
    ensures r == Some(true) <==> IsPrefix(currentDir, components)
  {
    var ok := true;
    var i := 0;
    while i < |currentDir|
      invariant i <= |currentDir| && ok
      invariant i <= |components| && components[..i] == currentDir[..i]
    {
      if i >= |components| {
        assert components == currentDir[..i];
        return None;
      }
      if currentDir[i] != components[i] {
        ok := false;
        break;
      }
      assert components[..i + 1] == components[..i] + [components[i]];
      assert currentDir[..i + 1] == currentDir[..i] + [currentDir[i]];
      i := i + 1;
    }
    if !ok {
      assert components[i] != currentDir[i];
      if |currentDir| <= |components| {
        assert components[..|currentDir|][i] == components[i];
      } else {
        assert currentDir[..|components|][i] == currentDir[i];
      }
    } else {
      assert currentDir[..i] == currentDir;
    }
    return Some(ok);
  }

  /** A file the thread reports on: one inside a subdirectory of `src`, whose name is the
      component right after `src`. */
  predicate Reports(path: Path) {
    IsPrefix(CurrentDir, path) && |path| > |CurrentDir| + 1
  }

  /** The thread's state as a value: its tree and what it has sent. */
  datatype ThreadState = ThreadState(nodes: map<Path, ActorTree.Kind>, sent: seq<WebSocketMessage>)

  /** One file of the thread's loop: None when `insert_file` panics, otherwise the tree with the
      file inserted and, for a reported file, the new total of its subdirectory of `src` sent. */
  ghost function FileStep(s: ThreadState, file: FileSize): Option<ThreadState>
    requires |file.path| > 0
  {
    match ActorTree.Inserted(s.nodes, file.path, file.size)
    case None => None
    case Some(m) =>
      if Reports(file.path) then
        var name := file.path[|CurrentDir|];
        Some(ThreadState(m, s.sent + [SizeUpdate(name, ActorTree.TotalSize(m, CurrentDir + [name]))]))
      else Some(ThreadState(m, s.sent))
  }

  /** The thread's loop as a fold over the files: None once one of them panics. */
  ghost function FeedAll(s: ThreadState, files: seq<FileSize>): Option<ThreadState>
    requires forall i | 0 <= i < |files| :: |files[i].path| > 0
  {
    if files == [] then Some(s)
    else
      match FeedAll(s, files[..|files| - 1])
      case None => None
      case Some(t) => FileStep(t, files[|files| - 1])
  }

  /** The loop only ever appends to what was sent, at most one message per file, and keeps the
      tree shape. */
  lemma {:induction false} FeedAllExtends(s: ThreadState, files: seq<FileSize>)
    requires forall i | 0 <= i < |files| :: |files[i].path| > 0
    requires ActorTree.WellFormed(s.nodes) && FeedAll(s, files).Some?
    ensures var t := FeedAll(s, files).value;
            && |s.sent| <= |t.sent| <= |s.sent| + |files| && t.sent[..|s.sent|] == s.sent
            && ActorTree.WellFormed(t.nodes)
  {
    if files != [] {
      var init := files[..|files| - 1];
      var last := files[|files| - 1];
      FeedAllExtends(s, init);
      var t := FeedAll(s, init).value;
      ActorTree.InsertedWellFormed(t.nodes, last.path, last.size);
    }
  }

  /** Files that all lie outside the subdirectories of `src` make the thread send nothing. */
  lemma {:induction false} FeedAllQuiet(s: ThreadState, files: seq<FileSize>)
    requires forall i | 0 <= i < |files| :: |files[i].path| > 0 && !Reports(files[i].path)
    requires FeedAll(s, files).Some?
    ensures FeedAll(s, files).value.sent == s.sent
  {
    if files != [] {
      FeedAllQuiet(s, files[..|files| - 1]);
    }
  }

  /** The thread of `started` and what it has sent through the actor. */
  class SizeThread {
    var tree: ActorTree.Tree
    var sent: seq<WebSocketMessage>

    /** The state as a value. */
    ghost function State(): ThreadState
      reads this, tree
    {
      ThreadState(tree.nodes, sent)
    }

    /** `started`: the listing of the root goes out first; the thread starts with an empty tree. */
    constructor (rootEntries: seq<DirEntry>)
      ensures fresh(tree) && tree.nodes == map[[] := ActorTree.Directory] && ActorTree.WellFormed(tree.nodes)
      ensures sent == [DirectoryChange(rootEntries)]
    {
      tree := new ActorTree.Tree();
      sent := [DirectoryChange(rootEntries)];
    }

    /** One file: insert it, then, when it lies inside a subdirectory of `src`, report that
        subdirectory's total. The prefix loop and the lookup of the subdirectory cannot panic
        here; only the insert can, on a file standing where a directory is needed. */
    method OnFile(file: FileSize) returns (outcome: Outcome)
      requires ActorTree.WellFormed(tree.nodes) && |file.path| > 0
      modifies this, tree
      ensures tree == old(tree)
      ensures var after := ActorTree.Inserted(old(tree.nodes), file.path, file.size);
              && (after.None? ==> outcome == Crashed && tree.nodes == old(tree.nodes) && sent == old(sent))
              && (after.Some? ==> tree.nodes == after.value && ActorTree.WellFormed(tree.nodes) && outcome != Crashed)
      ensures outcome == Reported <==>
        outcome != Crashed && IsPrefix(CurrentDir, file.path) && |file.path| > |CurrentDir| + 1
      ensures outcome == Reported ==>
        sent == old(sent) + [SizeUpdate(file.path[|CurrentDir|],
                                        ActorTree.TotalSize(tree.nodes, CurrentDir + [file.path[|CurrentDir|]]))]
      ensures outcome != Reported ==> sent == old(sent)
      ensures FileStep(old(State()), file) == if outcome == Crashed then None else Some(State())
    {
      var components := file.path;
      var inserted := tree.InsertFile(components, file.size);
      if !inserted {
        return Crashed;
      }
      ActorTree.InsertedWellFormed(old(tree.nodes), components, file.size);
      var ok := MatchesCurrentDir(components, CurrentDir);
      assert ok.Some?;
      if ok.value && |components| - 1 > |CurrentDir| {
        var name := components[|CurrentDir|];
        var bap := CurrentDir + [name];
        ActorTree.InsertedNodes(old(tree.nodes), components, file.size);
        assert bap == Parent(components)[..|bap|];
        assert bap in Prefixes(Parent(components));
        var size := tree.GetTotalSize(bap);
        sent := sent + [SizeUpdate(name, size)];
        return Reported;
      }
      return Quiet;
    }

    /** The thread's loop over the received files; it dies with the first panic, leaving the
        tree and what was sent as the files before the failing one made them. */
    method Run(files: seq<FileSize>) returns (n: nat, crashed: bool)
      requires ActorTree.WellFormed(tree.nodes) && forall i | 0 <= i < |files| :: |files[i].path| > 0
      modifies this, tree
      ensures tree == old(tree) && n <= |files|
      ensures !crashed ==> n == |files| && FeedAll(old(State()), files) == Some(State())
      ensures !crashed ==> ActorTree.WellFormed(tree.nodes)
      ensures crashed ==>
        && 0 < n
        && FeedAll(old(State()), files[..n - 1]) == Some(State())
        && FeedAll(old(State()), files[..n]).None?
    {
      ghost var start := State();
      n := 0;
      assert files[..0] == [];
      while n < |files|
        invariant n <= |files| && tree == old(tree) && ActorTree.WellFormed(tree.nodes)
        invariant FeedAll(start, files[..n]) == Some(State())
      {
        var outcome := OnFile(files[n]);
        assert files[..n + 1][..n] == files[..n];
        n := n + 1;
        if outcome == Crashed {
          return n, true;
        }
      }
      assert files[..n] == files;
      return n, false;
    }
  }

  /** The actor itself: it only reacts to the client's frames. */
  class WebSocketActor {
    var rootPath: Path
    var stopped: bool

    constructor (rootPath: Path)
      ensures this.rootPath == rootPath && !stopped
    {
      this.rootPath := rootPath;
      stopped := false;
    }

    /** A frame from the client: Close stops the actor; text and anything else are only logged. */
    method HandleFrame(frame: Frame)
      modifies this
      ensures rootPath == old(rootPath)
      ensures stopped <==> old(stopped) || frame.Close?
    {
      match frame {
        case Close => stopped := true;
        case Text(_) =>
        case Other =>
      }
    }
  }
}
