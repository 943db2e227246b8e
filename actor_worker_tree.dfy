/** The size tree of the older scanner thread: every directory node keeps a running `totalSize`
    of the files inserted below it. Nodes are addressed by component path; the nested child maps
    are kept as one flat map from path to total (see module Paths). */
module ActorWorkerTree {
  import opened Paths
  import opened Options
  import opened Walk

  /** Every inserted file path is non-empty: it ends in the file's name. */
  predicate FilePaths(files: seq<FileSize>) {
    forall i | 0 <= i < |files| :: |files[i].path| > 0
  }

  /** What the inserted files add to the totals: each file's size along its directory. */
  function Additions(files: seq<FileSize>): (r: seq<Addition>)
    requires FilePaths(files)
    ensures |r| == |files|
    ensures forall i | 0 <= i < |files| :: r[i] == Addition(Parent(files[i].path), files[i].size)
  {
    if files == [] then [] else Additions(files[..|files| - 1]) + [Addition(Parent(files[|files| - 1].path), files[|files| - 1].size)]
  }

  /** Sum of the sizes of the files that lie strictly below `q`. */
  function SizeOfFilesBelow(files: seq<FileSize>, q: Path): nat {
    if files == [] then 0
    else
      var last := files[|files| - 1];
      SizeOfFilesBelow(files[..|files| - 1], q) + if IsPrefix(q, last.path) && |q| < |last.path| then last.size else 0
  }

  /** The directory totals are the sizes of the files below each directory. */
  lemma {:induction false} TotalsAreFilesBelow(files: seq<FileSize>, q: Path)
    requires FilePaths(files)
    ensures SizeUnder(Additions(files), q) == SizeOfFilesBelow(files, q)
  {
    if files != [] {
      var init := files[..|files| - 1];
      var last := files[|files| - 1];
      TotalsAreFilesBelow(init, q);
      assert Additions(files)[..|files| - 1] == Additions(init);
      DirectoryOfFile(q, last.path);
    }
  }

  /** The aggregation invariant: the root exists, every node hangs under its parent, every
      addition was made along an existing node, and each total is the sum added at or below it. */
  ghost predicate Aggregates(nodes: map<Path, nat>, added: seq<Addition>) {
    && [] in nodes
    && PrefixClosed(nodes.Keys)
    && (forall i | 0 <= i < |added| :: added[i].dir in nodes)
    && (forall q {:trigger SizeUnder(added, q)} | q in nodes :: nodes[q] == SizeUnder(added, q))
  }

  /** Adding `size` along `dir`, creating the missing nodes with total 0 first, keeps the
      invariant once the addition is logged. */
  lemma AggregatesAfterAddition(before: map<Path, nat>, after: map<Path, nat>, added: seq<Addition>,
                                dir: Path, size: nat)
    requires Aggregates(before, added)
    requires after.Keys == before.Keys + Prefixes(dir)
    requires forall q | q in after ::
      after[q] == (if q in before then before[q] else 0) + if IsPrefix(q, dir) then size else 0
    ensures Aggregates(after, added + [Addition(dir, size)])
  {
    PrefixClosedWithPrefixes(before.Keys, dir);
    PrefixOfItself(dir);
    var added' := added + [Addition(dir, size)];
    forall i | 0 <= i < |added'| ensures added'[i].dir in after {
    }
    forall q | q in after ensures after[q] == SizeUnder(added', q) {
      if q !in before {
        NothingUnderMissingNode(before.Keys, added, q);
      }
      SizeUnderAppend(added, Addition(dir, size), q);
    }
  }

  /** The map `insert_file` has built after `i` turns of its loop over `dir`: the root has been
      given `size` first, then each of the first `i` prefixes of `dir`, created with total 0
      when missing. */
  ghost function AddedAlong(before: map<Path, nat>, dir: Path, i: nat, size: nat): map<Path, nat>
    requires [] in before && i <= |dir|
  {
    if i == 0 then before[[] := before[[]] + size]
    else
      var nodes := AddedAlong(before, dir, i - 1, size);
      nodes[dir[..i] := (if dir[..i] in nodes then nodes[dir[..i]] else 0) + size]
  }

  /** After `i` turns, the nodes are the old ones and the first `i` prefixes of `dir`. */
  lemma {:induction false} AddedAlongKeys(before: map<Path, nat>, dir: Path, i: nat, size: nat)
    requires [] in before && i <= |dir|
    ensures AddedAlong(before, dir, i, size).Keys == before.Keys + Prefixes(dir[..i])
  {
    if i == 0 {
      PrefixesOfRoot();
      assert dir[..0] == [];
    } else {
      AddedAlongKeys(before, dir, i - 1, size);
      PrefixesStep(dir, i - 1);
    }
  }

  /** After `i` turns, `size` has been added to the root and the first `i` prefixes of `dir`,
      on top of what each node held (0 for a created one). */
  lemma {:induction false} AddedAlongTotals(before: map<Path, nat>, dir: Path, i: nat, size: nat)
    requires [] in before && i <= |dir|
    ensures var nodes := AddedAlong(before, dir, i, size);
            forall q | q in nodes ::
              nodes[q] == (if q in before then before[q] else 0) + if IsPrefix(q, dir) && |q| <= i then size else 0
  {
    if i > 0 {
      AddedAlongTotals(before, dir, i - 1, size);
      AddedAlongKeys(before, dir, i - 1, size);
      var nodes := AddedAlong(before, dir, i, size);
      forall q | q in nodes
        ensures nodes[q] == (if q in before then before[q] else 0) + if IsPrefix(q, dir) && |q| <= i then size else 0
      {
        PrefixAtDepth(q, dir, i - 1);
      }
    }
  }

  /** After the last turn: every prefix of `dir` is a node and holds `size` more. */
  lemma AddedAlongDone(before: map<Path, nat>, dir: Path, size: nat)
    requires [] in before
    ensures var nodes := AddedAlong(before, dir, |dir|, size);
            && nodes.Keys == before.Keys + Prefixes(dir)
            && forall q | q in nodes ::
                 nodes[q] == (if q in before then before[q] else 0) + if IsPrefix(q, dir) then size else 0
  {
    AddedAlongKeys(before, dir, |dir|, size);
    AddedAlongTotals(before, dir, |dir|, size);
    assert dir[..|dir|] == dir;
  }

  /** The loop of `insert_file`: starting from the root, get or create each node along `dir`
      in turn and add `size` to it. */
  method AddAlong(nodes: map<Path, nat>, dir: Path, size: nat) returns (r: map<Path, nat>)
    requires [] in nodes
    ensures r.Keys == nodes.Keys + Prefixes(dir)
    ensures forall q | q in r ::
      r[q] == (if q in nodes then nodes[q] else 0) + if IsPrefix(q, dir) then size else 0
  {
    var current: Path := [];
    r := nodes[current := nodes[current] + size];
    var i := 0;
    while i < |dir|
      invariant 0 <= i <= |dir| && current == dir[..i]
      invariant r == AddedAlong(nodes, dir, i, size)
    {
      PrefixSnoc(dir, i);
      var next := current + [dir[i]];
      var total := if next in r then r[next] else 0;
      r := r[next := total + size];
      current := next;
      i := i + 1;
    }
    AddedAlongDone(nodes, dir, size);
  }

  class Directory {
    /** The `total_size` of every directory node. */
    var nodes: map<Path, nat>
    /** What every file inserted so far added, with the directory it was added along. */
    ghost var added: seq<Addition>

    ghost predicate Valid()
      reads this
    {
      Aggregates(nodes, added)
    }

    /** `Directory::new()`: a lone root of size 0 with no entries. */
    constructor ()
      ensures Valid()
      ensures nodes == map[[] := 0] && added == []
    {
      nodes := map[[] := 0];
      added := [];
    }

    /** `at` (and `at_mut`, the same walk over a mutable borrow): follow `components` one entry
        at a time and give up at the first missing one. The node found is the one stored under
        `components`, the root for `[]`. */
    method At(components: Path) returns (r: Option<Path>)
      requires Valid()
      ensures r.None? <==> exists i | 0 < i <= |components| :: components[..i] !in nodes
      ensures r.Some? <==> components in nodes
      ensures r.Some? ==> r.value == components
    {
      var current: Path := [];
      var i := 0;
      while i < |components|
        invariant 0 <= i <= |components| && current == components[..i]
        invariant forall j | 0 < j <= i :: components[..j] in nodes
      {
        PrefixSnoc(components, i);
        var next := current + [components[i]];
        if next !in nodes {
          if components in nodes {
            PrefixOfKeyIsKey(nodes.Keys, components, i + 1);
          }
          return None;
        }
        current := next;
        i := i + 1;
      }
      assert current == components;
      return Some(current);
    }

    /** `insert_file`: add `size` to the root and to every directory along `components` but the
        last component, the file name, creating each missing directory with size 0 first. */
    method InsertFile(components: Path, size: nat)
      requires Valid() && |components| > 0
      modifies this
      ensures Valid()
      ensures added == old(added) + [Addition(Parent(components), size)]
      ensures nodes.Keys == old(nodes.Keys) + Prefixes(Parent(components))
      ensures components !in old(nodes) ==> components !in nodes
      ensures forall q | q in nodes ::
        nodes[q] == (if q in old(nodes) then old(nodes[q]) else 0) + if IsPrefix(q, Parent(components)) then size else 0
    {
      var dir := components[..|components| - 1];
      nodes := AddAlong(nodes, dir, size);
      AggregatesAfterAddition(old(nodes), nodes, added, dir, size);
      added := added + [Addition(dir, size)];
    }
  }

  /** After inserting `files` into a new tree, a directory's total is the sum of the sizes of
      those files strictly below it; the root's is the sum of all their sizes. */
  lemma TotalOfDirectory(tree: Directory, files: seq<FileSize>, q: Path)
    requires tree.Valid() && FilePaths(files) && tree.added == Additions(files) && q in tree.nodes
    ensures tree.nodes[q] == SizeOfFilesBelow(files, q)
    ensures tree.nodes[[]] == SumOfSizes(tree.added)
  {
    TotalsAreFilesBelow(files, q);
    RootHoldsEverything(tree.added);
    assert SizeUnder(tree.added, q) == tree.nodes[q];
    assert SizeUnder(tree.added, []) == tree.nodes[[]];
  }
}
