/** The size tree of the newer engine: every directory node keeps a running `totalSize` of the
    files seen below it and an `updating` flag. Nodes are addressed by component path; the
    nested child maps are kept as one flat map from path to node (see module Paths). */
module HandlerTree {
  import opened Paths
  import opened Options
  import opened Walk

  /** The fields of one directory node; its children are the keys one component longer. */
  datatype Node = Node(updating: bool, totalSize: nat)

  /** The node `Directory::new()` builds: still updating, nothing counted yet. */
  const NewNode: Node := Node(true, 0)

  /** The aggregation invariant of a tree: the root exists, every node hangs under its parent,
      every addition was made along an existing node, and every node's total is the sum of the
      sizes added at or below it. */
  ghost predicate Aggregates(nodes: map<Path, Node>, added: seq<Addition>) {
    && [] in nodes
    && PrefixClosed(nodes.Keys)
    && (forall i | 0 <= i < |added| :: added[i].dir in nodes)
    && (forall q {:trigger SizeUnder(added, q)} | q in nodes :: nodes[q].totalSize == SizeUnder(added, q))
  }

  /** Adding `size` along `dir`, creating the missing nodes with total 0 first, keeps the
      invariant once the addition is logged. */
  lemma AggregatesAfterAddition(before: map<Path, Node>, after: map<Path, Node>, added: seq<Addition>,
                                dir: Path, size: nat)
    requires Aggregates(before, added)
    requires after.Keys == before.Keys + Prefixes(dir)
    requires forall q | q in after ::
      after[q].totalSize == (if q in before then before[q].totalSize else 0) + if IsPrefix(q, dir) then size else 0
    ensures Aggregates(after, added + [Addition(dir, size)])
  {
    PrefixClosedWithPrefixes(before.Keys, dir);
    PrefixOfItself(dir);
    var added' := added + [Addition(dir, size)];
    forall i | 0 <= i < |added'| ensures added'[i].dir in after {
    }
    forall q | q in after ensures after[q].totalSize == SizeUnder(added', q) {
      if q !in before {
        NothingUnderMissingNode(before.Keys, added, q);
      }
      SizeUnderAppend(added, Addition(dir, size), q);
    }
  }

  /** Creating the missing nodes along `p` with total 0 keeps the invariant. */
  lemma AggregatesAfterGrowth(before: map<Path, Node>, after: map<Path, Node>, added: seq<Addition>, p: Path)
    requires Aggregates(before, added)
    requires after.Keys == before.Keys + Prefixes(p)
    requires forall q | q in after :: after[q].totalSize == if q in before then before[q].totalSize else 0
    ensures Aggregates(after, added)
  {
    PrefixClosedWithPrefixes(before.Keys, p);
    forall q | q in after && q !in before ensures after[q].totalSize == SizeUnder(added, q) {
      NothingUnderMissingNode(before.Keys, added, q);
    }
  }

  /** The map `insert_file` has built after `i` turns of its loop over `dir`: the root has been
      given `size` first, then each of the first `i` prefixes of `dir`, created as `new()` when
      missing. */
  ghost function AddedAlong(before: map<Path, Node>, dir: Path, i: nat, size: nat): map<Path, Node>
    requires [] in before && i <= |dir|
  {
    if i == 0 then before[[] := before[[]].(totalSize := before[[]].totalSize + size)]
    else
      var nodes := AddedAlong(before, dir, i - 1, size);
      var node := if dir[..i] in nodes then nodes[dir[..i]] else NewNode;
      nodes[dir[..i] := node.(totalSize := node.totalSize + size)]
  }

  /** After `i` turns, the nodes are the old ones and the first `i` prefixes of `dir`. */
  lemma {:induction false} AddedAlongKeys(before: map<Path, Node>, dir: Path, i: nat, size: nat)
    requires [] in before && i <= |dir|
    ensures AddedAlong(before, dir, i, size).Keys == before.Keys + Prefixes(dir[..i])
  {
    if i == 0 {
      PrefixesOfRoot();
      assert dir[..0] == [];
    } else {
      AddedAlongKeys(before, dir, i - 1, size);
      PrefixesStep(dir, i - 1);
    }
  }

  /** No turn touches a flag; created nodes carry the flag of `new()`. */
  lemma {:induction false} AddedAlongFlags(before: map<Path, Node>, dir: Path, i: nat, size: nat)
    requires [] in before && i <= |dir|
    ensures var nodes := AddedAlong(before, dir, i, size);
            forall q | q in nodes :: nodes[q].updating == if q in before then before[q].updating else NewNode.updating
  {
    if i > 0 {
      AddedAlongFlags(before, dir, i - 1, size);
      AddedAlongKeys(before, dir, i - 1, size);
    }
  }

  /** After `i` turns, `size` has been added to the root and the first `i` prefixes of `dir`,
      on top of what each node held (0 for a created one). */
  lemma {:induction false} AddedAlongTotals(before: map<Path, Node>, dir: Path, i: nat, size: nat)
    requires [] in before && i <= |dir|
    ensures var nodes := AddedAlong(before, dir, i, size);
            forall q | q in nodes ::
              nodes[q].totalSize == (if q in before then before[q].totalSize else 0)
                                    + if IsPrefix(q, dir) && |q| <= i then size else 0
  {
    if i > 0 {
      AddedAlongTotals(before, dir, i - 1, size);
      AddedAlongKeys(before, dir, i - 1, size);
      var nodes := AddedAlong(before, dir, i, size);
      forall q | q in nodes
        ensures nodes[q].totalSize == (if q in before then before[q].totalSize else 0)
                                      + if IsPrefix(q, dir) && |q| <= i then size else 0
      {
        PrefixAtDepth(q, dir, i - 1);
      }
    }
  }

  /** After the last turn: every prefix of `dir` is a node and holds `size` more. */
  lemma AddedAlongDone(before: map<Path, Node>, dir: Path, size: nat)
    requires [] in before
    ensures var nodes := AddedAlong(before, dir, |dir|, size);
            && nodes.Keys == before.Keys + Prefixes(dir)
            && (forall q | q in nodes ::
                  nodes[q].updating == if q in before then before[q].updating else NewNode.updating)
            && (forall q | q in nodes ::
                  nodes[q].totalSize == (if q in before then before[q].totalSize else 0)
                                        + if IsPrefix(q, dir) then size else 0)
  {
    AddedAlongKeys(before, dir, |dir|, size);
    AddedAlongFlags(before, dir, |dir|, size);
    AddedAlongTotals(before, dir, |dir|, size);
    assert dir[..|dir|] == dir;
  }

  /** The loop of `insert_file`: starting from the root, get or create each node along `dir`
      in turn and add `size` to it. */
  method AddAlong(nodes: map<Path, Node>, dir: Path, size: nat) returns (r: map<Path, Node>)
    requires [] in nodes
    ensures r.Keys == nodes.Keys + Prefixes(dir)
    ensures forall q | q in r ::
      r[q].updating == if q in nodes then nodes[q].updating else NewNode.updating
    ensures forall q | q in r ::
      r[q].totalSize == (if q in nodes then nodes[q].totalSize else 0) + if IsPrefix(q, dir) then size else 0
  {
    var current: Path := [];
    r := nodes[current := nodes[current].(totalSize := nodes[current].totalSize + size)];
    var i := 0;
    while i < |dir|
      invariant 0 <= i <= |dir| && current == dir[..i]
      invariant r == AddedAlong(nodes, dir, i, size)
    {
      PrefixSnoc(dir, i);
      var next := current + [dir[i]];
      var node := if next in r then r[next] else NewNode;
      r := r[next := node.(totalSize := node.totalSize + size)];
      current := next;
      i := i + 1;
    }
    AddedAlongDone(nodes, dir, size);
  }

  class Directory {
    var nodes: map<Path, Node>
    /** Every file size added so far, with the directory it was added along. */
    ghost var added: seq<Addition>

    ghost predicate Valid()
      reads this
    {
      Aggregates(nodes, added)
    }

    /** `Directory::new()`: a lone root, updating, of size 0, with no entries. */
    constructor ()
      ensures Valid()
      ensures nodes == map[[] := NewNode] && added == []
    {
      nodes := map[[] := NewNode];
      added := [];
    }

    /** `at_mut`: walk down `components` one entry at a time; give up at the first missing one.
        The node found is the one stored under `components`, the root for `[]`. */
    method AtMut(components: Path) returns (r: Option<Path>)
      requires Valid()
      ensures r.None? <==> exists i | 0 < i <= |components| :: components[..i] !in nodes
      ensures r.Some? <==> components in nodes
      ensures r.Some? ==> r.value == components
    {
      var current: Path := [];
      var i := 0;
      while i < |components|
        invariant 0 <= i <= |components| && current == components[..i]
        invariant forall j | 0 < j <= i :: components[..j] in nodes
      {
        PrefixSnoc(components, i);
        var next := current + [components[i]];
        if next !in nodes {
          if components in nodes {
            PrefixOfKeyIsKey(nodes.Keys, components, i + 1);
          }
          return None;
        }
        current := next;
        i := i + 1;
      }
      assert current == components;
      return Some(current);
    }

    /** `set_updating`: create every missing node along `components` as `new()`, then set the
        flag of the last one. No total changes. */
    method SetUpdating(components: Path, updating: bool)
      requires Valid()
      modifies this
      ensures Valid() && added == old(added)
      ensures nodes.Keys == old(nodes.Keys) + Prefixes(components)
      ensures components in nodes && nodes[components].updating == updating
      ensures forall q | q in nodes ::
        nodes[q].totalSize == if q in old(nodes) then old(nodes[q].totalSize) else 0
      ensures forall q | q in nodes && q != components ::
        nodes[q] == if q in old(nodes) then old(nodes[q]) else NewNode
    {
      var current: Path := [];
      var i := 0;
      PrefixesOfRoot();
      while i < |components|
        invariant 0 <= i <= |components| && current == components[..i] && added == old(added)
        invariant nodes.Keys == old(nodes.Keys) + Prefixes(current)
        invariant forall q | q in nodes :: nodes[q] == if q in old(nodes) then old(nodes[q]) else NewNode
      {
        PrefixSnoc(components, i);
        var next := current + [components[i]];
        if next !in nodes {
          nodes := nodes[next := NewNode];
        }
        PrefixesStep(components, i);
        current := next;
        i := i + 1;
      }
      assert current == components;
      PrefixOfItself(components);
      nodes := nodes[current := nodes[current].(updating := updating)];
      AggregatesAfterGrowth(old(nodes), nodes, added, components);
    }

    /** `add_file`: add `size` to the root and to every node along `components`. Every one of
        them exists already, because the walk announces a directory before its files. */
    method AddFile(components: Path, size: nat)
      requires Valid()
      requires components in nodes
      modifies this
      ensures Valid()
      ensures added == old(added) + [Addition(components, size)]
      ensures nodes.Keys == old(nodes.Keys)
      ensures forall q | q in nodes :: nodes[q].updating == old(nodes[q].updating)
      ensures forall q | q in nodes ::
        nodes[q].totalSize == old(nodes[q].totalSize) + if IsPrefix(q, components) then size else 0
    {
      var current: Path := [];
      var m := nodes[current := nodes[current].(totalSize := nodes[current].totalSize + size)];
      var i := 0;
      while i < |components|
        invariant 0 <= i <= |components| && current == components[..i]
        invariant m.Keys == nodes.Keys
        invariant forall q | q in m :: m[q].updating == nodes[q].updating
        invariant forall q | q in m ::
          m[q].totalSize == nodes[q].totalSize + if IsPrefix(q, components) && |q| <= i then size else 0
        modifies {}
      {
        PrefixOfKeyIsKey(nodes.Keys, components, i + 1);
        PrefixSnoc(components, i);
        current := current + [components[i]];
        m := m[current := m[current].(totalSize := m[current].totalSize + size)];
        forall q | q in m
          ensures m[q].totalSize == nodes[q].totalSize + if IsPrefix(q, components) && |q| <= i + 1 then size else 0
        {
          PrefixAtDepth(q, components, i);
        }
        i := i + 1;
      }
      nodes := m;
      PrefixesOfKeyAreKeys(old(nodes).Keys, components);
      AggregatesAfterAddition(old(nodes), nodes, added, components, size);
      added := added + [Addition(components, size)];
    }

    /** `update`: a directory event sets the flag of its node (true when entered, false when
        left); a file event adds the file's size along the path of the directory holding it. */
    method Update(fileType: FileType)
      requires Valid()
      requires fileType.File? ==> |fileType.path| > 0 && Parent(fileType.path) in nodes
      modifies this
      ensures Valid()
      ensures fileType.Dir? ==>
        && added == old(added)
        && nodes.Keys == old(nodes.Keys) + Prefixes(fileType.path)
        && fileType.path in nodes
        && nodes[fileType.path].updating == (fileType.status == Started)
        && (forall q | q in nodes ::
              nodes[q].totalSize == if q in old(nodes) then old(nodes[q].totalSize) else 0)
        && (forall q | q in nodes && q != fileType.path ::
              nodes[q].updating == if q in old(nodes) then old(nodes[q].updating) else NewNode.updating)
      ensures fileType.File? ==>
        && added == old(added) + [Addition(Parent(fileType.path), fileType.size)]
        && nodes.Keys == old(nodes.Keys)
        && (forall q | q in nodes :: nodes[q].updating == old(nodes[q].updating))
    {
      match fileType
      case Dir(path, status) =>
        var updating := if status == Started then true else false;
        SetUpdating(path, updating);
      case File(path, size) =>
        AddFile(path[..|path| - 1], size);
    }

    /** `insert_file` of the older tree, which this revision's scanner calls: add `size` to the
        root and along the directory holding the file, creating every missing node as `new()`.
        The file name itself never becomes a node. */
    method InsertFile(components: Path, size: nat)
      requires Valid() && |components| > 0
      modifies this
      ensures Valid()
      ensures added == old(added) + [Addition(Parent(components), size)]
      ensures nodes.Keys == old(nodes.Keys) + Prefixes(Parent(components))
      ensures forall q | q in nodes ::
        nodes[q].updating == if q in old(nodes) then old(nodes[q].updating) else NewNode.updating
      ensures forall q | q in nodes ::
        nodes[q].totalSize == (if q in old(nodes) then old(nodes[q].totalSize) else 0)
                              + if IsPrefix(q, Parent(components)) then size else 0
    {
      var dir := components[..|components| - 1];
      nodes := AddAlong(nodes, dir, size);
      AggregatesAfterAddition(old(nodes), nodes, added, dir, size);
      added := added + [Addition(dir, size)];
    }
  }

  /** The root's total is the sum of the sizes of every file applied to the tree. */
  lemma RootTotalIsSumOfFiles(tree: Directory)
    requires tree.Valid()
    ensures tree.nodes[[]].totalSize == SumOfSizes(tree.added)
  {
    RootHoldsEverything(tree.added);
  }
}
