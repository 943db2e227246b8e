/** Paths as sequences of components, and the size bookkeeping shared by the size trees.

    Every tree of the engine is a map from a directory name to a child node, nested. The model
    keeps such a tree flat: one map from the full component path of a node to the node, closed
    under taking the parent. The functions here say which sizes a node must hold. */
module Paths {

  /** A path relative to the scan root, already split into its components. */
  type Path = seq<string>

  /** `p.starts_with(prefix)`: `prefix` is `p` itself or one of its ancestors. */
  predicate IsPrefix(prefix: Path, p: Path) {
    |prefix| <= |p| && p[..|prefix|] == prefix
  }

  /** The directory that holds the file at `p`: `p` without its last component, the file name. */
  function Parent(p: Path): (r: Path)
    requires |p| > 0
    ensures |r| + 1 == |p| && IsPrefix(r, p)
  {
    p[..|p| - 1]
  }

  /** The root `[]`, every ancestor of `p`, and `p` itself. */
  function Prefixes(p: Path): set<Path> {
    set i | 0 <= i <= |p| :: p[..i]
  }

  /** Every node but the root hangs under its parent: the flat image of nested child maps. */
  ghost predicate PrefixClosed(keys: set<Path>) {
    forall q {:trigger Parent(q)} | q in keys && q != [] :: Parent(q) in keys
  }

  lemma {:induction false} PrefixOfKeyIsKey(keys: set<Path>, p: Path, i: nat)
    requires PrefixClosed(keys) && p in keys && i <= |p|
    ensures p[..i] in keys
    decreases |p| - i
  {
    if i < |p| {
      PrefixOfKeyIsKey(keys, p, i + 1);
      var q := p[..i + 1];
      assert q in keys && q != [];
      assert Parent(q) == p[..i];
    } else {
      assert p[..i] == p;
    }
  }

  lemma PrefixesOfKeyAreKeys(keys: set<Path>, p: Path)
    requires PrefixClosed(keys) && p in keys
    ensures Prefixes(p) <= keys
  {
    forall q | q in Prefixes(p) ensures q in keys {
      var i :| 0 <= i <= |p| && q == p[..i];
      PrefixOfKeyIsKey(keys, p, i);
    }
  }

  lemma PrefixTransitive(a: Path, b: Path, c: Path)
    requires IsPrefix(a, b) && IsPrefix(b, c)
    ensures IsPrefix(a, c)
  {
    assert c[..|a|] == c[..|b|][..|a|];
  }

  /** Two prefixes of one path are prefixes of each other, one way or the other. */
  lemma PrefixesComparable(a: Path, b: Path, c: Path)
    requires IsPrefix(a, c) && IsPrefix(b, c)
    ensures IsPrefix(a, b) || IsPrefix(b, a)
  {
    if |a| <= |b| {
      assert b[..|a|] == c[..|b|][..|a|];
    } else {
      assert a[..|b|] == c[..|a|][..|b|];
    }
  }

  /** One more component of `p` on a prefix of `p` is the next prefix. */
  lemma PrefixSnoc(p: Path, i: nat)
    requires i < |p|
    ensures p[..i] + [p[i]] == p[..i + 1]
    ensures (p[..i] + [p[i]])[..i] == p[..i]
  {
  }

  /** The prefixes of `p` no longer than `i + 1` are those no longer than `i`, and `p[..i + 1]`. */
  lemma PrefixAtDepth(q: Path, p: Path, i: nat)
    requires i < |p|
    ensures (IsPrefix(q, p) && |q| <= i + 1) <==> (IsPrefix(q, p) && |q| <= i) || q == p[..i + 1]
  {
  }

  /** Walking one more component down `p` adds exactly one prefix. */
  lemma PrefixesStep(p: Path, i: nat)
    requires i < |p|
    ensures Prefixes(p[..i + 1]) == Prefixes(p[..i]) + {p[..i + 1]}
  {
    forall q | q in Prefixes(p[..i + 1]) ensures q in Prefixes(p[..i]) || q == p[..i + 1] {
      var j :| 0 <= j <= i + 1 && q == p[..i + 1][..j];
      if j <= i {
        assert q == p[..i][..j];
      }
    }
    forall q | q in Prefixes(p[..i]) ensures q in Prefixes(p[..i + 1]) {
      var j :| 0 <= j <= i && q == p[..i][..j];
      assert q == p[..i + 1][..j];
    }
    assert p[..i + 1] == p[..i + 1][..i + 1];
  }

  /** Adding the prefixes of `p` to a prefix-closed key set keeps it prefix-closed. */
  lemma PrefixClosedWithPrefixes(keys: set<Path>, p: Path)
    requires PrefixClosed(keys)
    ensures PrefixClosed(keys + Prefixes(p))
  {
    forall q | q in keys + Prefixes(p) && q != [] ensures Parent(q) in keys + Prefixes(p) {
      if q !in keys {
        var i :| 0 <= i <= |p| && q == p[..i];
        assert Parent(q) == p[..i - 1];
      } else {
        assert Parent(q) in keys;
      }
    }
  }

  lemma PrefixesOfRoot()
    ensures Prefixes([]) == {[]}
  {
    var root: Path := [];
    assert root[..0] == root;
    assert root in Prefixes(root);
  }

  lemma PrefixOfItself(p: Path)
    ensures p in Prefixes(p) && [] in Prefixes(p)
  {
    assert p[..|p|] == p;
    assert p[..0] == [];
  }

  /** What one observed file adds to the totals: the directory holding it and its size. */
  datatype Addition = Addition(dir: Path, size: nat)

  /** Sum of the sizes of the additions whose directory is `q` or lies below `q`:
      the size a directory node at `q` must report. */
  function SizeUnder(added: seq<Addition>, q: Path): nat {
    if added == [] then 0
    else
      var last := added[|added| - 1];
      SizeUnder(added[..|added| - 1], q) + (if IsPrefix(q, last.dir) then last.size else 0)
  }

  /** Sum of the sizes of all additions. */
  function SumOfSizes(added: seq<Addition>): nat {
    if added == [] then 0 else SumOfSizes(added[..|added| - 1]) + added[|added| - 1].size
  }

  /** The root lies above every directory, so it holds the size of every file. */
  lemma {:induction false} RootHoldsEverything(added: seq<Addition>)
    ensures SizeUnder(added, []) == SumOfSizes(added)
  {
    if added != [] {
      RootHoldsEverything(added[..|added| - 1]);
    }
  }

  /** A directory holds at most what its parent holds. */
  lemma {:induction false} ChildHoldsNoMoreThanParent(added: seq<Addition>, q: Path)
    requires q != []
    ensures SizeUnder(added, q) <= SizeUnder(added, q[..|q| - 1])
  {
    if added != [] {
      ChildHoldsNoMoreThanParent(added[..|added| - 1], q);
      var d := added[|added| - 1].dir;
      if IsPrefix(q, d) {
        assert d[..|q| - 1] == q[..|q| - 1];
      }
    }
  }

  /** No file has been added under a path that is not a node, when every addition's directory
      is a node of a prefix-closed tree. */
  lemma {:induction false} NothingUnderMissingNode(keys: set<Path>, added: seq<Addition>, q: Path)
    requires PrefixClosed(keys)
    requires forall i | 0 <= i < |added| :: added[i].dir in keys
    requires q !in keys
    ensures SizeUnder(added, q) == 0
  {
    if added != [] {
      NothingUnderMissingNode(keys, added[..|added| - 1], q);
      var d := added[|added| - 1].dir;
      if IsPrefix(q, d) {
        PrefixOfKeyIsKey(keys, d, |q|);
      }
    }
  }

  /** Appending one addition changes each total by that file's size or not at all. */
  lemma SizeUnderAppend(added: seq<Addition>, a: Addition, q: Path)
    ensures SizeUnder(added + [a], q) == SizeUnder(added, q) + (if IsPrefix(q, a.dir) then a.size else 0)
  {
    assert (added + [a])[..|added|] == added;
  }

  /** A directory lies at or above the directory of a file exactly when it is a proper prefix of
      the file's path: the file name itself is never a directory of the tree. */
  lemma DirectoryOfFile(q: Path, file: Path)
    requires |file| > 0
    ensures IsPrefix(q, Parent(file)) <==> IsPrefix(q, file) && |q| < |file|
  {
    if IsPrefix(q, file) && |q| < |file| {
      assert Parent(file)[..|q|] == file[..|q|];
    }
  }
}
