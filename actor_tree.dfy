/** The file tree of the actor: a directory maps names to children, and files are leaves that
    carry their size. Totals are not stored but summed on demand.

    The nested maps are kept as one flat map from a node's component path to its kind; a node's
    children are the keys one component longer that extend it. */
module ActorTree {
  import opened Paths
  import opened Options

  datatype Kind = File(size: nat) | Directory

  /** The tree shape: the root is a directory, every node hangs under its parent, and only
      directories have children. */
  ghost predicate WellFormed(nodes: map<Path, Kind>) {
    && [] in nodes && nodes[[]].Directory?
    && PrefixClosed(nodes.Keys)
    && (forall q {:trigger Parent(q)} | q in nodes && q != [] :: Parent(q) in nodes && nodes[Parent(q)].Directory?)
  }

  /** The node at `p` and every node below it. */
  function Subtree(nodes: map<Path, Kind>, p: Path): set<Path> {
    set q | q in nodes && IsPrefix(p, q)
  }

  /** The children of `p`: the entries of its directory. */
  function Children(nodes: map<Path, Kind>, p: Path): set<Path> {
    set q | q in nodes && |q| == |p| + 1 && IsPrefix(p, q)
  }

  /** The size a single node contributes: its own size when it is a file, nothing otherwise. */
  function SizeAt(nodes: map<Path, Kind>, q: Path): nat {
    if q in nodes && nodes[q].File? then nodes[q].size else 0
  }

  /** Sum of the file sizes over a set of paths. */
  ghost function SizeOfFiles(nodes: map<Path, Kind>, s: set<Path>): nat
    decreases s
  {
    if s == {} then 0 else var q :| q in s; SizeAt(nodes, q) + SizeOfFiles(nodes, s - {q})
  }

  /** What `get_total_size` must return: the sum of the sizes of all files at or below `p`. */
  ghost function TotalSize(nodes: map<Path, Kind>, p: Path): nat {
    SizeOfFiles(nodes, Subtree(nodes, p))
  }

  lemma {:induction false} SizeOfFilesRemove(nodes: map<Path, Kind>, s: set<Path>, x: Path)
    requires x in s
    ensures SizeOfFiles(nodes, s) == SizeAt(nodes, x) + SizeOfFiles(nodes, s - {x})
    decreases s
  {
    var y :| y in s && SizeOfFiles(nodes, s) == SizeAt(nodes, y) + SizeOfFiles(nodes, s - {y});
    if y != x {
      SizeOfFilesRemove(nodes, s - {y}, x);
      SizeOfFilesRemove(nodes, s - {x}, y);
      assert s - {y} - {x} == s - {x} - {y};
    }
  }

  lemma {:induction false} SizeOfFilesUnion(nodes: map<Path, Kind>, a: set<Path>, b: set<Path>)
    requires a !! b
    ensures SizeOfFiles(nodes, a + b) == SizeOfFiles(nodes, a) + SizeOfFiles(nodes, b)
    decreases a
  {
    if a == {} {
      assert a + b == b;
    } else {
      var x :| x in a;
      SizeOfFilesRemove(nodes, a, x);
      SizeOfFilesRemove(nodes, a + b, x);
      assert (a + b) - {x} == (a - {x}) + b;
      SizeOfFilesUnion(nodes, a - {x}, b);
    }
  }

  /** Two trees that agree on the file sizes of `s` give `s` the same sum. */
  lemma {:induction false} SizeOfFilesAgree(m: map<Path, Kind>, n: map<Path, Kind>, s: set<Path>)
    requires forall q | q in s :: SizeAt(m, q) == SizeAt(n, q)
    ensures SizeOfFiles(m, s) == SizeOfFiles(n, s)
    decreases s
  {
    if s != {} {
      var x :| x in s;
      SizeOfFilesRemove(m, s, x);
      SizeOfFilesRemove(n, s, x);
      SizeOfFilesAgree(m, n, s - {x});
    }
  }

  /** A set holding no file sums to 0. */
  lemma {:induction false} SizeOfNoFiles(nodes: map<Path, Kind>, s: set<Path>)
    requires forall q | q in s :: SizeAt(nodes, q) == 0
    ensures SizeOfFiles(nodes, s) == 0
    decreases s
  {
    if s != {} {
      var x :| x in s;
      SizeOfFilesRemove(nodes, s, x);
      SizeOfNoFiles(nodes, s - {x});
    }
  }

  /** A node with anything below it is a directory. */
  lemma AncestorIsDirectory(nodes: map<Path, Kind>, c: Path, q: Path)
    requires WellFormed(nodes) && c in nodes && q in Subtree(nodes, c)
    ensures q != c ==> nodes[c].Directory?
  {
    if q != c {
      PrefixOfKeyIsKey(nodes.Keys, q, |c| + 1);
      var child := q[..|c| + 1];
      assert child != [] && Parent(child) == c;
    }
  }

  /** A file has no children, so its total is its own size. */
  lemma FileIsLeaf(nodes: map<Path, Kind>, c: Path)
    requires WellFormed(nodes) && c in nodes && nodes[c].File?
    ensures Subtree(nodes, c) == {c}
    ensures TotalSize(nodes, c) == nodes[c].size
  {
    forall q | q in Subtree(nodes, c) ensures q == c {
      AncestorIsDirectory(nodes, c, q);
    }
    PrefixOfItself(c);
    assert c[..|c|] == c;
    SizeOfFilesRemove(nodes, {c}, c);
    assert {c} - {c} == {};
  }

  /** A child's subtree is strictly smaller than its parent's: the recursion in
      `get_total_size` ends. */
  lemma SubtreeShrinks(nodes: map<Path, Kind>, p: Path, c: Path)
    requires p in nodes && c in Children(nodes, p)
    ensures |Subtree(nodes, c)| < |Subtree(nodes, p)|
  {
    var a := Subtree(nodes, c);
    var b := Subtree(nodes, p);
    forall q | q in a ensures q in b {
      assert q[..|p|] == c[..|p|];
    }
    assert p[..|p|] == p;
    assert p in b && p !in a;
    assert b == a + (b - a);
    assert |b - a| >= 1 by {
      assert p in b - a;
    }
  }

  /** The nodes below `p` reached through the children in `done`. */
  function Under(nodes: map<Path, Kind>, p: Path, done: set<Path>): set<Path> {
    set q | q in nodes && |q| > |p| && q[..|p| + 1] in done
  }

  /** Visiting one more child of `p` adds exactly that child's subtree. */
  lemma UnderStep(nodes: map<Path, Kind>, p: Path, done: set<Path>, c: Path)
    requires c in Children(nodes, p) && c !in done
    ensures SizeOfFiles(nodes, Under(nodes, p, done + {c}))
         == SizeOfFiles(nodes, Under(nodes, p, done)) + TotalSize(nodes, c)
  {
    var a := Under(nodes, p, done);
    var b := Subtree(nodes, c);
    forall q | q in b ensures |q| > |p| && q[..|p| + 1] == c {
    }
    assert a !! b;
    assert Under(nodes, p, done + {c}) == a + b;
    SizeOfFilesUnion(nodes, a, b);
  }

  /** What `get_total_size` relies on for one child: it is a node, its subtree is smaller, and
      as a file it counts with its own size. */
  lemma ChildOf(nodes: map<Path, Kind>, p: Path, c: Path)
    requires WellFormed(nodes) && p in nodes && c in Children(nodes, p)
    ensures c in nodes && |Subtree(nodes, c)| < |Subtree(nodes, p)|
    ensures nodes[c].File? ==> TotalSize(nodes, c) == nodes[c].size
  {
    SubtreeShrinks(nodes, p, c);
    if nodes[c].File? {
      FileIsLeaf(nodes, c);
    }
  }

  /** Taking child `c` out of the children still to visit adds its total to the sum so far. */
  lemma VisitChild(nodes: map<Path, Kind>, p: Path, remaining: set<Path>, c: Path)
    requires remaining <= Children(nodes, p) && c in remaining
    ensures var children := Children(nodes, p);
            SizeOfFiles(nodes, Under(nodes, p, children - (remaining - {c})))
            == SizeOfFiles(nodes, Under(nodes, p, children - remaining)) + TotalSize(nodes, c)
  {
    var children := Children(nodes, p);
    UnderStep(nodes, p, children - remaining, c);
    assert children - (remaining - {c}) == (children - remaining) + {c};
  }

  /** All children of a directory together reach everything below it. */
  lemma UnderAll(nodes: map<Path, Kind>, p: Path)
    requires WellFormed(nodes) && p in nodes && nodes[p].Directory?
    ensures TotalSize(nodes, p) == SizeOfFiles(nodes, Under(nodes, p, Children(nodes, p)))
  {
    var below := Under(nodes, p, Children(nodes, p));
    forall q | q in Subtree(nodes, p) && q != p ensures q in below {
      PrefixOfKeyIsKey(nodes.Keys, q, |p| + 1);
      assert q[..|p| + 1][..|p|] == p;
    }
    forall q | q in below ensures q in Subtree(nodes, p) && q != p {
      assert q[..|p|] == q[..|p| + 1][..|p|];
    }
    assert p[..|p|] == p;
    assert below == Subtree(nodes, p) - {p};
    SizeOfFilesRemove(nodes, Subtree(nodes, p), p);
  }

  /** A directory without entries has total 0. */
  lemma EmptyDirectoryTotal(nodes: map<Path, Kind>, p: Path)
    requires WellFormed(nodes) && p in nodes && nodes[p].Directory? && Children(nodes, p) == {}
    ensures TotalSize(nodes, p) == 0
  {
    UnderAll(nodes, p);
    assert Under(nodes, p, {}) == {};
  }

  /** The tree after adding any missing directory on the way to `dir`. */
  function WithDirectories(nodes: map<Path, Kind>, dir: Path): (r: map<Path, Kind>)
    ensures r.Keys == nodes.Keys + Prefixes(dir)
  {
    map q | q in nodes.Keys + Prefixes(dir) :: if q in nodes then nodes[q] else Directory
  }

  /** The tree after `entries.insert(name, File(size))` in the directory above `path`: the new
      leaf replaces whatever was stored under that name, together with everything below it. */
  function Replaced(nodes: map<Path, Kind>, path: Path, size: nat): map<Path, Kind> {
    (map q | q in nodes && !(IsPrefix(path, q) && |q| > |path|) :: nodes[q])[path := File(size)]
  }

  /** Some directory on the way to `dir`, `dir` included, is a file: `entries_mut` would hit
      its `unreachable!()`. */
  predicate FileOnTheWay(nodes: map<Path, Kind>, dir: Path) {
    exists j | 0 <= j <= |dir| :: dir[..j] in nodes && nodes[dir[..j]].File?
  }

  /** What `insert_file(path, size)` does to the tree: None when it panics on a file in the way,
      otherwise the tree with the missing directories created and the leaf stored. */
  function Inserted(nodes: map<Path, Kind>, path: Path, size: nat): Option<map<Path, Kind>>
    requires |path| > 0
  {
    if FileOnTheWay(nodes, Parent(path)) then None
    else Some(Replaced(WithDirectories(nodes, Parent(path)), path, size))
  }

  /** One turn of the `insert_file` loop: step into `dir[i]`, creating it as a directory when
      it is missing. */
  lemma WithDirectoriesStep(nodes: map<Path, Kind>, dir: Path, i: nat)
    requires i < |dir|
    ensures var m := WithDirectories(nodes, dir[..i]);
            var next := dir[..i] + [dir[i]];
            WithDirectories(nodes, dir[..i + 1]) == if next in m then m else m[next := Directory]
  {
    PrefixSnoc(dir, i);
    PrefixesStep(dir, i);
  }

  /** Walking to a node that already exists creates nothing. */
  lemma WithDirectoriesOfNode(nodes: map<Path, Kind>, dir: Path)
    requires PrefixClosed(nodes.Keys) && dir in nodes
    ensures WithDirectories(nodes, dir) == nodes
  {
    PrefixesOfKeyAreKeys(nodes.Keys, dir);
  }

  /** After an insert the file is stored under its path, every directory on the way is a
      directory, everything that was below the path is gone, and every other node keeps its kind. */
  lemma InsertedNodes(nodes: map<Path, Kind>, path: Path, size: nat)
    requires WellFormed(nodes) && |path| > 0 && Inserted(nodes, path, size).Some?
    ensures var m := Inserted(nodes, path, size).value;
            && path in m && m[path] == File(size)
            && (forall q | q in Prefixes(Parent(path)) :: q in m && m[q] == Directory)
            && (forall q | q in nodes && !IsPrefix(path, q) :: q in m && m[q] == nodes[q])
            && (forall q | q in m && q !in Prefixes(Parent(path)) && q != path :: q in nodes && !IsPrefix(path, q))
  {
    var dir := Parent(path);
    forall q | q in Prefixes(dir) ensures q in nodes ==> nodes[q].Directory? {
      var j :| 0 <= j <= |dir| && q == dir[..j];
    }
  }

  /** An insert keeps the tree shape. */
  lemma InsertedWellFormed(nodes: map<Path, Kind>, path: Path, size: nat)
    requires WellFormed(nodes) && |path| > 0 && Inserted(nodes, path, size).Some?
    ensures WellFormed(Inserted(nodes, path, size).value)
  {
    var m := Inserted(nodes, path, size).value;
    var dir := Parent(path);
    InsertedNodes(nodes, path, size);
    PrefixOfItself(dir);
    forall q | q in m && q != [] ensures Parent(q) in m && m[Parent(q)].Directory? {
      if q == path {
      } else if q in Prefixes(dir) {
        var j :| 0 <= j <= |dir| && q == dir[..j];
        assert Parent(q) == dir[..j - 1];
      } else {
        assert Parent(q) in nodes;
        assert IsPrefix(path, Parent(q)) ==> IsPrefix(path, q);
        assert m[Parent(q)] == nodes[Parent(q)];
      }
    }
    assert [] in Prefixes(dir);
  }

  /** Inserting the same file twice leaves the tree as after the first insert. */
  lemma InsertTwice(nodes: map<Path, Kind>, path: Path, size: nat)
    requires WellFormed(nodes) && |path| > 0 && Inserted(nodes, path, size).Some?
    ensures Inserted(Inserted(nodes, path, size).value, path, size) == Inserted(nodes, path, size)
  {
    var m := Inserted(nodes, path, size).value;
    var dir := Parent(path);
    InsertedNodes(nodes, path, size);
    forall j | 0 <= j <= |dir| ensures !(dir[..j] in m && m[dir[..j]].File?) {
      assert dir[..j] in Prefixes(dir);
    }
    assert WithDirectories(m, dir) == m;
    forall q | q in m ensures !(IsPrefix(path, q) && |q| > |path|) {
      if q in Prefixes(dir) {
        var j :| 0 <= j <= |dir| && q == dir[..j];
      }
    }
    assert Replaced(m, path, size) == m;
  }

  /** An insert adds the file's size to the total of every directory on its way, once whatever
      was stored under the file's name before is taken away. */
  lemma InsertAddsToAncestors(nodes: map<Path, Kind>, path: Path, size: nat, q: Path)
    requires WellFormed(nodes) && |path| > 0 && Inserted(nodes, path, size).Some?
    requires q in Prefixes(Parent(path))
    ensures TotalSize(Inserted(nodes, path, size).value, q) + TotalSize(nodes, path)
         == TotalSize(nodes, q) + size
  {
    var m := Inserted(nodes, path, size).value;
    var dir := Parent(path);
    InsertedNodes(nodes, path, size);
    var j :| 0 <= j <= |dir| && q == dir[..j];
    assert IsPrefix(q, path) && |q| < |path|;
    var replaced := Subtree(nodes, path);
    var kept := Subtree(nodes, q) - replaced;
    var created := Subtree(m, q) - kept - {path};
    forall x | x in replaced ensures x in Subtree(nodes, q) {
      PrefixTransitive(q, path, x);
    }
    assert Subtree(nodes, q) == kept + replaced;
    forall x | x in kept ensures x in Subtree(m, q) && SizeAt(m, x) == SizeAt(nodes, x) {
    }
    forall x | x in created ensures SizeAt(m, x) == 0 {
      assert x in Prefixes(dir);
    }
    assert IsPrefix(path, path);
    assert Subtree(m, q) == kept + created + {path};
    SizeOfFilesUnion(m, kept + created, {path});
    SizeOfFilesUnion(m, kept, created);
    SizeOfNoFiles(m, created);
    SizeOfFilesAgree(m, nodes, kept);
    SizeOfFilesUnion(nodes, kept, replaced);
    SizeOfFilesRemove(m, {path}, path);
    assert {path} - {path} == {};
  }

  /** An insert leaves the total of every node off the file's way unchanged. */
  lemma InsertLeavesOthers(nodes: map<Path, Kind>, path: Path, size: nat, q: Path)
    requires WellFormed(nodes) && |path| > 0 && Inserted(nodes, path, size).Some?
    requires !IsPrefix(q, path) && !IsPrefix(path, q)
    ensures TotalSize(Inserted(nodes, path, size).value, q) == TotalSize(nodes, q)
  {
    var m := Inserted(nodes, path, size).value;
    var dir := Parent(path);
    InsertedNodes(nodes, path, size);
    forall x | x in Subtree(m, q) ensures x in Subtree(nodes, q) {
    }
    forall x | x in Subtree(nodes, q) ensures x in Subtree(m, q) && SizeAt(m, x) == SizeAt(nodes, x) {
      if IsPrefix(path, x) {
        PrefixesComparable(q, path, x);
      }
    }
    assert Subtree(m, q) == Subtree(nodes, q);
    SizeOfFilesAgree(m, nodes, Subtree(nodes, q));
  }

  class Tree {
    var nodes: map<Path, Kind>

    /** `Tree::Directory(HashMap::new())`: an empty root directory. */
    constructor ()
      ensures nodes == map[[] := Directory] && WellFormed(nodes)
    {
      nodes := map[[] := Directory];
    }

    /** `insert_file`: walk down the directories of `path`, creating the missing ones, and store
        the file under its name. Hitting a file on the way is the `unreachable!()` of
        `entries_mut`: `ok` is false and the tree is left as it was. */
    method InsertFile(path: Path, size: nat) returns (ok: bool)
      requires WellFormed(nodes) && |path| > 0
      modifies this
      ensures ok <==> Inserted(old(nodes), path, size).Some?
      ensures ok ==> nodes == Inserted(old(nodes), path, size).value
      ensures !ok ==> nodes == old(nodes)
    {
      var dir := path[..|path| - 1];
      var current: Path := [];
      var i := 0;
      assert dir[..0] == [];
      PrefixesOfRoot();
      assert nodes == WithDirectories(old(nodes), dir[..0]);
      while i < |dir|
        invariant 0 <= i <= |dir| && current == dir[..i]
        invariant nodes == WithDirectories(old(nodes), dir[..i])
        invariant forall j | 0 <= j < i :: !(dir[..j] in old(nodes) && old(nodes)[dir[..j]].File?)
      {
        PrefixOfItself(current);
        if nodes[current].File? {
          WithDirectoriesOfNode(old(nodes), current);
          return false;
        }
        WithDirectoriesStep(old(nodes), dir, i);
        var next := current + [dir[i]];
        if next !in nodes {
          nodes := nodes[next := Directory];
        }
        PrefixSnoc(dir, i);
        current := next;
        i := i + 1;
      }
      assert current == dir;
      PrefixOfItself(current);
      if nodes[current].File? {
        WithDirectoriesOfNode(old(nodes), current);
        return false;
      }
      nodes := Replaced(nodes, path, size);
      return true;
    }

    /** `get_total_size`: add up the children, a file by its size and a directory by its own
        total. The result is the sum of the sizes of all files below `p`. */
    method GetTotalSize(p: Path) returns (size: nat)
      requires WellFormed(nodes) && p in nodes && nodes[p].Directory?
      ensures size == TotalSize(nodes, p)
      decreases |Subtree(nodes, p)|
    {
      var children := Children(nodes, p);
      var remaining := children;
      size := 0;
      assert Under(nodes, p, {}) == {};
      while remaining != {}
        invariant remaining <= children
        invariant size == SizeOfFiles(nodes, Under(nodes, p, children - remaining))
        decreases |remaining|
      {
        var c :| c in remaining;
        ChildOf(nodes, p, c);
        var s: nat;
        if nodes[c].File? {
          s := nodes[c].size;
        } else {
          s := GetTotalSize(c);
        }
        VisitChild(nodes, p, remaining, c);
        size := size + s;
        remaining := remaining - {c};
      }
      assert children - remaining == children;
      UnderAll(nodes, p);
    }
  }
}
