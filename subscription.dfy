/** What the two scanner threads share: the listing they send on a directory change, the set of
    subscribed child directories they take from it, and the per-file decision whether the file's
    new size is reported to the client. */
module Subscription {
  import opened Paths

  /** One line of a directory listing as the scanner threads send it: a name and a size. */
  datatype ListedEntry = File(name: string, size: nat) | Directory(name: string, size: nat)

  /** The names of the directories of a listing: the entries whose sizes the client follows. */
  function DirectoryNames(entries: seq<ListedEntry>): (r: set<string>)
    ensures forall n :: n in r <==> exists i | 0 <= i < |entries| :: entries[i].Directory? && entries[i].name == n
  {
    if entries == [] then {}
    else
      var init := entries[..|entries| - 1];
      var last := entries[|entries| - 1];
      assert forall i | 0 <= i < |init| :: init[i] == entries[i];
      DirectoryNames(init) + if last.Directory? then {last.name} else {}
  }

  /** What the scanner does with a file after inserting it into its tree. */
  datatype Decision =
    | Skipped         // outside the current directory, or below an entry not subscribed
    | Emitted(name: string)  // the size of the current directory's child `name` goes out
    | Panicked        // an index out of bounds, or `expect` on a missing node

  /** The filter of both scanner threads, given the tree's node paths after the insert:
      `starts_with(current_dir)`, then the component right after it (which panics when there is
      none), then the subscription, then the lookup of that child, which panics when it is not a
      node. */
  function Decide(components: Path, currentDir: Path, subscribed: set<string>, nodes: set<Path>): Decision {
    if !IsPrefix(currentDir, components) then Skipped
    else if |components| == |currentDir| then Panicked
    else if components[|currentDir|] !in subscribed then Skipped
    else if currentDir + [components[|currentDir|]] !in nodes then Panicked
    else Emitted(components[|currentDir|])
  }

  /** A reported name is a subscribed child of the current directory on the file's path, and
      that child is a node of the tree; a file outside the current directory is never reported. */
  lemma DecideEmitsSubscribedChild(components: Path, currentDir: Path, subscribed: set<string>, nodes: set<Path>)
    ensures var d := Decide(components, currentDir, subscribed, nodes);
            && (d.Emitted? ==> && d.name in subscribed
                                && IsPrefix(currentDir + [d.name], components)
                                && currentDir + [d.name] in nodes)
            && (!IsPrefix(currentDir, components) ==> d == Skipped)
            && ((IsPrefix(currentDir, components) && |components| > |currentDir|
                 && components[|currentDir|] !in subscribed) ==> d == Skipped)
  {
    var d := Decide(components, currentDir, subscribed, nodes);
    if d.Emitted? {
      var child := currentDir + [d.name];
      assert components[..|child|] == components[..|currentDir|] + [components[|currentDir|]];
    }
  }

  /** Once a file has been inserted (every directory above it is a node), the filter can only
      panic for a file that is the current directory itself, or lies directly in it under a
      subscribed name that is not a directory of the tree. */
  lemma PanicOnlyNextToCurrentDir(components: Path, currentDir: Path, subscribed: set<string>, nodes: set<Path>)
    requires |components| > 0 && Prefixes(Parent(components)) <= nodes
    ensures Decide(components, currentDir, subscribed, nodes) == Panicked ==>
              IsPrefix(currentDir, components) && |components| <= |currentDir| + 1
  {
    if IsPrefix(currentDir, components) && |components| > |currentDir| + 1 {
      var child := currentDir + [components[|currentDir|]];
      assert child == Parent(components)[..|child|];
      assert child in Prefixes(Parent(components));
    }
  }
}
