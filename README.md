# disk-usage engine, modelled in Dafny

This project models the core of the disk-usage browser's live engine. The engine walks a directory
tree, keeps a running size for every directory, and streams size updates to one connected client
as the walk goes on and as the client navigates. The repository holds two generations of this
engine, and both are modelled:

- the newer tokio/warp session (`src/websocket_handler/...`): the size tree with `updating`
  flags, the scanner task and its subscription filter, the size-update coalescer, and the
  session's navigation and delete handling;
- the older actix actor (`src/web_server/websocket_actor/...`): the scanner thread's size tree
  and its per-file loop with control polling, the actor's own file tree of leaves summed on
  demand, and the per-file filter inside `started`.

Every tree is a map from a directory name to a child, nested. The model keeps each tree as one
flat map from a node's full component path to the node, closed under taking the parent (module
`Paths`). Trees that keep running totals carry a ghost log of every size added, with the
directory it was added along. Their invariant says that each node's total is the sum of the
sizes added at or below it. Each scanner and session is a class whose methods change its fields
as the source does. The messages a component sends are a `seq` field it extends. Inputs from the
file system, the channels and the clock are method parameters or sequences of inputs.

Modules, one per source file (plus shared definitions):

| module | file |
|---|---|
| `Paths`, `Options`, `Walk` | component paths, the size log; `Option`; the walkers' events |
| `Api` | `src/websocket_handler/api.rs` |
| `HandlerTree` | `src/websocket_handler/worker/tree.rs` |
| `HandlerScanner` | `src/websocket_handler/worker/mod.rs` |
| `Subscription` | the listing and the per-file decision both scanner threads share |
| `Coalescer`, `Handler` | `src/websocket_handler/mod.rs` |
| `ActorWorkerTree` | `src/web_server/websocket_actor/worker/tree.rs` |
| `ActorScanner` | `src/web_server/websocket_actor/worker/mod.rs` |
| `ActorTree` | `src/web_server/websocket_actor/tree.rs` |
| `Actor` | `src/web_server/websocket_actor/mod.rs` |

Behaviours of the code that the model follows and that are easy to miss:

- A failed removal leaves `delete` early through `?`: no `Deleting{Finished}` event is sent and
  no refresh happens.
- A node created by `Directory::new()` has `updating: true`. The flag is a `bool`.
- The subscribed set holds only the names of the directory entries of the current listing. It
  holds no ancestors and not the root. A file is reported through the child of the current
  directory that it lies in, with that child's total.
- The session loop stops on a close frame or on a receive error. Other non-text frames are
  ignored. A malformed control message panics in `serde_json::from_str(..).unwrap()` and is not
  logged.
- A cancelled coalescer timer is stopped by dropping its remote handle when its entry leaves the
  pending map.

## Model

| member | source | states |
|---|---|---|
| HandlerTree.Directory.constructor | src/websocket_handler/worker/tree.rs:24-30 | a new tree is a lone root, updating, of total 0, with no entries, and the aggregation invariant holds |
| HandlerTree.Directory.AtMut | src/websocket_handler/worker/tree.rs:32-39 | the lookup gives up exactly when some prefix of the path is not a node; otherwise it finds the node stored under the path, the root for `[]` |
| HandlerTree.Directory.SetUpdating | src/websocket_handler/worker/tree.rs:41-51 | every missing node on the path is created as `new()`, only the target's flag is set, no total changes anywhere, and the invariant is kept |
| HandlerTree.Directory.AddFile | src/websocket_handler/worker/tree.rs:53-67 | with every node on the path present (the unwrap's comment), the size is added to the root and to each node on the path and to nothing else; no node or flag changes; totals stay the sums of the sizes added below |
| HandlerTree.Directory.Update | src/websocket_handler/worker/tree.rs:69-88 | a `Started`/`Finished` directory event sets its node's flag to true/false, creating missing nodes with `new()`'s flag, and leaves every other flag and every total as it was; a file event adds its size along its directory, the path without the file name, and changes no flag |
| HandlerTree.Directory.InsertFile | src/web_server/websocket_actor/worker/tree.rs:45-57 | the `insert_file` this revision's scanner calls: the size goes to the root and to every directory of the file's path, missing ones created as `new()`; the file name never becomes a node |
| HandlerTree.AddAlong | src/web_server/websocket_actor/worker/tree.rs:46-56 | the get-or-create loop over the path: its nodes are the old ones plus the path's prefixes, flags are kept (`new()`'s for created nodes), and exactly the path's prefixes gain the size |
| HandlerTree.AddedAlongKeys | src/web_server/websocket_actor/worker/tree.rs:50-56 | after i turns of the loop the nodes are the old ones plus the first i prefixes |
| HandlerTree.AddedAlongFlags | src/web_server/websocket_actor/worker/tree.rs:50-56 | no turn of the loop touches a flag; created nodes have `new()`'s flag |
| HandlerTree.AddedAlongTotals | src/web_server/websocket_actor/worker/tree.rs:50-56 | after i turns exactly the root and the first i prefixes have gained the size |
| HandlerTree.AddedAlongDone | src/web_server/websocket_actor/worker/tree.rs:45-57 | when the loop ends every prefix of the path is a node and has gained the size |
| HandlerTree.AggregatesAfterAddition | src/websocket_handler/worker/tree.rs:53-67 | adding a size along a path (creating nodes with total 0) keeps every total equal to the sum of the sizes added at or below the node |
| HandlerTree.AggregatesAfterGrowth | src/websocket_handler/worker/tree.rs:41-51 | creating nodes of total 0 keeps the aggregation invariant |
| HandlerTree.RootTotalIsSumOfFiles | src/websocket_handler/worker/tree.rs:82-86 | the root's total is the sum of the sizes of all files applied |
| ActorWorkerTree.Directory.constructor | src/web_server/websocket_actor/worker/tree.rs:16-21 | a new tree is a lone root of total 0 with no entries |
| ActorWorkerTree.Directory.At | src/web_server/websocket_actor/worker/tree.rs:23-43 | `at` (and `at_mut`) give up exactly when some prefix of the path is missing, and otherwise find the node stored under the path, the root for `[]` |
| ActorWorkerTree.Directory.InsertFile | src/web_server/websocket_actor/worker/tree.rs:45-57 | with a non-empty path (`len() - 1`), the size goes to the root and to every directory of the path but the file name, which never becomes a node; missing directories are created with total 0 first |
| ActorWorkerTree.AddAlong | src/web_server/websocket_actor/worker/tree.rs:46-56 | the loop's nodes are the old ones plus the path's prefixes, and exactly those prefixes gain the size |
| ActorWorkerTree.AddedAlongKeys | src/web_server/websocket_actor/worker/tree.rs:50-56 | after i turns the nodes are the old ones plus the first i prefixes |
| ActorWorkerTree.AddedAlongTotals | src/web_server/websocket_actor/worker/tree.rs:50-56 | after i turns exactly the root and the first i prefixes have gained the size |
| ActorWorkerTree.AddedAlongDone | src/web_server/websocket_actor/worker/tree.rs:45-57 | when the loop ends every prefix is a node and has gained the size |
| ActorWorkerTree.AggregatesAfterAddition | src/web_server/websocket_actor/worker/tree.rs:45-57 | one insert keeps every total equal to the sum of the sizes added at or below the node |
| ActorWorkerTree.Additions | src/web_server/websocket_actor/worker/tree.rs:49-50 | each inserted file adds its size along its path without the file name |
| ActorWorkerTree.TotalsAreFilesBelow | src/web_server/websocket_actor/worker/tree.rs:45-57 | the sum added at or below a directory is the sum of the sizes of the inserted files lying strictly below it |
| ActorWorkerTree.TotalOfDirectory | src/web_server/websocket_actor/worker/tree.rs:45-57 | after inserting files into a new tree, each directory's total is the size of the files strictly below it and the root's is the size of all of them |
| ActorTree.Tree.constructor | src/web_server/websocket_actor/tree.rs:70 | a new tree is an empty root directory, well formed |
| ActorTree.Tree.InsertFile | src/web_server/websocket_actor/tree.rs:25-45 | the insert succeeds exactly when no file stands on the way to the file's directory, and then the tree is the reference insert; on a file in the way (`unreachable!()` in `entries_mut`) it changes nothing |
| ActorTree.Tree.GetTotalSize | src/web_server/websocket_actor/tree.rs:47-61 | the total of a directory is the sum of the sizes of all files below it |
| ActorTree.Inserted | src/web_server/websocket_actor/tree.rs:25-45 | `insert_file`: no result when a file stands on the way to the file's directory, otherwise the missing directories created and the leaf stored |
| ActorTree.Replaced | src/web_server/websocket_actor/tree.rs:44 | storing the leaf replaces whatever was under its name, with everything below it |
| ActorTree.FileOnTheWay | src/web_server/websocket_actor/tree.rs:18-23 | some directory on the way, the file's directory included, is a file, where `entries_mut` reaches `unreachable!()` |
| ActorTree.InsertedNodes | src/web_server/websocket_actor/tree.rs:34-44 | after an insert the file is stored under its name, every directory on the way is a directory, what was below the name is gone, and every other node keeps its kind |
| ActorTree.InsertedWellFormed | src/web_server/websocket_actor/tree.rs:25-45 | an insert keeps the tree shape: only directories have entries |
| ActorTree.InsertTwice | src/web_server/websocket_actor/tree.rs:37-44 | inserting the same file twice leaves the tree as one insert does |
| ActorTree.InsertAddsToAncestors | src/web_server/websocket_actor/tree.rs:25-45 | an insert raises the total of every directory on the way by the file's size, less whatever the replaced entry held |
| ActorTree.InsertLeavesOthers | src/web_server/websocket_actor/tree.rs:25-45 | an insert leaves the total of every node off the file's way unchanged |
| ActorTree.EmptyDirectoryTotal | src/web_server/websocket_actor/tree.rs:47-61 | a directory with no entries has total 0 |
| ActorTree.FileIsLeaf | src/web_server/websocket_actor/tree.rs:52-54 | a file has no entries, and its total is its own size |
| ActorTree.AncestorIsDirectory | src/web_server/websocket_actor/tree.rs:5-8 | a node with anything below it is a directory |
| ActorTree.SubtreeShrinks | src/web_server/websocket_actor/tree.rs:51-55 | each entry's subtree is strictly smaller, so the recursion ends |
| ActorTree.ChildOf | src/web_server/websocket_actor/tree.rs:51-55 | an entry is a node with a smaller subtree, and a file entry counts with its own size |
| ActorTree.UnderStep | src/web_server/websocket_actor/tree.rs:51-58 | visiting one more entry adds exactly that entry's total |
| ActorTree.VisitChild | src/web_server/websocket_actor/tree.rs:51-58 | taking an entry out of those still to visit adds its total to the running sum |
| ActorTree.UnderAll | src/web_server/websocket_actor/tree.rs:47-61 | the entries of a directory together reach everything below it |
| ActorTree.WithDirectoriesStep | src/web_server/websocket_actor/tree.rs:35-41 | one turn of the loop steps into the next entry, inserting an empty directory when it is missing |
| ActorTree.WithDirectoriesOfNode | src/web_server/websocket_actor/tree.rs:37-39 | walking to an existing node creates nothing |
| Actor.MatchesCurrentDir | src/web_server/websocket_actor/mod.rs:54-60 | the prefix loop panics exactly when the path is shorter than the current directory and matches it so far, and otherwise answers whether the current directory is a prefix of the path |
| Actor.SizeThread.constructor | src/web_server/websocket_actor/mod.rs:36-48 | the root listing goes out first and the thread starts with an empty tree |
| Actor.SizeThread.OnFile | src/web_server/websocket_actor/mod.rs:50-76 | each file is inserted first; a size is reported exactly when the path starts with `src` and has at least two components beyond it, and it names the component after `src` and carries that subdirectory's total; a file in the way of the insert kills the thread; the new tree and messages are `FileStep` of the old ones |
| Actor.SizeThread.Run | src/web_server/websocket_actor/mod.rs:47-78 | the tree and everything sent are `FeedAll` of the files received, up to and excluding the first insert that panics, which ends the thread |
| Actor.FileStep | src/web_server/websocket_actor/mod.rs:50-76 | one file of the thread: no result when the insert panics, otherwise the inserted tree and, for a file inside a subdirectory of `src`, one more `SizeUpdate` with that subdirectory's name and total |
| Actor.FeedAll | src/web_server/websocket_actor/mod.rs:47-78 | the thread's loop as a fold of `FileStep` over the files, with no result once a file panics |
| Actor.FeedAllExtends | src/web_server/websocket_actor/mod.rs:47-78 | the loop only appends to what was sent, at most one message per file, and keeps the tree shape |
| Actor.FeedAllQuiet | src/web_server/websocket_actor/mod.rs:54-60 | files that are all outside the subdirectories of `src` make the thread send nothing |
| Actor.WebSocketActor.constructor | src/web_server/websocket_actor/mod.rs:21-25 | the actor keeps its root path and is running |
| Actor.WebSocketActor.HandleFrame | src/web_server/websocket_actor/mod.rs:160-172 | a Close frame stops the actor; text and any other frame leave it as it is |
| Subscription.DirectoryNames | src/websocket_handler/worker/mod.rs:24-33 | the names returned are exactly those of the directory entries of the listing |
| Subscription.Decide | src/websocket_handler/worker/mod.rs:106-118 | the filter of both scanner threads: skip a file outside the current directory, panic on the current directory itself, skip an unsubscribed child, panic when the child is not a node, otherwise report the child |
| Subscription.DecideEmitsSubscribedChild | src/websocket_handler/worker/mod.rs:106-119 | a reported name is a subscribed child of the current directory on the file's path and a node of the tree; a file outside the current directory or under an unsubscribed child is never reported |
| Subscription.PanicOnlyNextToCurrentDir | src/websocket_handler/worker/mod.rs:111-118 | after the insert, the filter can panic only for a file that is the current directory or lies directly in it |
| HandlerScanner.Scanner.constructor | src/websocket_handler/worker/mod.rs:59-73 | the task waits for the first directory change, sends its listing and subscribes to its directories, before the walk starts |
| HandlerScanner.Scanner.SendDirectoryChange | src/websocket_handler/worker/mod.rs:16-45 | exactly one `DirectoryChange` with the requested path goes out, and the names of the listing's directories are returned |
| HandlerScanner.Scanner.OnChangeDirectory | src/websocket_handler/worker/mod.rs:90-95 | a directory change sends the listing and replaces both the current directory and the subscribed names; the tree is not touched |
| HandlerScanner.Scanner.OnFile | src/websocket_handler/worker/mod.rs:101-127 | the file is inserted before any filtering; a size goes out exactly when the filter decides so, naming the child and carrying the sum of everything added at or below the current directory's child |
| HandlerScanner.Scanner.OnInput | src/websocket_handler/worker/mod.rs:89-132 | the new node set, size log, current directory, subscriptions and events, and whether the loop stops, are exactly `Feed` of the old state and the input |
| HandlerScanner.Scanner.Run | src/websocket_handler/worker/mod.rs:88-134 | the state after the loop is the fold of `Feed` over the inputs it handled; it runs through all inputs when none stops it, and otherwise stops at the first that does, with `Disconnected` exactly at the end of the control stream and `Crashed` exactly at a file whose filter panics; it inserts every file handled, in order, and only extends what it has sent |
| HandlerScanner.FileStep | src/websocket_handler/worker/mod.rs:101-127 | one walked file: inserted into the tree whatever follows; a `SizeUpdate` for the decided child with the sum added at or below it when the filter emits; a stop with `Crashed` when the filter panics |
| HandlerScanner.Feed | src/websocket_handler/worker/mod.rs:89-132 | one input of the select loop: a directory change replaces the current directory and subscriptions and sends the listing; the end of the control stream stops the loop; a file is `FileStep`; the end of the walk changes nothing |
| HandlerScanner.Fold | src/websocket_handler/worker/mod.rs:88-134 | the state after the first n inputs of the loop |
| HandlerScanner.FileAdditions | src/websocket_handler/worker/mod.rs:101-104 | the sizes the files among the first n inputs add to the tree, in order, each along its directory |
| HandlerScanner.FeedStops | src/websocket_handler/worker/mod.rs:90-118 | an input stops the loop with `Disconnected` exactly when it is the end of the control stream, and with `Crashed` exactly when it is a file whose filter decides `Panicked` after the insert; nothing else stops it |
| HandlerScanner.FoldAdded | src/websocket_handler/worker/mod.rs:101-104 | after n inputs the size log is the old one followed by the additions of their files |
| HandlerScanner.FoldExtendsEvents | src/websocket_handler/worker/mod.rs:88-134 | the loop only appends to what it has sent, at most one event per input |
| HandlerScanner.QuietOutsideCurrentDir | src/websocket_handler/worker/mod.rs:106-109 | without directory changes, files outside the current directory send nothing and change neither the current directory nor the subscriptions |
| HandlerScanner.ReportedSizeIsTotalBelowChild | src/websocket_handler/worker/mod.rs:116-119 | a reported size is the sum of the sizes added below the reported child, and no more than the root's total |
| HandlerScanner.AncestorsHoldMore | src/websocket_handler/worker/tree.rs:56-66 | every ancestor of a directory holds at least what the directory holds |
| ActorScanner.TurnAdditionsOfFiles | src/web_server/websocket_actor/worker/mod.rs:69-90 | what the walk loop adds to the tree is what inserting the walked files adds |
| ActorScanner.WalkedSizeIsFilesBelow | src/web_server/websocket_actor/worker/mod.rs:89-105 | starting from a new tree, a directory's total after the walked files is the size of those files strictly below it |
| ActorScanner.Scanner.constructor | src/web_server/websocket_actor/worker/mod.rs:53-67 | the thread starts with a new tree, and waits for the first directory change before taking any file |
| ActorScanner.Scanner.SendDirectoryChange | src/web_server/websocket_actor/worker/mod.rs:11-39 | one `DirectoryChange(path, entries)` goes out, and the names of the listing's directories are returned |
| ActorScanner.Scanner.OnChangeDirectory | src/web_server/websocket_actor/worker/mod.rs:71-78 | a directory change during the walk sends the listing and replaces the current directory and the subscribed names |
| ActorScanner.Scanner.OnFile | src/web_server/websocket_actor/worker/mod.rs:89-113 | the file is inserted first; files outside the current directory or under an unsubscribed child send nothing; a reported size is the sum added below the child |
| ActorScanner.Scanner.OnTurn | src/web_server/websocket_actor/worker/mod.rs:69-113 | the new node set, size log, current directory, subscriptions and events, and whether the loop stops, are exactly `Feed` of the old state and the turn; a disconnected control channel and only that stops before the file |
| ActorScanner.Scanner.Advance | src/web_server/websocket_actor/worker/mod.rs:69-113 | one turn against the fold of the turns before it: the state moves on to the fold of one more turn, or stays put on a closed channel, and a stop is recorded as the loop's ending |
| ActorScanner.Scanner.WalkLoop | src/web_server/websocket_actor/worker/mod.rs:69-114 | the state after the loop is the fold of `Feed` over the turns it went through; it ends after all of them, before the file of the first turn with a disconnected channel, or right after the first turn whose filter panics; it inserts the walked files in order and every turn it went through had a live channel |
| ActorScanner.FileStep | src/web_server/websocket_actor/worker/mod.rs:89-113 | one walked file: inserted whatever follows; a `SizeUpdate` for the decided child with the sum added at or below it when the filter emits; a stop with `Crashed` when the filter panics |
| ActorScanner.Polled | src/web_server/websocket_actor/worker/mod.rs:70-87 | a directory change received in the poll sends the listing and replaces the current directory and subscriptions before the file is handled; an empty poll changes nothing |
| ActorScanner.Feed | src/web_server/websocket_actor/worker/mod.rs:69-113 | one turn: a disconnected control channel stops the loop before the file; otherwise the poll is applied and the file is `FileStep` |
| ActorScanner.Fold | src/web_server/websocket_actor/worker/mod.rs:69-114 | the state after the first n turns |
| ActorScanner.TurnAdditions | src/web_server/websocket_actor/worker/mod.rs:89-90 | one addition per turn, of the turn's file along its directory, in order |
| ActorScanner.FeedStops | src/web_server/websocket_actor/worker/mod.rs:70-105 | a turn stops the loop with `ControlClosed` exactly when its poll finds the channel disconnected, and with `Crashed` exactly when its file's filter decides `Panicked`, with the poll's directory change applied; nothing else stops it |
| ActorScanner.FoldAdded | src/web_server/websocket_actor/worker/mod.rs:89-90 | after n turns with a live channel the size log is the old one followed by their files' additions |
| ActorScanner.FoldExtendsEvents | src/web_server/websocket_actor/worker/mod.rs:69-114 | the loop only appends to what it has sent, at most two events per turn |
| ActorScanner.WalkedAdditions | src/web_server/websocket_actor/worker/mod.rs:69-114 | however the loop ended, every turn it went through had a live channel, and the size log holds exactly their files' additions |
| ActorScanner.QuietOutsideCurrentDir | src/web_server/websocket_actor/worker/mod.rs:92-95 | without directory changes, files outside the current directory send nothing and change neither the current directory nor the subscriptions |
| ActorScanner.Scanner.AfterWalk | src/web_server/websocket_actor/worker/mod.rs:121-129 | after the walk a directory change still sends its listing, but changes neither the current directory, the subscriptions nor the tree |
| ActorScanner.Scanner.Run | src/web_server/websocket_actor/worker/mod.rs:52-130 | the state is the walk loop's fold, ending as the loop ended; when the files ran out the later directory changes are answered with their listings, in order, without changing the current directory or the subscriptions; after an early stop nothing more is sent |
| Coalescer.Step | src/websocket_handler/mod.rs:228-320 | one input of the coalescer: a directory change clears the pending map and is forwarded; an updating non-zero size is withheld; any other size update drops its entry and is forwarded; a `Deleting` event passes through; an expiring timer sends its entry's size |
| Coalescer.Run | src/websocket_handler/mod.rs:228-320 | the coalescer over a sequence of inputs, in order |
| Coalescer.StepKeepsPendingNonZero | src/websocket_handler/mod.rs:246-262 | only non-zero sizes are ever withheld |
| Coalescer.StepEmitsAtMostOne | src/websocket_handler/mod.rs:228-320 | each event or timer sends at most one event and never takes anything back |
| Coalescer.DirectoryChangeClears | src/websocket_handler/mod.rs:230-233 | a directory change empties the pending map, cancelling every timer, and is forwarded unchanged |
| Coalescer.SlowUpdateWithheld | src/websocket_handler/mod.rs:246-304 | an updating non-zero size is withheld; its path's pending size becomes that size and every other path's entry is unchanged |
| Coalescer.OtherUpdateForwarded | src/websocket_handler/mod.rs:305-317 | any other size update drops its path's pending entry and timer and is forwarded unchanged |
| Coalescer.DeletingPassesThrough | src/websocket_handler/mod.rs:314-317 | a `Deleting` event passes through and the pending map is untouched |
| Coalescer.NoFireAfterDirectoryChange | src/websocket_handler/mod.rs:230-233 | no timer armed before a directory change emits anything after it |
| Coalescer.RunKeepsPendingNonZero | src/websocket_handler/mod.rs:228-320 | over any run the pending sizes stay non-zero |
| Coalescer.RunExtendsOutput | src/websocket_handler/mod.rs:228-320 | over any run the output only grows, by at most one event per input |
| Coalescer.BurstWithheld | src/websocket_handler/mod.rs:255-304 | a burst of updating sizes for one path sends nothing and leaves the latest size pending |
| Coalescer.BurstThenFire | src/websocket_handler/mod.rs:255-301 | a burst followed by the timer's expiry sends exactly one size update, with the latest size, still updating |
| Coalescer.SizeUpdateStream.constructor | src/websocket_handler/mod.rs:225 | the coalescer starts with nothing pending |
| Coalescer.SizeUpdateStream.Receive | src/websocket_handler/mod.rs:228-320 | one incoming event changes the state as the coalescer step does, and a timer is armed exactly for an updating size whose path had nothing pending |
| Coalescer.SizeUpdateStream.Fire | src/websocket_handler/mod.rs:268-294 | an expiring timer removes its path's entry and sends its latest size, still updating |
| Handler.DeleteEvents | src/websocket_handler/mod.rs:93-128 | the events `delete` sends for a removal of the given outcome |
| Handler.DeleteEventsByOutcome | src/websocket_handler/mod.rs:93-128 | a fast success sends only `Finished`; a slow success sends `Deleting` then `Finished`; a fast failure sends nothing; a slow failure sends only `Deleting` |
| Handler.DeleteEventsMeaning | src/websocket_handler/mod.rs:93-128 | `Finished` is sent exactly when the removal succeeded and `Deleting` exactly when it was slow; every event names the path, and `Finished` comes last |
| Handler.WebsocketHandler.constructor | src/websocket_handler/mod.rs:161-166 | a new session looks at the root and has sent nothing |
| Handler.WebsocketHandler.ChangeDir | src/websocket_handler/mod.rs:56-63 | the current directory becomes the path and one `ChangeDirectory` for it goes to the scanner |
| Handler.WebsocketHandler.Refresh | src/websocket_handler/mod.rs:133-135 | the current directory is asked for again and nothing else changes |
| Handler.WebsocketHandler.Delete | src/websocket_handler/mod.rs:65-131 | the events sent are the delete events of the outcome; a refresh happens and the result is `Ok` exactly when the removal succeeded |
| Handler.WebsocketHandler.HandleMessage | src/websocket_handler/mod.rs:28-54 | navigation changes the current directory and asks the scanner; a delete behaves as `delete`, its error only logged; a reveal changes nothing |
| Paths.RootHoldsEverything | src/websocket_handler/worker/tree.rs:56-58 | the root holds the size of every file added |
| Paths.ChildHoldsNoMoreThanParent | src/websocket_handler/worker/tree.rs:61-66 | a directory holds no more than its parent |
| Paths.NothingUnderMissingNode | src/websocket_handler/worker/tree.rs:53-67 | nothing has been added below a path that is not a node |
| Paths.DirectoryOfFile | src/web_server/websocket_actor/worker/tree.rs:49-50 | a directory lies at or above a file's directory exactly when it is a proper prefix of the file's path |

## Left out

- Integer width: sizes and totals are unbounded `nat`s. The `u64` overflow of `total_size += size` and `size += s` is not modelled: it panics in debug builds and wraps in release builds. No directory holds 2^64 bytes.
- File system: the walkers, `get_directory_entries`, the free-space query, `fs::metadata`, `remove_dir_all`/`remove_file` and `reveal::that` are not part of this model. The walk is a sequence of inputs, each listing comes with its directory change, and a removal is given as its outcome.
- `get_components` and `at_path`: paths are taken already split into components, so `at_path(p)` is `At` on `p`'s components.
- Concurrency: channels are modelled as the sequences of messages sent and received. The interleaving of the select loop is the order of the inputs, and a `try_recv` result is part of each turn. A timer's expiry is the input `TimerFired(path)`, and the delete race is the input `Removal.slow`. The mutex, the weak pointer and `tokio::spawn` are not modelled.
- Transport: JSON encoding and decoding, `WebsocketHandler::run`, the socket split, and the actor's `TextMessage`/`BinaryMessage` relays and `stopping`/`stopped` logs are not part of this model.
- Panics on closed channels: `send(..).unwrap()` and `expect("event_sender.send")` are not modelled. Sending is always taken to succeed. The panic of `control_receiver.next().await.unwrap()` on a channel closed before the first message is not modelled either: the first directory change is a constructor argument.
- Nested maps: each tree is a flat prefix-closed map keyed by path. The `current` pointer walking down the nested maps is a loop variable holding the node's path. A node reference returned by `at`/`at_mut` is the node's path.
- Revision mismatches:
  - `src/websocket_handler/worker/mod.rs` calls `insert_file`, which its own `tree.rs` lacks. `HandlerTree.Directory.InsertFile` follows the `insert_file` of `src/web_server/websocket_actor/worker/tree.rs` and creates nodes as this revision's `new()`.
  - `src/web_server/websocket_actor/mod.rs` calls `Tree::new()` and `tree.at(..)`, which its `tree.rs` lacks. The thread starts from an empty root directory, as that file's test does, and sums the subtree at the reported child with `GetTotalSize`.
  - The scanner threads send `DirectoryChange{path, entries[, free]}` and `SizeUpdate{Entry::Directory{name, size}}`, which are not the `api.rs` shapes. They are modelled with the threads' own types (`Subscription.ListedEntry`), and `api.rs` is used for the coalescer and the session.
- `entries`/`entries_mut` are not separate members. Their `unreachable!()` on a file is a file on the way (`ActorTree.FileOnTheWay`) in `InsertFile`, which leaves the tree unchanged and reports it. It is a precondition (`Directory?`) of `GetTotalSize`.
- HandlerTree.Directory.AddFile: requires every node on its path to exist. This is the `unwrap` its comment justifies (the walk announces a directory before its files), not a panic outcome.
- Coalescer.Step: requires `Acceptable`, that is, no size update for a file entry. The coalescer panics on one through `unreachable!()`, and the scanner sends only directory entries.
- The coalescer's `sums.remove(&path).unwrap()` in a timer: a timer fires only while its entry is pending, since dropping the entry cancels it. `TimerFired` for an absent path therefore changes nothing rather than panicking.
- Logging, `Instant` timing, and the commented-out chunk sender in `src/web_server/websocket_actor/mod.rs:80-128` are not modelled.
