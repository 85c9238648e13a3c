# Drag-and-drop block editor: history and canvas handlers

This project models the editing session of a browser block editor. The user drops
"Block A" and "Block B" blocks onto a canvas, joins them with directed edges,
deletes them from a context menu and drags them around. Undo and Redo step
through a linear history of full graph snapshots.

Two source files hold the logic, and each has a module here:

- `HomePage` (src/components/HomePage.tsx) is the history. Its state is the
  displayed graph `flow`, the snapshot list `history` and the cursor
  `historyIndex`. There is a value form, `HistoryState`, with one function per
  operation: `Init`, `CommitStep` (`setFlowAndHistory`), `UndoStep`, `RedoStep`,
  `LiveNodes` and `LiveEdges` (the `setNodes`/`setEdges` callbacks). The predicates
  `CanUndo` and `CanRedo` are the source's two derived booleans, with the same
  definitions. There is also a class, `FlowHistory`, with the three fields. Each
  of its methods ensures that its new `State()` is the matching function applied
  to the old one. `WellFormed` (the cursor is inside the history) holds after
  every operation. `Synced` (the display is the snapshot under the cursor) holds
  after a commit, and after an undo or redo that moves the cursor. It does not
  hold after a live edit. An undo at the first snapshot and a redo at the last
  change nothing, so a live edit stays on display after them.
- `CanvasArea` (src/components/CanvasArea.tsx) holds the handlers. Their decisions
  are functions on snapshots: `NewNode`/`Dropped` for a drop, `CanConnect`/
  `Connected` for a connection, `Deleted` for the cascading delete, and
  `SafeNodes` for the position defaulting. The class `Canvas` holds the handler
  state, which is the drop counter `nodeIdCounter` and the open `contextMenu`.
  The four graph edits (`OnDrop`, `OnConnect`, `HandleDeleteNode` and
  `OnNodeDragStop`) each commit exactly one snapshot through the page or change
  nothing. `OnNodesChange` and `OnEdgesChange` are live edits with no commit.
  `OpenContextMenu` and `HandleCanvasClick` change only the menu. The graph
  edits also keep the invariant `IdsIssued`: every node id in every snapshot
  came from the counter, and no snapshot has two nodes with the same id.
- `Flow` has the graph records and the array operations `find` and `filter`.
  `NodeIds` has the `${type}_${n}` ids and the decimal rendering of the counter.
  `Wrappers` has `Option`.

`CanvasArea.AddConnectUndoSession` is a scenario driver, not a model of a source member, so it has no row below. It is a client of both classes. In order, it
drops a "blockA" and a "blockB" (`DropTwoBlocks`) and tries the reversed
connection, which is refused. It then makes the correct connection, which leaves four snapshots with
Undo enabled. Three undos then go back to the empty graph.

Two behaviours of the code that a reader may not expect:

- The connection rule compares display labels ("Block A" → "Block B"), not block
  types. A drop labels *every* type other than "blockA" as "Block B", so any such
  type is accepted as a target (`LabelFor`, `NewNode`).
- A delete commits even when no node has the menu's id, for example after an
  undo removed that node. If no edge mentions the id either, the committed
  snapshot is the old graph (`DeletedAbsentIsIdentity`). When every edge joins
  existing nodes (`EdgesClosed`), no edge can mention an id that no node has. A drag-stop commits even when nothing moved.

## Model

| member | source | states |
|---|---|---|
| `Flow.Filter` | src/components/CanvasArea.tsx:100-101 | the result holds exactly the elements that pass the test, and is no longer than the input |
| `Flow.FilterSingleton` | src/components/CanvasArea.tsx:100-101 | a one-element sequence keeps its element exactly when the element passes; with `FilterConcat`, this determines `Filter` completely |
| `Flow.FilterConcat` | src/components/CanvasArea.tsx:100-101 | filtering a concatenation is the concatenation of the filtered parts, so the survivors keep their relative order |
| `Flow.FilterKeepsAll` | src/components/CanvasArea.tsx:100-101 | when every element passes, the filter returns its input unchanged |
| `Flow.Find` | src/components/CanvasArea.tsx:69-70 | `None` exactly when no element matches; otherwise the element returned is the first one that matches |
| `NodeIds.Decimal` | src/components/CanvasArea.tsx:52 | the rendering of the counter is non-empty, all digits, and has no leading zero |
| `NodeIds.ParseDecimalOfDecimal` | src/components/CanvasArea.tsx:52 | reading the decimal rendering back gives the counter (round trip) |
| `NodeIds.DecimalInjective` | src/components/CanvasArea.tsx:52 | distinct counters render differently |
| `NodeIds.NodeId` | src/components/CanvasArea.tsx:52 | the id is the block type, then "_", then exactly `Decimal(n)`, the counter's digits |
| `NodeIds.NodeIdInjective` | src/components/CanvasArea.tsx:52 | two ids are equal if and only if both their block types and their counters are equal, even when a type contains "_" |
| `HomePage.Init` | src/components/HomePage.tsx:10-15 | the session starts with one snapshot, cursor 0 and an empty graph on display; Undo and Redo are both disabled |
| `HomePage.CommitStep` | src/components/HomePage.tsx:17-22 | keeps the history up to the cursor and appends the snapshot; the new length is old index + 2 and the cursor moves to old index + 1; the snapshot is on display; Undo is enabled and Redo is not |
| `HomePage.UndoStep` | src/components/HomePage.tsx:24-29 | at cursor 0 nothing changes; otherwise the cursor steps back, the snapshot there is on display and Redo is enabled; the history never changes |
| `HomePage.RedoStep` | src/components/HomePage.tsx:31-36 | at the last snapshot nothing changes; otherwise the cursor steps forward, the snapshot there is on display and Undo is enabled; the history never changes |
| `HomePage.UndoThenRedo` | src/components/HomePage.tsx:24-36 | from a synced state with Undo enabled, an undo followed by a redo restores the state |
| `HomePage.RedoThenUndo` | src/components/HomePage.tsx:24-36 | from a synced state with Redo enabled, a redo followed by an undo restores the state |
| `HomePage.UndoNSeeks` | src/components/HomePage.tsx:24-29 | `n` undos from a synced state land on snapshot `index - n`, stopping at 0 |
| `HomePage.RedoNSeeks` | src/components/HomePage.tsx:31-36 | `n` redos from a synced state land on snapshot `index + n`, stopping at the last one |
| `HomePage.UndoNThenRedoN` | src/components/HomePage.tsx:24-36 | `n` undos followed by `n` redos restore the state when `n <= index` |
| `HomePage.CommitAllAppends` | src/components/HomePage.tsx:17-22 | after `N` commits the history is the old prefix up to the cursor plus the `N` snapshots, with the cursor on the last one and Redo disabled |
| `HomePage.CommitsThenUndos` | src/components/HomePage.tsx:17-36 | `N` commits then `N` undos bring back the cursor and the snapshot from before the commits |
| `HomePage.CommitsThenUndosFromInit` | src/components/HomePage.tsx:10-36 | from the start, `N` commits then `N` undos reach cursor 0 with the empty graph on display and Undo disabled |
| `HomePage.CommitPrunesRedoBranch` | src/components/HomePage.tsx:17-20 | committing S4 to `[S0,S1,S2,S3]` at cursor 1 gives `[S0,S1,S4]` at cursor 2 |
| `HomePage.CanUndo` | src/components/HomePage.tsx:38 | `canUndo` is the cursor being past the first snapshot, so it needs at least two snapshots; `UndoStep` changes the state only when it holds |
| `HomePage.CanRedo` | src/components/HomePage.tsx:39 | `canRedo` is the cursor being before the last snapshot, so it needs at least two snapshots; `RedoStep` changes the state only when it holds |
| `HomePage.LiveNodes` | src/components/HomePage.tsx:56 | the `setNodes` lambda leaves the history and the cursor alone, so the cursor stays inside the history; `LiveNodesKeepsHistory` states the rest |
| `HomePage.LiveEdges` | src/components/HomePage.tsx:57 | the `setEdges` lambda leaves the history and the cursor alone, so the cursor stays inside the history; `LiveEdgesKeepsHistory` states the rest |
| `HomePage.LiveNodesKeepsHistory` | src/components/HomePage.tsx:56 | a live node edit replaces the nodes and keeps the edges, the history and the cursor; the state stays synced if and only if the nodes did not change |
| `HomePage.LiveEdgesKeepsHistory` | src/components/HomePage.tsx:57 | a live edge edit replaces the edges and keeps the nodes, the history and the cursor; the state stays synced if and only if the edges did not change |
| `HomePage.LiveEditsAreDiscarded` | src/components/HomePage.tsx:17-36 | an enabled undo, an enabled redo, and any commit give the same result whether or not uncommitted live edits came first; at the boundary a live edit stays on display |
| `HomePage.FlowHistory.constructor` | src/components/HomePage.tsx:13-15 | the fields hold the initial state |
| `HomePage.FlowHistory.SetFlowAndHistory` | src/components/HomePage.tsx:17-22 | the new state is `CommitStep` of the old state: pruned history plus the snapshot, cursor + 1, snapshot on display |
| `HomePage.FlowHistory.Undo` | src/components/HomePage.tsx:24-29 | the new state is `UndoStep` of the old state; the history is unchanged |
| `HomePage.FlowHistory.Redo` | src/components/HomePage.tsx:31-36 | the new state is `RedoStep` of the old state; the history is unchanged |
| `HomePage.FlowHistory.SetNodes` | src/components/HomePage.tsx:56 | the nodes are replaced; the edges, the history and the cursor are unchanged |
| `HomePage.FlowHistory.SetEdges` | src/components/HomePage.tsx:57 | the edges are replaced; the nodes, the history and the cursor are unchanged |
| `CanvasArea.LabelFor` | src/components/CanvasArea.tsx:55 | the label is "Block A" if and only if the type is "blockA", and "Block B" if and only if it is not |
| `CanvasArea.NewNode` | src/components/CanvasArea.tsx:51-56 | the dropped node has id `${type}_${n}`, kind "default", the drop position, the block type, and label "Block A" exactly for "blockA" and "Block B" exactly for every other type |
| `CanvasArea.Dropped` | src/components/CanvasArea.tsx:57 | the new node goes after every old node, the old nodes keep their order and the edges are unchanged |
| `CanvasArea.DropIdsDistinct` | src/components/CanvasArea.tsx:50-52 | drops with different counter values get different ids, whatever their types |
| `CanvasArea.DropIdFresh` | src/components/CanvasArea.tsx:50-52 | if every node id was issued by the first `c` drops, the next drop's id is on no node, all ids are then issued by the first `c + 1` drops, and unique ids stay unique |
| `CanvasArea.FindById` | src/components/CanvasArea.tsx:69-70 | there is no result exactly when the id is `null` or no node has it; otherwise the result is the first node that has it |
| `CanvasArea.FindByIdIsFirst` | src/components/CanvasArea.tsx:69-70 | the first node with an id is the one the lookup returns |
| `CanvasArea.HasLabel` | src/components/CanvasArea.tsx:72-73 | `node?.data?.label === label`: a lookup that found nothing never has a label |
| `CanvasArea.CanConnect` | src/components/CanvasArea.tsx:69-73 | the validation rule only accepts two given, distinct ids that both belong to nodes; `CanConnectIff` states exactly when it accepts |
| `CanvasArea.CanConnectIff` | src/components/CanvasArea.tsx:69-74 | a connection is accepted if and only if both ends are given, the first node with the source id is labelled "Block A" and the first node with the target id is labelled "Block B" |
| `CanvasArea.CanConnectUnique` | src/components/CanvasArea.tsx:69-74 | when node ids are unique, a connection is accepted if and only if the source node is "Block A" and the target node is "Block B" |
| `CanvasArea.ConnectMissingEndRejected` | src/components/CanvasArea.tsx:69-77 | a missing end, or an id that no node has, is rejected |
| `CanvasArea.ConnectReversedRejected` | src/components/CanvasArea.tsx:69-77 | if a connection is accepted, its reverse is rejected |
| `CanvasArea.ConnectSameLabelRejected` | src/components/CanvasArea.tsx:69-77 | two ends with the same label are rejected, and so is a connection from a node to itself |
| `CanvasArea.ConnectionEdge` | src/components/CanvasArea.tsx:75 | the new edge runs from the connection's source to its target |
| `CanvasArea.Connected` | src/components/CanvasArea.tsx:75 | an accepted connection keeps the nodes, keeps the old edges in order and appends one edge from source to target |
| `CanvasArea.ConnectedKeepsEdgesClosed` | src/components/CanvasArea.tsx:69-75 | if every edge joined existing nodes before an accepted connection, that is still true after it |
| `CanvasArea.Deleted` | src/components/CanvasArea.tsx:99-102 | exactly the nodes with the menu's id are removed, exactly the edges starting or ending at it are removed, and everything else is kept unchanged; neither list grows, which with `DeletedKeepsOrder` fixes the result completely |
| `CanvasArea.DeletedKeepsOrder` | src/components/CanvasArea.tsx:100-101 | deleting distributes over concatenation, so the surviving nodes and edges keep their order |
| `CanvasArea.DeletedAbsentIsIdentity` | src/components/CanvasArea.tsx:99-102 | deleting an id that no node or edge mentions gives the graph back unchanged |
| `CanvasArea.DeletedKeepsEdgesClosed` | src/components/CanvasArea.tsx:100-101 | thanks to the cascade, a graph whose edges join existing nodes still has that property after a delete |
| `CanvasArea.DeletedKeepsIds` | src/components/CanvasArea.tsx:100 | a delete keeps node ids unique and issued |
| `CanvasArea.WithPosition` | src/components/CanvasArea.tsx:131-132 | one node of `safeNodes` keeps its id, kind and data and its position if it has one; a missing position becomes (0, 0) |
| `CanvasArea.SafeNodes` | src/components/CanvasArea.tsx:130-133 | same length; each node keeps its id, kind and data; a missing position becomes (0, 0) and an existing one is kept |
| `CanvasArea.SafeNodesIdempotent` | src/components/CanvasArea.tsx:130-133 | defaulting positions twice is the same as doing it once |
| `CanvasArea.SafeNodesIdentity` | src/components/CanvasArea.tsx:130-133 | defaulting changes nothing if and only if every node already has a position |
| `CanvasArea.HistoryIssuedKept` | src/components/HomePage.tsx:17-36 | committing a snapshot whose ids are issued and unique, and undo and redo, keep every snapshot in the history issued by the counter and free of duplicate ids |
| `CanvasArea.DropKeepsHistoryIssued` | src/components/CanvasArea.tsx:50-57 | if every id in the history was issued by the counter and no snapshot repeats an id, then after a drop the same holds for the incremented counter |
| `CanvasArea.FirstTwoDrops` | src/components/CanvasArea.tsx:50-74 | after a "blockA" drop and then a "blockB" drop, connecting the first to the second is accepted and the reverse is rejected |
| `CanvasArea.DropTwoBlocks` | src/components/CanvasArea.tsx:40-60 | starting from a new page, a "blockA" drop and then a "blockB" drop leave three snapshots, with the two new nodes in drop order and no edges |
| `CanvasArea.Canvas.constructor` | src/components/CanvasArea.tsx:36-38 | the counter starts at 0 and no context menu is open; on a freshly mounted page, `IdsIssued` holds from the start |
| `CanvasArea.Canvas.OnDrop` | src/components/CanvasArea.tsx:40-60 | with an empty type or no bounds nothing changes; otherwise the counter goes up by one and the page commits `Dropped` with the new node; the context menu is untouched; issued ids stay issued |
| `CanvasArea.Canvas.OnConnect` | src/components/CanvasArea.tsx:67-81 | alerts if and only if the rule rejects the connection; a rejected connection changes nothing; an accepted one commits `Connected` once |
| `CanvasArea.Canvas.OpenContextMenu` | src/components/CanvasArea.tsx:83-94 | the menu opens on the node's id at the pointer |
| `CanvasArea.Canvas.HandleDeleteNode` | src/components/CanvasArea.tsx:96-105 | with no open menu nothing changes; otherwise the page commits `Deleted` for the menu's node once and the menu closes |
| `CanvasArea.Canvas.HandleCanvasClick` | src/components/CanvasArea.tsx:107 | the menu closes |
| `CanvasArea.Canvas.OnNodesChange` | src/components/CanvasArea.tsx:109-114 | the changed nodes are a live edit with no commit |
| `CanvasArea.Canvas.OnEdgesChange` | src/components/CanvasArea.tsx:116-121 | the changed edges are a live edit with no commit |
| `CanvasArea.Canvas.OnNodeDragStop` | src/components/CanvasArea.tsx:123-128 | the live graph is committed unchanged as one snapshot, which leaves the state synced |

## Left out

- The library's `addEdge` is modelled as appending one edge. Its own id format, its connection handles and its check that drops an already-existing connection are not modelled. `ConnectionEdge` builds the edge id from the two endpoint ids.
- The library's `applyNodeChanges`/`applyEdgeChanges` are not modelled. Their results are the parameters of `Canvas.OnNodesChange`/`Canvas.OnEdgesChange`. Because nothing is known about which ids those results carry, these two methods make no promise about `IdsIssued`.
- Pointer-to-canvas projection (`project`, the bounding-box arithmetic) is floating-point DOM geometry. The projected position is a parameter of `OnDrop`, and positions are integer pairs.
- The drag payload (`dataTransfer.setData`/`getData`, `onDragStart`, `onDragOver`, `preventDefault`) is browser plumbing. `OnDrop` takes the decoded block type and whether bounds exist.
- `alert` is a blocking browser dialog. `OnConnect` returns it as the flag `alerted`.
- The menu's styling and placement are presentation. The "Hello World" line and the page's empty `handleNodeContextMenu` callback are also left out.
- The block panel (src/components/BlockPanel.tsx) and the palette list it renders are not part of this model. The panel reads `CanUndo`/`CanRedo` to disable its two buttons, calls `undo`/`redo` (modelled by `FlowHistory.Undo`/`Redo`), and starts the drag that carries the block type to `onDrop`. The drag payload is left out.
- React semantics (batched state updates, stale closures in `useCallback`, re-rendering) are left out. Each handler runs as a sequence of assignments on the current state.
- The library's other node fields (selection, size, dragging flags) are left out. Nodes carry only id, kind, position and `data`.
- `NodeIds.Decimal`: models `${n}` as the plain decimal digits. JavaScript switches to exponent notation at 10^21 and loses integer precision above 2^53; neither is modelled, because a counter of human drops stays far below both.
