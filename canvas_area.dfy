/**
 The canvas handlers. Each graph edit either commits exactly one snapshot to the
 page's history or leaves everything as it was:

 - a drop creates a node whose id comes from a counter that is incremented first;
 - a connection is accepted only from a node labelled "Block A" to a node
   labelled "Block B" (the rule reads the display label, not the block type);
 - deleting a node through its context menu also deletes every edge that
   touches it;
 - releasing a drag commits the live graph as it stands.

 The decisions of the handlers are functions on snapshots; the class `Canvas`
 holds the handlers' own state (the id counter and the open context menu) and
 calls the page's history methods.
 */
module CanvasArea {
  import opened Wrappers
  import opened Flow
  import opened NodeIds
  import opened HomePage

  /** The context menu opened on a node, at a screen position. */
  datatype ContextMenu = ContextMenu(x: int, y: int, nodeId: string)

  /** A connection attempt from the library; either end may be missing (`null`). */
  datatype Connection = Connection(source: Option<string>, target: Option<string>)

  const ORIGIN_LABEL := "Block A"
  const DESTINATION_LABEL := "Block B"
  const ORIGIN_TYPE := "blockA"

  // ---------------------------------------------------------------------------
  // Dropping a block

  /** The label a dropped block gets: "Block A" for the type "blockA", "Block B" for every other type. */
  function LabelFor(blockType: string): (text: string)
    ensures text == ORIGIN_LABEL <==> blockType == ORIGIN_TYPE
    ensures text == DESTINATION_LABEL <==> blockType != ORIGIN_TYPE
  {
    if blockType == ORIGIN_TYPE then ORIGIN_LABEL else DESTINATION_LABEL
  }

  /** The node built by the `n`-th drop of a block of type `blockType` at `position`. */
  function NewNode(blockType: string, n: nat, position: Position): (node: Node)
    ensures node.id == NodeId(blockType, n) && node.kind == "default"
    ensures node.position == Some(position)
    ensures node.data.blockType == blockType
    ensures node.data.labelText == ORIGIN_LABEL <==> blockType == ORIGIN_TYPE
    ensures node.data.labelText == DESTINATION_LABEL <==> blockType != ORIGIN_TYPE
  {
    Node(NodeId(blockType, n), "default", Some(position), NodeData(LabelFor(blockType), blockType))
  }

  /** The snapshot a drop commits: the new node after all the others, the edges as they were. */
  function Dropped(f: FlowState, node: Node): (r: FlowState)
    ensures |r.nodes| == |f.nodes| + 1 && r.nodes[|f.nodes|] == node
    ensures r.nodes[..|f.nodes|] == f.nodes && r.edges == f.edges
  {
    FlowState(f.nodes + [node], f.edges)
  }

  /** The id was handed out by one of the first `counter` drops. */
  ghost predicate Issued(id: string, counter: nat) {
    exists t: string, k: nat :: 1 <= k <= counter && id == NodeId(t, k)
  }

  ghost predicate AllIssued(nodes: seq<Node>, counter: nat) {
    forall i :: 0 <= i < |nodes| ==> Issued(nodes[i].id, counter)
  }

  /**
   Every snapshot of the history, and the displayed graph, holds only issued ids,
   and no two of its nodes share an id.
   */
  ghost predicate HistoryIssued(h: HistoryState, counter: nat) {
    AllIssued(h.flow.nodes, counter) && UniqueIds(h.flow.nodes) &&
    forall i :: 0 <= i < |h.history| ==> AllIssued(h.history[i].nodes, counter) && UniqueIds(h.history[i].nodes)
  }

  /**
   Successive drops get distinct ids whatever their block types, since the
   counter only grows.
   */
  lemma DropIdsDistinct(t1: string, t2: string, m: nat, n: nat)
    requires m < n
    ensures NodeId(t1, m) != NodeId(t2, n)
  {
    NodeIdInjective(t1, m, t2, n);
  }

  /**
   A drop after `counter` earlier ones gives an id that no node issued so far
   carries; the new graph again holds only issued ids, and unique ids stay unique.
   */
  lemma {:induction false} DropIdFresh(nodes: seq<Node>, counter: nat, blockType: string, position: Position)
    requires AllIssued(nodes, counter)
    ensures var node := NewNode(blockType, counter + 1, position);
            !HasNode(nodes, node.id) &&
            AllIssued(nodes + [node], counter + 1) &&
            (UniqueIds(nodes) ==> UniqueIds(nodes + [node]))
  {
    var node := NewNode(blockType, counter + 1, position);
    forall i | 0 <= i < |nodes| ensures nodes[i].id != node.id {
      assert Issued(nodes[i].id, counter);
      var t, k :| 1 <= k <= counter && nodes[i].id == NodeId(t, k);
      NodeIdInjective(t, k, blockType, counter + 1);
    }
    var s := nodes + [node];
    forall i | 0 <= i < |s| ensures Issued(s[i].id, counter + 1) {
      if i < |nodes| {
        assert Issued(nodes[i].id, counter);
        var t, k :| 1 <= k <= counter && nodes[i].id == NodeId(t, k);
        assert s[i].id == NodeId(t, k);
      } else {
        assert s[i].id == NodeId(blockType, counter + 1);
      }
    }
  }

  /** Issued ids stay issued as the counter grows. */
  lemma IssuedGrows(nodes: seq<Node>, c: nat, d: nat)
    requires AllIssued(nodes, c) && c <= d
    ensures AllIssued(nodes, d)
  {
    forall i | 0 <= i < |nodes| ensures Issued(nodes[i].id, d) {
      assert Issued(nodes[i].id, c);
      var t, k :| 1 <= k <= c && nodes[i].id == NodeId(t, k);
    }
  }

  // ---------------------------------------------------------------------------
  // Connecting two nodes

  /** `nodes.find(n => n.id === id)`; a missing id (`null`) matches no node. */
  function FindById(nodes: seq<Node>, id: Option<string>): (r: Option<Node>)
    ensures r.None? <==> id.None? || !HasNode(nodes, id.value)
    ensures r.Some? ==> exists i :: 0 <= i < |nodes| && nodes[i] == r.value && id == Some(nodes[i].id) &&
                                    forall j :: 0 <= j < i ==> Some(nodes[j].id) != id
  {
    Find(nodes, (n: Node) => id == Some(n.id))
  }

  /** `node?.data?.label === label`. */
  predicate HasLabel(node: Option<Node>, text: string)
    ensures HasLabel(node, text) ==> node.Some?
  {
    node.Some? && node.value.data.labelText == text
  }

  /** The rule of `onConnect`. */
  predicate CanConnect(nodes: seq<Node>, c: Connection)
    ensures CanConnect(nodes, c) ==> c.source.Some? && c.target.Some? && c.source != c.target
    ensures CanConnect(nodes, c) ==> HasNode(nodes, c.source.value) && HasNode(nodes, c.target.value)
  {
    HasLabel(FindById(nodes, c.source), ORIGIN_LABEL) && HasLabel(FindById(nodes, c.target), DESTINATION_LABEL)
  }

  /** The first node with the id `id` is the one at `i`. */
  predicate FirstWithId(nodes: seq<Node>, i: int, id: string) {
    0 <= i < |nodes| && nodes[i].id == id && forall j :: 0 <= j < i ==> nodes[j].id != id
  }

  /** The first node with a given id is the one `find` returns. */
  lemma FindByIdIsFirst(nodes: seq<Node>, id: string, i: int)
    requires FirstWithId(nodes, i, id)
    ensures FindById(nodes, Some(id)) == Some(nodes[i])
  {
  }

  /**
   A connection is accepted exactly when both ends are given, the first node
   with the source id is labelled "Block A" and the first node with the target id
   is labelled "Block B".
   */
  lemma CanConnectIff(nodes: seq<Node>, c: Connection)
    ensures CanConnect(nodes, c) <==>
            c.source.Some? && c.target.Some? &&
            exists i, j :: FirstWithId(nodes, i, c.source.value) && FirstWithId(nodes, j, c.target.value) &&
                           nodes[i].data.labelText == ORIGIN_LABEL && nodes[j].data.labelText == DESTINATION_LABEL
  {
  }

  /** When ids are unique, the rule is: some node with the source id is "Block A" and some node with the target id is "Block B". */
  lemma CanConnectUnique(nodes: seq<Node>, s: string, t: string)
    requires UniqueIds(nodes)
    ensures CanConnect(nodes, Connection(Some(s), Some(t))) <==>
            exists i, j :: 0 <= i < |nodes| && 0 <= j < |nodes| && nodes[i].id == s && nodes[j].id == t &&
                           nodes[i].data.labelText == ORIGIN_LABEL && nodes[j].data.labelText == DESTINATION_LABEL
  {
  }

  /** A missing end, or an id no node has, is rejected. */
  lemma ConnectMissingEndRejected(nodes: seq<Node>, c: Connection)
    requires c.source.None? || c.target.None? || !HasNode(nodes, c.source.value) || !HasNode(nodes, c.target.value)
    ensures !CanConnect(nodes, c)
  {
  }

  /** A connection accepted in one direction is rejected in the other. */
  lemma ConnectReversedRejected(nodes: seq<Node>, s: Option<string>, t: Option<string>)
    ensures CanConnect(nodes, Connection(s, t)) ==> !CanConnect(nodes, Connection(t, s))
  {
  }

  /** Two ends with the same label are rejected; in particular a node cannot be connected to itself. */
  lemma ConnectSameLabelRejected(nodes: seq<Node>, c: Connection)
    requires FindById(nodes, c.source).Some? && FindById(nodes, c.target).Some?
    requires FindById(nodes, c.source).value.data.labelText == FindById(nodes, c.target).value.data.labelText
    ensures !CanConnect(nodes, c)
    ensures !CanConnect(nodes, Connection(c.source, c.source))
  {
  }

  /** The edge the library makes from an accepted connection; its id is built from the two ends. */
  function ConnectionEdge(source: string, target: string): (e: Edge)
    ensures e.source == source && e.target == target
  {
    Edge(source + "->" + target, source, target)
  }

  /** The snapshot an accepted connection commits: the nodes as they were, the new edge after the others. */
  function Connected(f: FlowState, c: Connection): (r: FlowState)
    requires CanConnect(f.nodes, c)
    ensures r.nodes == f.nodes
    ensures |r.edges| == |f.edges| + 1 && r.edges[..|f.edges|] == f.edges
    ensures r.edges[|f.edges|].source == c.source.value && r.edges[|f.edges|].target == c.target.value
  {
    FlowState(f.nodes, f.edges + [ConnectionEdge(c.source.value, c.target.value)])
  }

  /** An accepted connection joins two existing nodes, so edges still only join nodes of the graph. */
  lemma ConnectedKeepsEdgesClosed(f: FlowState, c: Connection)
    requires EdgesClosed(f) && CanConnect(f.nodes, c)
    ensures EdgesClosed(Connected(f, c))
  {
  }

  // ---------------------------------------------------------------------------
  // Deleting a node

  /** The snapshot a delete commits: the node goes, and so does every edge that starts or ends at it. */
  function Deleted(f: FlowState, nodeId: string): (r: FlowState)
    ensures forall i :: 0 <= i < |r.nodes| ==> r.nodes[i] in f.nodes && r.nodes[i].id != nodeId
    ensures forall i :: 0 <= i < |f.nodes| && f.nodes[i].id != nodeId ==> f.nodes[i] in r.nodes
    ensures forall k :: 0 <= k < |r.edges| ==> r.edges[k] in f.edges && r.edges[k].source != nodeId && r.edges[k].target != nodeId
    ensures forall k :: 0 <= k < |f.edges| && f.edges[k].source != nodeId && f.edges[k].target != nodeId ==> f.edges[k] in r.edges
    ensures |r.nodes| <= |f.nodes| && |r.edges| <= |f.edges|
  {
    FlowState(Filter(f.nodes, (n: Node) => n.id != nodeId),
              Filter(f.edges, (e: Edge) => e.source != nodeId && e.target != nodeId))
  }

  /** Deleting works part by part: the surviving nodes and edges keep their order. */
  lemma DeletedKeepsOrder(n1: seq<Node>, n2: seq<Node>, e1: seq<Edge>, e2: seq<Edge>, nodeId: string)
    ensures Deleted(FlowState(n1 + n2, e1 + e2), nodeId).nodes ==
            Deleted(FlowState(n1, e1), nodeId).nodes + Deleted(FlowState(n2, e2), nodeId).nodes
    ensures Deleted(FlowState(n1 + n2, e1 + e2), nodeId).edges ==
            Deleted(FlowState(n1, e1), nodeId).edges + Deleted(FlowState(n2, e2), nodeId).edges
  {
    FilterConcat(n1, n2, (n: Node) => n.id != nodeId);
    FilterConcat(e1, e2, (e: Edge) => e.source != nodeId && e.target != nodeId);
  }

  /** Deleting an id that nothing mentions gives the same graph back. */
  lemma DeletedAbsentIsIdentity(f: FlowState, nodeId: string)
    requires !HasNode(f.nodes, nodeId)
    requires forall k :: 0 <= k < |f.edges| ==> f.edges[k].source != nodeId && f.edges[k].target != nodeId
    ensures Deleted(f, nodeId) == f
  {
    FilterKeepsAll(f.nodes, (n: Node) => n.id != nodeId);
    FilterKeepsAll(f.edges, (e: Edge) => e.source != nodeId && e.target != nodeId);
  }

  /** The cascade keeps the graph closed: no surviving edge points at a deleted node. */
  lemma DeletedKeepsEdgesClosed(f: FlowState, nodeId: string)
    requires EdgesClosed(f)
    ensures EdgesClosed(Deleted(f, nodeId))
  {
  }

  /** Deleting keeps ids unique and issued. */
  lemma DeletedKeepsIds(f: FlowState, nodeId: string, counter: nat)
    ensures UniqueIds(f.nodes) ==> UniqueIds(Deleted(f, nodeId).nodes)
    ensures AllIssued(f.nodes, counter) ==> AllIssued(Deleted(f, nodeId).nodes, counter)
  {
    var r := Deleted(f, nodeId).nodes;
    if AllIssued(f.nodes, counter) {
      forall i | 0 <= i < |r| ensures Issued(r[i].id, counter) {
        var i' :| 0 <= i' < |f.nodes| && f.nodes[i'] == r[i];
      }
    }
    if UniqueIds(f.nodes) {
      FilterKeepsUnique(f.nodes, nodeId);
    }
  }

  lemma {:induction false} FilterKeepsUnique(nodes: seq<Node>, nodeId: string)
    requires UniqueIds(nodes)
    ensures UniqueIds(Filter(nodes, (n: Node) => n.id != nodeId))
  {
    if nodes != [] {
      var keep := (n: Node) => n.id != nodeId;
      FilterKeepsUnique(nodes[1..], nodeId);
      var rest := Filter(nodes[1..], keep);
      forall i | 0 <= i < |rest| ensures rest[i].id != nodes[0].id {
        var k :| 0 <= k < |nodes[1..]| && nodes[1..][k] == rest[i];
        assert nodes[k + 1] == rest[i];
      }
    }
  }

  // ---------------------------------------------------------------------------
  // The nodes handed to the library for rendering

  /** The node with a missing position placed at the origin. */
  function WithPosition(n: Node): (r: Node)
    ensures r.id == n.id && r.kind == n.kind && r.data == n.data && r.position.Some?
    ensures n.position.Some? ==> r.position == n.position
    ensures n.position.None? ==> r.position == Some(Position(0, 0))
  {
    n.(position := Some(if n.position.Some? then n.position.value else Position(0, 0)))
  }

  /** `safeNodes`: every node, in order, with a missing position replaced by (0, 0). */
  function SafeNodes(nodes: seq<Node>): (r: seq<Node>)
    ensures |r| == |nodes|
    ensures forall i :: 0 <= i < |r| ==>
              r[i].id == nodes[i].id && r[i].kind == nodes[i].kind && r[i].data == nodes[i].data && r[i].position.Some?
    ensures forall i :: 0 <= i < |r| ==>
              r[i].position == (if nodes[i].position.Some? then nodes[i].position else Some(Position(0, 0)))
  {
    seq(|nodes|, i requires 0 <= i < |nodes| => WithPosition(nodes[i]))
  }

  /** Defaulting positions twice is the same as once. */
  lemma SafeNodesIdempotent(nodes: seq<Node>)
    ensures SafeNodes(SafeNodes(nodes)) == SafeNodes(nodes)
  {
  }

  /** Defaulting changes nothing exactly when every node already has a position. */
  lemma SafeNodesIdentity(nodes: seq<Node>)
    ensures SafeNodes(nodes) == nodes <==> forall i :: 0 <= i < |nodes| ==> nodes[i].position.Some?
  {
  }

  // ---------------------------------------------------------------------------
  // History-wide invariants of the handlers

  /**
   Committing a snapshot whose ids are issued and unique, and undoing or redoing,
   keeps every snapshot of the history issued and unique.
   */
  lemma HistoryIssuedKept(h: HistoryState, s: FlowState, counter: nat)
    requires WellFormed(h) && HistoryIssued(h, counter)
    ensures AllIssued(s.nodes, counter) && UniqueIds(s.nodes) ==> HistoryIssued(CommitStep(h, s), counter)
    ensures HistoryIssued(UndoStep(h), counter) && HistoryIssued(RedoStep(h), counter)
  {
  }

  /** After a drop, every id in the history was issued by the new counter, and ids are still unique. */
  lemma DropKeepsHistoryIssued(h: HistoryState, counter: nat, blockType: string, position: Position)
    requires WellFormed(h)
    ensures HistoryIssued(h, counter) ==>
            HistoryIssued(CommitStep(h, Dropped(h.flow, NewNode(blockType, counter + 1, position))), counter + 1)
  {
    if !HistoryIssued(h, counter) { return; }
    DropIdFresh(h.flow.nodes, counter, blockType, position);
    forall i | 0 <= i < |h.history| ensures AllIssued(h.history[i].nodes, counter + 1) {
      IssuedGrows(h.history[i].nodes, counter, counter + 1);
    }
    IssuedGrows(h.flow.nodes, counter, counter + 1);
    HistoryIssuedKept(h, Dropped(h.flow, NewNode(blockType, counter + 1, position)), counter + 1);
  }

  // ---------------------------------------------------------------------------
  // The canvas component, updated in place

  class Canvas {
    /** The page whose history the handlers commit to. */
    const page: FlowHistory
    /** `nodeIdRef.current`: how many nodes have been dropped. */
    var nodeIdCounter: nat
    var contextMenu: Option<ContextMenu>

    ghost predicate Valid()
      reads this, page
    {
      page.Valid()
    }

    /** Every id in the page's history was issued by this canvas's counter, and each snapshot's ids are unique. */
    ghost predicate IdsIssued()
      reads this, page
    {
      HistoryIssued(page.State(), nodeIdCounter)
    }

    constructor (page: FlowHistory)
      requires page.Valid()
      ensures Valid() && this.page == page
      ensures nodeIdCounter == 0 && contextMenu == None
      ensures page.State() == Init() ==> IdsIssued()
    {
      this.page := page;
      nodeIdCounter := 0;
      contextMenu := None;
    }

    /** `onDrop`: a drop with no block type or no canvas bounds does nothing. */
    method OnDrop(blockType: string, hasBounds: bool, position: Position)
      requires Valid()
      modifies this, page
      ensures Valid() && contextMenu == old(contextMenu)
      ensures blockType == "" || !hasBounds ==>
                nodeIdCounter == old(nodeIdCounter) && page.State() == old(page.State())
      ensures blockType != "" && hasBounds ==>
                nodeIdCounter == old(nodeIdCounter) + 1 &&
                page.State() == CommitStep(old(page.State()),
                                           Dropped(old(page.flow), NewNode(blockType, nodeIdCounter, position)))
      ensures old(IdsIssued()) ==> IdsIssued()
    {
      if blockType != "" && hasBounds {
        ghost var before := page.State();
        ghost var counter := nodeIdCounter;
        DropKeepsHistoryIssued(before, counter, blockType, position);
        nodeIdCounter := nodeIdCounter + 1;
        var newNode := NewNode(blockType, nodeIdCounter, position);
        assert newNode == NewNode(blockType, counter + 1, position);
        page.SetFlowAndHistory(Dropped(page.flow, newNode));
        assert page.State() == CommitStep(before, Dropped(before.flow, NewNode(blockType, counter + 1, position)));
      }
    }

    /** `onConnect`: commit the new edge, or reject the attempt (`alerted`) and change nothing. */
    method OnConnect(c: Connection) returns (alerted: bool)
      requires Valid()
      modifies page
      ensures Valid()
      ensures alerted <==> !CanConnect(old(page.flow.nodes), c)
      ensures !alerted ==> page.State() == CommitStep(old(page.State()), Connected(old(page.flow), c))
      ensures alerted ==> page.State() == old(page.State())
      ensures old(IdsIssued()) ==> IdsIssued()
    {
      if CanConnect(page.flow.nodes, c) {
        ghost var before := page.State();
        page.SetFlowAndHistory(Connected(page.flow, c));
        if HistoryIssued(before, nodeIdCounter) {
          HistoryIssuedKept(before, Connected(before.flow, c), nodeIdCounter);
        }
        alerted := false;
      } else {
        alerted := true;
      }
    }

    /** `onNodeContextMenuHandler`: open the menu on `node` at the pointer. */
    method OpenContextMenu(x: int, y: int, node: Node)
      modifies this
      ensures contextMenu == Some(ContextMenu(x, y, node.id))
      ensures nodeIdCounter == old(nodeIdCounter)
    {
      contextMenu := Some(ContextMenu(x, y, node.id));
    }

    /** `handleDeleteNode`: delete the menu's node and its edges in one commit, then close the menu. */
    method HandleDeleteNode()
      requires Valid()
      modifies this, page
      ensures Valid() && nodeIdCounter == old(nodeIdCounter)
      ensures old(contextMenu).None? ==> contextMenu == None && page.State() == old(page.State())
      ensures old(contextMenu).Some? ==>
                contextMenu == None &&
                page.State() == CommitStep(old(page.State()), Deleted(old(page.flow), old(contextMenu).value.nodeId))
      ensures old(IdsIssued()) ==> IdsIssued()
    {
      if contextMenu.Some? {
        var nodeId := contextMenu.value.nodeId;
        ghost var before := page.State();
        page.SetFlowAndHistory(Deleted(page.flow, nodeId));
        if HistoryIssued(before, nodeIdCounter) {
          DeletedKeepsIds(before.flow, nodeId, nodeIdCounter);
          HistoryIssuedKept(before, Deleted(before.flow, nodeId), nodeIdCounter);
        }
        contextMenu := None;
      }
    }

    /** `handleCanvasClick`: close the menu. */
    method HandleCanvasClick()
      modifies this
      ensures contextMenu == None && nodeIdCounter == old(nodeIdCounter)
    {
      contextMenu := None;
    }

    /** `onNodesChange`: `changed` is what the library's `applyNodeChanges` made of the live nodes. */
    method OnNodesChange(changed: seq<Node>)
      requires Valid()
      modifies page
      ensures Valid() && page.State() == LiveNodes(old(page.State()), changed)
    {
      page.SetNodes(changed);
    }

    /** `onEdgesChange`: `changed` is what the library's `applyEdgeChanges` made of the live edges. */
    method OnEdgesChange(changed: seq<Edge>)
      requires Valid()
      modifies page
      ensures Valid() && page.State() == LiveEdges(old(page.State()), changed)
    {
      page.SetEdges(changed);
    }

    /** `onNodeDragStop`: commit the live graph, with the dragged positions, as one snapshot. */
    method OnNodeDragStop()
      requires Valid()
      modifies page
      ensures Valid() && page.State() == CommitStep(old(page.State()), old(page.flow))
      ensures Synced(page.State()) && page.flow == old(page.flow)
      ensures old(IdsIssued()) ==> IdsIssued()
    {
      ghost var before := page.State();
      page.SetFlowAndHistory(FlowState(page.flow.nodes, page.flow.edges));
      if HistoryIssued(before, nodeIdCounter) {
        HistoryIssuedKept(before, before.flow, nodeIdCounter);
      }
    }
  }

  // ---------------------------------------------------------------------------
  // A session driven through the handlers

  /** After dropping a "blockA" then a "blockB", connecting the first to the second is accepted and the reverse is not. */
  lemma FirstTwoDrops(p1: Position, p2: Position)
    ensures var nodes := [NewNode(ORIGIN_TYPE, 1, p1), NewNode("blockB", 2, p2)];
            var a, b := NodeId(ORIGIN_TYPE, 1), NodeId("blockB", 2);
            CanConnect(nodes, Connection(Some(a), Some(b))) && !CanConnect(nodes, Connection(Some(b), Some(a)))
  {
    var nodes := [NewNode(ORIGIN_TYPE, 1, p1), NewNode("blockB", 2, p2)];
    var a, b := NodeId(ORIGIN_TYPE, 1), NodeId("blockB", 2);
    DropIdsDistinct(ORIGIN_TYPE, "blockB", 1, 2);
    assert FirstWithId(nodes, 0, a) && FirstWithId(nodes, 1, b);
    FindByIdIsFirst(nodes, a, 0);
    FindByIdIsFirst(nodes, b, 1);
  }

  /** A fresh page and canvas after dropping a "blockA" at `p1` and then a "blockB" at `p2`. */
  method DropTwoBlocks(p1: Position, p2: Position) returns (page: FlowHistory, canvas: Canvas)
    ensures fresh(page) && fresh(canvas) && canvas.page == page && canvas.Valid()
    ensures |page.history| == 3 && page.historyIndex == 2 && page.history[0] == INITIAL_STATE
    ensures page.flow == page.history[2] && page.flow.edges == []
    ensures page.flow.nodes == [NewNode(ORIGIN_TYPE, 1, p1), NewNode("blockB", 2, p2)]
  {
    page := new FlowHistory();
    canvas := new Canvas(page);
    canvas.OnDrop(ORIGIN_TYPE, true, p1);
    canvas.OnDrop("blockB", true, p2);
  }

  /**
   Drop a "blockA" at (50, 50) and a "blockB" at (200, 50), try the connection
   the wrong way round (refused), connect them the right way, then undo three
   times back to the empty graph.
   */
  method AddConnectUndoSession()
  {
    var page, canvas := DropTwoBlocks(Position(50, 50), Position(200, 50));
    ghost var s2 := page.flow;
    FirstTwoDrops(Position(50, 50), Position(200, 50));
    var a, b := NodeId(ORIGIN_TYPE, 1), NodeId("blockB", 2);

    var refused := canvas.OnConnect(Connection(Some(b), Some(a)));
    assert refused && |page.history| == 3 && page.flow == s2;
    var alerted := canvas.OnConnect(Connection(Some(a), Some(b)));
    assert !alerted && CanUndo(page.State()) && |page.history| == 4;
    assert |page.flow.edges| == 1 && page.history[2] == s2;

    page.Undo();
    assert page.flow.edges == [] && page.flow.nodes == s2.nodes;
    page.Undo();
    page.Undo();
    assert page.flow == INITIAL_STATE && !CanUndo(page.State()) && CanRedo(page.State());
  }
}
