/**
 The undo/redo history of the editor page: the displayed `flow`, the list of
 committed snapshots `history`, and the cursor `historyIndex` into it.

 The history is first described as a value (`HistoryState`) with one function per
 operation, and the lemmas about undo and redo are stated over those functions.
 The class `FlowHistory` holds the same three pieces of state as fields and its
 methods overwrite them; each method's postcondition says that the new state is
 the function of the old one.
 */
module HomePage {
  import opened Flow

  datatype HistoryState = HistoryState(flow: FlowState, history: seq<FlowState>, historyIndex: nat)

  /** The cursor points into the history. Every operation keeps this. */
  predicate WellFormed(h: HistoryState) {
    h.historyIndex < |h.history|
  }

  /** The displayed graph is the snapshot under the cursor; live edits may break this. */
  predicate Synced(h: HistoryState) {
    WellFormed(h) && h.flow == h.history[h.historyIndex]
  }

  /** `canUndo`: the Undo button is enabled. */
  predicate CanUndo(h: HistoryState)
    ensures CanUndo(h) && WellFormed(h) ==> |h.history| >= 2
  {
    h.historyIndex > 0
  }

  /** `canRedo`: the Redo button is enabled. */
  predicate CanRedo(h: HistoryState)
    ensures CanRedo(h) ==> |h.history| >= 2
  {
    h.historyIndex < |h.history| - 1
  }

  /** The state when the page mounts: one empty snapshot, selected and displayed. */
  function Init(): (h: HistoryState)
    ensures Synced(h) && |h.history| == 1
    ensures h.flow.nodes == [] && h.flow.edges == []
    ensures !CanUndo(h) && !CanRedo(h)
  {
    HistoryState(INITIAL_STATE, [INITIAL_STATE], 0)
  }

  /**
   `setFlowAndHistory`: drop the redo branch after the cursor, append the new
   snapshot, move the cursor onto it and display it.
   */
  function CommitStep(h: HistoryState, s: FlowState): (r: HistoryState)
    requires WellFormed(h)
    ensures Synced(r) && r.flow == s
    ensures |r.history| == h.historyIndex + 2 && r.historyIndex == h.historyIndex + 1
    ensures forall i :: 0 <= i <= h.historyIndex ==> r.history[i] == h.history[i]
    ensures CanUndo(r) && !CanRedo(r)
  {
    var kept := h.history[..h.historyIndex + 1];
    HistoryState(s, kept + [s], |kept|)
  }

  /** `undo`: step the cursor back and display that snapshot; nothing happens at the first one. */
  function UndoStep(h: HistoryState): (r: HistoryState)
    requires WellFormed(h)
    ensures WellFormed(r) && r.history == h.history
    ensures !CanUndo(h) ==> r == h
    ensures CanUndo(h) ==> Synced(r) && r.historyIndex == h.historyIndex - 1 && CanRedo(r)
  {
    if h.historyIndex > 0 then
      HistoryState(h.history[h.historyIndex - 1], h.history, h.historyIndex - 1)
    else
      h
  }

  /** `redo`: step the cursor forward and display that snapshot; nothing happens at the last one. */
  function RedoStep(h: HistoryState): (r: HistoryState)
    requires WellFormed(h)
    ensures WellFormed(r) && r.history == h.history
    ensures !CanRedo(h) ==> r == h
    ensures CanRedo(h) ==> Synced(r) && r.historyIndex == h.historyIndex + 1 && CanUndo(r)
  {
    if h.historyIndex < |h.history| - 1 then
      HistoryState(h.history[h.historyIndex + 1], h.history, h.historyIndex + 1)
    else
      h
  }

  /** The `setNodes` lambda: replace the displayed nodes, bypassing the history. */
  function LiveNodes(h: HistoryState, nodes: seq<Node>): (r: HistoryState)
    ensures WellFormed(h) ==> WellFormed(r)
    ensures r.history == h.history && r.historyIndex == h.historyIndex
  {
    HistoryState(FlowState(nodes, h.flow.edges), h.history, h.historyIndex)
  }

  /** The `setEdges` lambda: replace the displayed edges, bypassing the history. */
  function LiveEdges(h: HistoryState, edges: seq<Edge>): (r: HistoryState)
    ensures WellFormed(h) ==> WellFormed(r)
    ensures r.history == h.history && r.historyIndex == h.historyIndex
  {
    HistoryState(FlowState(h.flow.nodes, edges), h.history, h.historyIndex)
  }

  /** The state with the cursor moved to `i` and that snapshot on display. */
  function Seek(h: HistoryState, i: nat): (r: HistoryState)
    requires i < |h.history|
    ensures Synced(r)
  {
    HistoryState(h.history[i], h.history, i)
  }

  /** `n` presses of Undo. */
  function UndoN(h: HistoryState, n: nat): (r: HistoryState)
    requires WellFormed(h)
    ensures WellFormed(r) && r.history == h.history
    decreases n
  {
    if n == 0 then h else UndoN(UndoStep(h), n - 1)
  }

  /** `n` presses of Redo. */
  function RedoN(h: HistoryState, n: nat): (r: HistoryState)
    requires WellFormed(h)
    ensures WellFormed(r) && r.history == h.history
    decreases n
  {
    if n == 0 then h else RedoN(RedoStep(h), n - 1)
  }

  /** The commits of the snapshots `ss`, one after another. */
  function CommitAll(h: HistoryState, ss: seq<FlowState>): (r: HistoryState)
    requires WellFormed(h)
    ensures WellFormed(r)
    decreases |ss|
  {
    if ss == [] then h else CommitAll(CommitStep(h, ss[0]), ss[1..])
  }

  // ---------------------------------------------------------------------------
  // Properties of undo and redo

  /** Undo then Redo puts the cursor and the display back. */
  lemma UndoThenRedo(h: HistoryState)
    requires Synced(h) && CanUndo(h)
    ensures RedoStep(UndoStep(h)) == h
  {
  }

  /** Redo then Undo puts the cursor and the display back. */
  lemma RedoThenUndo(h: HistoryState)
    requires Synced(h) && CanRedo(h)
    ensures UndoStep(RedoStep(h)) == h
  {
  }

  /** From a synced state, `n` undos land on snapshot `index - n`, stopping at the first one. */
  lemma {:induction false} UndoNSeeks(h: HistoryState, n: nat)
    requires Synced(h)
    ensures UndoN(h, n) == Seek(h, if n <= h.historyIndex then h.historyIndex - n else 0)
    decreases n
  {
    if n > 0 {
      UndoNSeeks(UndoStep(h), n - 1);
    }
  }

  /** From a synced state, `n` redos land on snapshot `index + n`, stopping at the last one. */
  lemma {:induction false} RedoNSeeks(h: HistoryState, n: nat)
    requires Synced(h)
    ensures var last := |h.history| - 1;
            RedoN(h, n) == Seek(h, if h.historyIndex + n <= last then h.historyIndex + n else last)
    decreases n
  {
    if n > 0 {
      RedoNSeeks(RedoStep(h), n - 1);
    }
  }

  /** `n` undos followed by `n` redos return to where they started, as long as no undo hit the start. */
  lemma UndoNThenRedoN(h: HistoryState, n: nat)
    requires Synced(h) && n <= h.historyIndex
    ensures RedoN(UndoN(h, n), n) == h
  {
    UndoNSeeks(h, n);
    RedoNSeeks(UndoN(h, n), n);
  }

  /**
   A run of commits keeps the history up to the cursor, appends the committed
   snapshots in order and leaves the cursor on the last of them.
   */
  lemma {:induction false} CommitAllAppends(h: HistoryState, ss: seq<FlowState>)
    requires WellFormed(h) && |ss| > 0
    ensures var r := CommitAll(h, ss);
            r.history == h.history[..h.historyIndex + 1] + ss &&
            r.historyIndex == h.historyIndex + |ss| && Synced(r) && !CanRedo(r)
    decreases |ss|
  {
    var c := CommitStep(h, ss[0]);
    assert c.history == h.history[..h.historyIndex + 1] + [ss[0]];
    if |ss| > 1 {
      CommitAllAppends(c, ss[1..]);
      assert c.history[..c.historyIndex + 1] == c.history;
      assert [ss[0]] + ss[1..] == ss;
    }
  }

  /**
   After `N` commits, `N` undos bring back the snapshot that was selected before
   them; the committed snapshots stay available to redo.
   */
  lemma CommitsThenUndos(h: HistoryState, ss: seq<FlowState>)
    requires WellFormed(h) && |ss| > 0
    ensures var r := UndoN(CommitAll(h, ss), |ss|);
            r.historyIndex == h.historyIndex && r.flow == h.history[h.historyIndex] &&
            r.history == h.history[..h.historyIndex + 1] + ss
  {
    CommitAllAppends(h, ss);
    UndoNSeeks(CommitAll(h, ss), |ss|);
  }

  /** From the initial state, `N` commits and `N` undos show the empty graph again and disable Undo. */
  lemma CommitsThenUndosFromInit(ss: seq<FlowState>)
    requires |ss| > 0
    ensures var r := UndoN(CommitAll(Init(), ss), |ss|);
            r.historyIndex == 0 && !CanUndo(r) && r.flow == INITIAL_STATE && |r.history| == |ss| + 1
  {
    CommitsThenUndos(Init(), ss);
  }

  /** Committing while snapshots are ahead of the cursor discards them: `[S0,S1,S2,S3]` at 1 becomes `[S0,S1,S4]` at 2. */
  lemma CommitPrunesRedoBranch(s0: FlowState, s1: FlowState, s2: FlowState, s3: FlowState, s4: FlowState)
    ensures CommitStep(HistoryState(s1, [s0, s1, s2, s3], 1), s4) == HistoryState(s4, [s0, s1, s4], 2)
  {
  }

  // ---------------------------------------------------------------------------
  // Live edits

  /** A live node edit keeps the edges, the history and the cursor; it stays synced only if it changed nothing. */
  lemma LiveNodesKeepsHistory(h: HistoryState, nodes: seq<Node>)
    requires Synced(h)
    ensures var r := LiveNodes(h, nodes);
            WellFormed(r) && r.flow.nodes == nodes && r.flow.edges == h.flow.edges &&
            r.history == h.history && r.historyIndex == h.historyIndex &&
            (Synced(r) <==> nodes == h.flow.nodes)
  {
  }

  /** A live edge edit keeps the nodes, the history and the cursor; it stays synced only if it changed nothing. */
  lemma LiveEdgesKeepsHistory(h: HistoryState, edges: seq<Edge>)
    requires Synced(h)
    ensures var r := LiveEdges(h, edges);
            WellFormed(r) && r.flow.edges == edges && r.flow.nodes == h.flow.nodes &&
            r.history == h.history && r.historyIndex == h.historyIndex &&
            (Synced(r) <==> edges == h.flow.edges)
  {
  }

  /** Uncommitted live edits are lost by Undo and Redo, and do not reach the history when another snapshot is committed. */
  lemma LiveEditsAreDiscarded(h: HistoryState, nodes: seq<Node>, edges: seq<Edge>, s: FlowState)
    requires WellFormed(h)
    ensures CanUndo(h) ==> UndoStep(LiveEdges(LiveNodes(h, nodes), edges)) == UndoStep(h)
    ensures CanRedo(h) ==> RedoStep(LiveEdges(LiveNodes(h, nodes), edges)) == RedoStep(h)
    ensures CommitStep(LiveEdges(LiveNodes(h, nodes), edges), s) == CommitStep(h, s)
  {
  }

  // ---------------------------------------------------------------------------
  // The page's state, updated in place

  class FlowHistory {
    var flow: FlowState
    var history: seq<FlowState>
    var historyIndex: nat

    ghost predicate Valid()
      reads this
    {
      WellFormed(State())
    }

    /** The three fields as one value. */
    function State(): HistoryState
      reads this
    {
      HistoryState(flow, history, historyIndex)
    }

    constructor ()
      ensures Valid() && State() == Init()
      ensures history == [INITIAL_STATE] && historyIndex == 0 && flow == INITIAL_STATE
    {
      flow := INITIAL_STATE;
      history := [INITIAL_STATE];
      historyIndex := 0;
    }

    method SetFlowAndHistory(newFlow: FlowState)
      requires Valid()
      modifies this
      ensures Valid() && State() == CommitStep(old(State()), newFlow)
      ensures history == old(history[..historyIndex + 1]) + [newFlow]
      ensures historyIndex == old(historyIndex) + 1 && flow == newFlow
    {
      var newHistory := history[..historyIndex + 1];
      history := newHistory + [newFlow];
      historyIndex := |newHistory|;
      flow := newFlow;
    }

    method Undo()
      requires Valid()
      modifies this
      ensures Valid() && State() == UndoStep(old(State()))
      ensures history == old(history)
      ensures old(historyIndex) > 0 ==> historyIndex == old(historyIndex) - 1 && flow == history[historyIndex]
      ensures old(historyIndex) == 0 ==> historyIndex == 0 && flow == old(flow)
    {
      if historyIndex > 0 {
        historyIndex := historyIndex - 1;
        flow := history[historyIndex];
      }
    }

    method Redo()
      requires Valid()
      modifies this
      ensures Valid() && State() == RedoStep(old(State()))
      ensures history == old(history)
      ensures old(historyIndex) < |history| - 1 ==> historyIndex == old(historyIndex) + 1 && flow == history[historyIndex]
      ensures old(historyIndex) == |history| - 1 ==> historyIndex == old(historyIndex) && flow == old(flow)
    {
      if historyIndex < |history| - 1 {
        historyIndex := historyIndex + 1;
        flow := history[historyIndex];
      }
    }

    /** The `setNodes` callback handed to the canvas. */
    method SetNodes(nodes: seq<Node>)
      requires Valid()
      modifies this
      ensures Valid() && State() == LiveNodes(old(State()), nodes)
      ensures flow == FlowState(nodes, old(flow.edges))
      ensures history == old(history) && historyIndex == old(historyIndex)
    {
      flow := FlowState(nodes, flow.edges);
    }

    /** The `setEdges` callback handed to the canvas. */
    method SetEdges(edges: seq<Edge>)
      requires Valid()
      modifies this
      ensures Valid() && State() == LiveEdges(old(State()), edges)
      ensures flow == FlowState(old(flow.nodes), edges)
      ensures history == old(history) && historyIndex == old(historyIndex)
    {
      flow := FlowState(flow.nodes, edges);
    }
  }
}
