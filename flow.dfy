/**
 The values the editor keeps in its history: the node and edge records of the
 graph-diagramming library, the `FlowState` pair of HomePage.tsx, and the two
 array operations (`find` and `filter`) that the handlers of CanvasArea.tsx use.
 */
module Flow {
  import opened Wrappers

  /** A canvas position. The library's positions are floating-point; here they are integer pairs. */
  datatype Position = Position(x: int, y: int)

  /** The `data` payload of a dropped block: its display label (`label`) and its block type. */
  datatype NodeData = NodeData(labelText: string, blockType: string)

  /** A node as the library stores it; `kind` is the library's `type` field ("default"). */
  datatype Node = Node(id: string, kind: string, position: Option<Position>, data: NodeData)

  /** A directed edge between two node ids. */
  datatype Edge = Edge(id: string, source: string, target: string)

  /** One snapshot of the graph: `{ nodes, edges }`. */
  datatype FlowState = FlowState(nodes: seq<Node>, edges: seq<Edge>)

  /** The empty graph the editor starts from. */
  const INITIAL_STATE := FlowState([], [])

  /** `s.filter(keep)`: the elements of `s` that satisfy `keep`, in their original order. */
  function Filter<T>(s: seq<T>, keep: T -> bool): (r: seq<T>)
    ensures |r| <= |s|
    ensures forall i :: 0 <= i < |r| ==> r[i] in s && keep(r[i])
    ensures forall i :: 0 <= i < |s| && keep(s[i]) ==> s[i] in r
  {
    if s == [] then [] else (if keep(s[0]) then [s[0]] else []) + Filter(s[1..], keep)
  }

  /** Filtering a concatenation filters each part and keeps them in order. */
  lemma {:induction false} FilterConcat<T>(a: seq<T>, b: seq<T>, keep: T -> bool)
    ensures Filter(a + b, keep) == Filter(a, keep) + Filter(b, keep)
  {
    if a == [] {
      assert a + b == b;
    } else {
      assert (a + b)[1..] == a[1..] + b;
      FilterConcat(a[1..], b, keep);
    }
  }

  /** An element that passes `keep` is preserved, and one that does not is dropped. */
  lemma FilterSingleton<T>(x: T, keep: T -> bool)
    ensures Filter([x], keep) == if keep(x) then [x] else []
  {
  }

  /** When every element passes, filtering changes nothing. */
  lemma {:induction false} FilterKeepsAll<T>(s: seq<T>, keep: T -> bool)
    requires forall i :: 0 <= i < |s| ==> keep(s[i])
    ensures Filter(s, keep) == s
  {
    if s != [] {
      FilterKeepsAll(s[1..], keep);
      assert [s[0]] + s[1..] == s;
    }
  }

  /** `s.find(p)`: the first element of `s` that satisfies `p`, or `None` (`undefined`). */
  function Find<T>(s: seq<T>, p: T -> bool): (r: Option<T>)
    ensures r.None? <==> forall i :: 0 <= i < |s| ==> !p(s[i])
    ensures r.Some? ==> exists i :: 0 <= i < |s| && s[i] == r.value && p(s[i]) && forall j :: 0 <= j < i ==> !p(s[j])
  {
    if s == [] then None
    else if p(s[0]) then Some(s[0])
    else
      var r := Find(s[1..], p);
      assert r.Some? ==> exists i :: 0 <= i < |s[1..]| && s[1..][i] == r.value && p(s[1..][i]) && forall j :: 0 <= j < i ==> !p(s[1..][j]);
      assert r.Some? ==> exists i :: 1 <= i < |s| && s[i] == r.value && p(s[i]) && forall j :: 0 <= j < i ==> !p(s[j]) by {
        if r.Some? {
          var i :| 0 <= i < |s[1..]| && s[1..][i] == r.value && p(s[1..][i]) && forall j :: 0 <= j < i ==> !p(s[1..][j]);
          assert forall j :: 1 <= j < i + 1 ==> !p(s[j]) by {
            forall j | 1 <= j < i + 1 ensures !p(s[j]) { assert s[j] == s[1..][j - 1]; }
          }
        }
      }
      r
  }

  /** Whether some node of `nodes` carries the id `id`. */
  predicate HasNode(nodes: seq<Node>, id: string) {
    exists i :: 0 <= i < |nodes| && nodes[i].id == id
  }

  /** No two nodes share an id. */
  predicate UniqueIds(nodes: seq<Node>) {
    forall i, j :: 0 <= i < j < |nodes| ==> nodes[i].id != nodes[j].id
  }

  /** Every edge of the snapshot joins two nodes that are in it. */
  predicate EdgesClosed(f: FlowState) {
    forall k :: 0 <= k < |f.edges| ==> HasNode(f.nodes, f.edges[k].source) && HasNode(f.nodes, f.edges[k].target)
  }
}
